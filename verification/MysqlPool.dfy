/** The MySQL connection pool (src/db_mysql.c): slots, connection set-up, the
    reconnect gate with exponential backoff, and the lock-held halves of borrow
    and return.  Every method is one thread's uninterrupted work on the pool; the
    interleaving of threads is the subject of module PoolProtocol, which takes its
    steps from the functions declared here. */
module MysqlPool {
  import opened Options
  import opened Counting

  const RECONNECT_BASE_SEC := 1
  const RECONNECT_MAX_SEC := 30
  const POOL_DEFAULT_SIZE := 8
  const POOL_MAX_SIZE := 32

  /** A MYSQL*, as the address of a client object that has not been closed. */
  type Handle = nat

  datatype Slot = Slot(conn: Option<Handle>, inUse: bool, connected: bool)

  /** What mysql_init and mysql_real_connect may answer. */
  datatype ConnectOutcome = InitFails | ConnectFails | Connects(handle: Handle)

  predicate IsFree(s: Slot) { !s.inUse && s.connected }

  predicate IsConnected(s: Slot) { s.connected }

  predicate IsInUse(s: Slot) { s.inUse }

  predicate Succeeds(o: ConnectOutcome) { o.Connects? }

  function HasHandle(h: Option<Handle>): Slot -> bool { (s: Slot) => s.conn == h }

  /** slot_connect: the old handle is closed first; a failing mysql_init leaves the
      two flags alone, a failing connect clears only `connected`. */
  function AfterConnect(s: Slot, o: ConnectOutcome): Slot {
    match o
    case InitFails => s.(conn := None)
    case ConnectFails => s.(conn := None, connected := false)
    case Connects(h) => Slot(Some(h), false, true)
  }

  function AfterReconnect(s: Slot, o: ConnectOutcome): Slot {
    if s.connected then s else AfterConnect(s, o)
  }

  /** db_mysql_pool_return: the first slot that carries the handle is released. */
  function AfterReturn(slots: seq<Slot>, h: Option<Handle>): seq<Slot> {
    match FirstIndex(slots, HasHandle(h))
    case None => slots
    case Some(i) => slots[i := slots[i].(inUse := false)]
  }

  predicate GateOpen(reconnecting: bool, last: int, backoff: int, now: int) {
    !reconnecting && now - last >= backoff
  }

  function NextBackoff(backoff: int, complete: bool): int {
    if complete then RECONNECT_BASE_SEC
    else if backoff * 2 > RECONNECT_MAX_SEC then RECONNECT_MAX_SEC
    else backoff * 2
  }

  class Pool {
    const slots: array<Slot>
    var reconnecting: bool
    var lastAttempt: int
    var backoff: int
    var activeCount: int

    constructor (poolSize: int)
      ensures fresh(slots)
      ensures slots.Length == if poolSize <= 0 then 8 else if poolSize > 32 then 32 else poolSize
      ensures forall i :: 0 <= i < slots.Length ==> slots[i] == Slot(None, false, false)
      ensures !reconnecting && lastAttempt == 0 && backoff == 1 && activeCount == 0
    {
      var size := if poolSize > 0 then poolSize else POOL_DEFAULT_SIZE;
      if size > POOL_MAX_SIZE {
        size := POOL_MAX_SIZE;
      }
      slots := new Slot[size](_ => Slot(None, false, false));
      reconnecting, lastAttempt, backoff, activeCount := false, 0, RECONNECT_BASE_SEC, 0;
    }

    method SlotConnect(i: nat, o: ConnectOutcome) returns (ok: bool)
      requires i < slots.Length
      modifies slots
      ensures slots[..] == old(slots[..])[i := AfterConnect(old(slots[i]), o)]
      ensures ok == o.Connects?
      ensures ok ==> slots[i] == Slot(Some(o.handle), false, true)
      ensures !ok ==> slots[i].conn == None && slots[i].inUse == old(slots[i].inUse)
                      && slots[i].connected == (old(slots[i].connected) && o.InitFails?)
    {
      slots[i] := slots[i].(conn := None);  // mysql_close of the previous handle
      match o
      case InitFails => ok := false;
      case ConnectFails =>
        slots[i] := slots[i].(connected := false);
        ok := false;
      case Connects(h) =>
        slots[i] := Slot(Some(h), false, true);
        ok := true;
    }

    /** Every slot is attempted once, the number of successes is recorded, and one
        success is enough for the pool to count as available. */
    method ConnectAll(outcomes: seq<ConnectOutcome>) returns (available: bool)
      requires |outcomes| == slots.Length
      modifies slots, this`activeCount
      ensures forall i :: 0 <= i < slots.Length ==> slots[i] == AfterConnect(old(slots[i]), outcomes[i])
      ensures activeCount == Count(outcomes, Succeeds) && available == (activeCount > 0)
      ensures (forall i :: 0 <= i < slots.Length ==> !old(slots[i].connected))
              ==> activeCount == Count(slots[..], IsConnected)
    {
      var ok := 0;
      ghost var before := slots[..];
      for i := 0 to slots.Length
        invariant 0 <= ok && ok == Count(outcomes[..i], Succeeds)
        invariant forall j :: 0 <= j < i ==> slots[j] == AfterConnect(before[j], outcomes[j])
        invariant forall j :: i <= j < slots.Length ==> slots[j] == before[j]
        invariant (forall j :: 0 <= j < slots.Length ==> !before[j].connected)
                  ==> ok == Count(slots[..i], IsConnected)
      {
        ghost var done := slots[..i];
        CountPush(outcomes, i, Succeeds);
        var connected := SlotConnect(i, outcomes[i]);
        CountPush(slots[..], i, IsConnected);
        assert slots[..][..i] == slots[..i] == done && slots[..][..i + 1] == slots[..i + 1];
        if connected {
          ok := ok + 1;
        }
      }
      assert outcomes[..slots.Length] == outcomes && slots[..slots.Length] == slots[..];
      activeCount := ok;
      available := ok > 0;
    }

    /** A refused attempt changes nothing.  An admitted one reconnects exactly the
        slots that were down, touches no connected slot, recounts the pool and sets
        the next backoff. */
    method TryReconnect(now: int, outcomes: seq<ConnectOutcome>) returns (r: bool)
      requires |outcomes| == slots.Length
      modifies this, slots
      ensures old(reconnecting) || now < old(lastAttempt) + old(backoff) ==>
                !r && unchanged(this) && slots[..] == old(slots[..])
      ensures !old(reconnecting) && now >= old(lastAttempt) + old(backoff) ==>
                && (forall i :: 0 <= i < slots.Length ==> slots[i] == AfterReconnect(old(slots[i]), outcomes[i]))
                && (forall i :: 0 <= i < slots.Length ==>
                      (slots[i].connected <==> old(slots[i].connected) || outcomes[i].Connects?))
                && activeCount == Count(slots[..], IsConnected)
                && ((forall i :: 0 <= i < slots.Length ==> slots[i].connected) ==> backoff == 1)
                && ((exists i :: 0 <= i < slots.Length && !slots[i].connected) ==>
                      backoff == if old(backoff) > 15 then 30 else 2 * old(backoff))
                && lastAttempt == now && !reconnecting
                && r == (activeCount > 0)
    {
      if reconnecting || now - lastAttempt < backoff {
        return false;
      }
      reconnecting := true;
      lastAttempt := now;
      var ok := 0;
      ghost var before := slots[..];
      for i := 0 to slots.Length
        invariant lastAttempt == now && backoff == old(backoff)
        invariant 0 <= ok && ok == Count(slots[..i], IsConnected)
        invariant forall j :: 0 <= j < i ==> slots[j] == AfterReconnect(before[j], outcomes[j])
        invariant forall j :: i <= j < slots.Length ==> slots[j] == before[j]
      {
        ghost var done := slots[..i];
        if !slots[i].connected {
          var connected := SlotConnect(i, outcomes[i]);
          if connected {
            ok := ok + 1;
          }
        } else {
          ok := ok + 1;
        }
        CountPush(slots[..], i, IsConnected);
        assert slots[..][..i] == slots[..i] == done && slots[..][..i + 1] == slots[..i + 1];
      }
      assert slots[..slots.Length] == slots[..];
      activeCount := ok;
      if ok == slots.Length {
        assert forall i :: 0 <= i < slots.Length ==> slots[i].connected by {
          CountFull(slots[..], IsConnected);
        }
        backoff := RECONNECT_BASE_SEC;
      } else {
        var gap := CountGap(slots[..], IsConnected);
        assert !slots[gap].connected;
        backoff := backoff * 2;
        if backoff > RECONNECT_MAX_SEC {
          backoff := RECONNECT_MAX_SEC;
        }
      }
      reconnecting := false;
      r := ok > 0;
    }

    /** The lock-held scan of db_mysql_pool_borrow: the first free connected slot is
        marked, or nothing changes and there is none. */
    method BorrowScan() returns (r: Option<nat>)
      modifies slots
      ensures r == old(FirstIndex(slots[..], IsFree))
      ensures r.None? ==> slots[..] == old(slots[..])
      ensures r.Some? ==>
                slots[..] == old(slots[..])[r.value := old(slots[..])[r.value].(inUse := true)]
    {
      ghost var before := slots[..];
      for i := 0 to slots.Length
        invariant slots[..] == before
        invariant forall j :: 0 <= j < i ==> !IsFree(before[j])
      {
        if !slots[i].inUse && slots[i].connected {
          assert IsFree(before[i]);
          slots[i] := slots[i].(inUse := true);
          return Some(i);
        }
      }
      return None;
    }

    method Return(h: Handle)
      modifies slots
      ensures slots[..] == AfterReturn(old(slots[..]), Some(h))
    {
      ghost var before := slots[..];
      for i := 0 to slots.Length
        invariant slots[..] == before
        invariant forall j :: 0 <= j < i ==> !HasHandle(Some(h))(before[j])
      {
        if slots[i].conn == Some(h) {
          assert HasHandle(Some(h))(before[i]);
          slots[i] := slots[i].(inUse := false);
          return;
        }
      }
    }
  }
}
