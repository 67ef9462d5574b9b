/** The borrow, return and reconnect protocol of the MySQL pool as a step system over
    any number of threads (src/db_mysql.c:149-258).

    A step is a region the source runs under pool_lock, the coordinator's claim of
    `reconnecting`, or the coordinator's work on one slot ending in its publication.
    With `split` two of these are divided, as the source's text allows: the last at the
    boundary between the two assignments `connected = 1` and `in_use = 0`, and any fruitless
    scan between its look at `reconnecting` and its wait, since the coordinator clears
    that flag and broadcasts without the lock.  A borrower who has been woken may then
    also find that his time is up, and leave without another scan (see module PoolSplit). */
module PoolProtocol {
  import opened Options
  import opened Counting
  import opened MysqlPool

  datatype Thread =
    | Outside                                    // not inside borrow, holding nothing
    | Scanning                                   // about to scan, not after a wait
    | Woken                                      // released from the wait, due to rescan
    | Asleep                                     // in pthread_cond_timedwait, not signalled
    | Dozing                                     // holding the lock, about to wait
    | Trying                                     // in pool_try_reconnect, before its test
    | Coordinating(next: nat, ok: nat)           // reconnecting, at slot `next`
    | Publishing(next: nat, ok: nat)             // between the two stores of slot `next`
    | Holding(slot: nat, handle: Option<Handle>) // borrow has returned this handle

  predicate IsAsleep(t: Thread) { t.Asleep? }
  predicate IsWoken(t: Thread) { t.Woken? }
  predicate IsHolding(t: Thread) { t.Holding? }
  predicate IsCoordinator(t: Thread) { t.Coordinating? || t.Publishing? }

  datatype State = State(slots: seq<Slot>, reconnecting: bool, last: int, backoff: int,
                         active: nat, threads: seq<Thread>)

  datatype Step =
    | Enter(t: nat)
    | Scan(t: nat)
    | Doze(t: nat)
    | Sleep(t: nat)
    | GiveUp(t: nat)
    | Claim(t: nat, now: int)
    | Connect(t: nat, outcome: ConnectOutcome)
    | StoreConnected(t: nat, handle: Handle)
    | StoreInUse(t: nat)
    | Finish(t: nat)
    | Return(t: nat, wake: Option<nat>)
    | Spurious(t: nat)
    | Timeout(t: nat)

  /** mysql_init never returns the address of a client object that is still open. */
  ghost predicate Unused(slots: seq<Slot>, except: nat, h: Handle) {
    forall j :: 0 <= j < |slots| && j != except ==> slots[j].conn != Some(h)
  }

  /** Nobody is between a scan and the wait that gives the lock up. */
  ghost predicate LockFree(ts: seq<Thread>) {
    forall u :: 0 <= u < |ts| ==> !ts[u].Dozing?
  }

  ghost predicate Enabled(s: State, step: Step, split: bool) {
    step.t < |s.threads| &&
    var th := s.threads[step.t];
    match step
    case Enter(_) => th.Outside?
    case Scan(_) => (th.Scanning? || th.Woken?) && (split ==> LockFree(s.threads))
    case Doze(_) =>
      split && (th.Scanning? || th.Woken?) && LockFree(s.threads) && FirstIndex(s.slots, IsFree) == None
      && !(s.active < |s.slots| && !s.reconnecting)
    case Sleep(_) => split && th.Dozing?
    case GiveUp(_) => split && th.Woken? && LockFree(s.threads)
    case Claim(_, _) => th.Trying?
    case Connect(_, o) =>
      th.Coordinating? && th.next < |s.slots| && (o.Connects? ==> Unused(s.slots, th.next, o.handle))
    case StoreConnected(_, h) =>
      split && th.Coordinating? && th.next < |s.slots| && !s.slots[th.next].connected
      && Unused(s.slots, th.next, h)
    case StoreInUse(_) => split && th.Publishing? && th.next < |s.slots|
    case Finish(_) => th.Coordinating? && th.next == |s.slots|
    case Return(_, wake) =>
      // pthread_cond_signal releases a sleeper when there is one
      th.Holding? && (split ==> LockFree(s.threads)) &&
      (if wake.Some? then wake.value < |s.threads| && s.threads[wake.value].Asleep?
       else forall u :: 0 <= u < |s.threads| ==> !s.threads[u].Asleep?)
    case Spurious(_) => th.Asleep?
    case Timeout(_) => th.Asleep?
  }

  function Wake(t: Thread): Thread { if t.Asleep? then Woken else t }

  function Broadcast(ts: seq<Thread>): (r: seq<Thread>)
    ensures |r| == |ts|
  {
    seq(|ts|, i requires 0 <= i < |ts| => Wake(ts[i]))
  }

  function Apply(s: State, step: Step, ghost split: bool): State
    requires Enabled(s, step, split)
  {
    var th := s.threads[step.t];
    match step
    case Enter(t) => s.(threads := s.threads[t := Scanning])
    case Scan(t) =>
      (match FirstIndex(s.slots, IsFree)
       case Some(i) =>
         s.(slots := s.slots[i := s.slots[i].(inUse := true)],
            threads := s.threads[t := Holding(i, s.slots[i].conn)])
       case None =>
         if s.active < |s.slots| && !s.reconnecting then s.(threads := s.threads[t := Trying])
         else s.(threads := s.threads[t := Asleep]))
    case Doze(t) => s.(threads := s.threads[t := Dozing])
    case Sleep(t) => s.(threads := s.threads[t := Asleep])
    case GiveUp(t) => s.(threads := s.threads[t := Outside])
    case Claim(t, now) =>
      if GateOpen(s.reconnecting, s.last, s.backoff, now)
      then s.(reconnecting := true, last := now, threads := s.threads[t := Coordinating(0, 0)])
      else s.(threads := s.threads[t := Scanning])
    case Connect(t, o) =>
      var ok := if s.slots[th.next].connected || o.Connects? then th.ok + 1 else th.ok;
      s.(slots := s.slots[th.next := AfterReconnect(s.slots[th.next], o)],
         threads := s.threads[t := Coordinating(th.next + 1, ok)])
    case StoreConnected(t, h) =>
      s.(slots := s.slots[th.next := Slot(Some(h), s.slots[th.next].inUse, true)],
         threads := s.threads[t := Publishing(th.next, th.ok)])
    case StoreInUse(t) =>
      s.(slots := s.slots[th.next := s.slots[th.next].(inUse := false)],
         threads := s.threads[t := Coordinating(th.next + 1, th.ok + 1)])
    case Finish(t) =>
      s.(active := th.ok, reconnecting := false,
         backoff := NextBackoff(s.backoff, th.ok == |s.slots|),
         threads := Broadcast(s.threads[t := Scanning]))
    case Return(t, wake) =>
      var ts := s.threads[t := Outside];
      s.(slots := AfterReturn(s.slots, th.handle),
         threads := if wake.Some? then ts[wake.value := Woken] else ts)
    case Spurious(t) => s.(threads := s.threads[t := Woken])
    case Timeout(t) => s.(threads := s.threads[t := Outside])
  }

  /** Runs, oldest step first. */
  ghost predicate Run(s: State, steps: seq<Step>, split: bool)
    decreases |steps|
  {
    steps == [] || (Enabled(s, steps[0], split) && Run(Apply(s, steps[0], split), steps[1..], split))
  }

  ghost function Final(s: State, steps: seq<Step>, split: bool): State
    requires Run(s, steps, split)
    decreases |steps|
  {
    if steps == [] then s else Final(Apply(s, steps[0], split), steps[1..], split)
  }

  /** The pool after db_mysql_pool_connect_all, before any thread has entered borrow. */
  ghost predicate Initial(s: State) {
    && (forall k :: 0 <= k < |s.slots| ==>
          !s.slots[k].inUse && (s.slots[k].connected ==> s.slots[k].conn.Some?))
    && (forall j, k :: 0 <= j < k < |s.slots| && s.slots[j].conn.Some? ==> s.slots[j].conn != s.slots[k].conn)
    && (forall t :: 0 <= t < |s.threads| ==> s.threads[t].Outside?)
    && !s.reconnecting && s.backoff == RECONNECT_BASE_SEC && s.active == Count(s.slots, IsConnected)
  }

  // ---------------------------------------------------------------- exclusive lease

  /** What a borrower relies on: the slot behind its handle is connected, marked in
      use and carries that very handle, and no other borrower has slot or handle. */
  ghost predicate ExclusiveLease(s: State) {
    && (forall t :: 0 <= t < |s.threads| && s.threads[t].Holding? ==>
          && s.threads[t].slot < |s.slots|
          && s.threads[t].handle.Some?
          && s.slots[s.threads[t].slot] == Slot(s.threads[t].handle, true, true))
    && (forall t, u :: 0 <= t < u < |s.threads| && s.threads[t].Holding? && s.threads[u].Holding? ==>
          s.threads[t].slot != s.threads[u].slot && s.threads[t].handle != s.threads[u].handle)
  }

  ghost predicate SlotsSound(slots: seq<Slot>) {
    && (forall k :: 0 <= k < |slots| && slots[k].inUse ==> slots[k].connected)
    && (forall k :: 0 <= k < |slots| && slots[k].connected ==> slots[k].conn.Some?)
    && (forall j, k :: 0 <= j < k < |slots| && slots[j].conn.Some? ==> slots[j].conn != slots[k].conn)
  }

  /** The second store of a publication finds the slot taken by a borrower. */
  predicate Clobbers(s: State, step: Step) {
    && step.StoreInUse? && step.t < |s.threads| && s.threads[step.t].Publishing?
    && s.threads[step.t].next < |s.slots| && s.slots[s.threads[step.t].next].inUse
  }

  ghost predicate Holds(ts: seq<Thread>, t: nat, k: nat) { t < |ts| && ts[t].Holding? && ts[t].slot == k }

  /** Besides the lease itself: a slot in use has its borrower, and one between the two
      stores of its publication is connected. */
  ghost predicate LeaseInv(s: State) {
    && ExclusiveLease(s)
    && SlotsSound(s.slots)
    && (forall k :: 0 <= k < |s.slots| && s.slots[k].inUse ==> exists t :: Holds(s.threads, t, k))
    && (forall t :: 0 <= t < |s.threads| && s.threads[t].Publishing? && s.threads[t].next < |s.slots| ==>
          s.slots[s.threads[t].next].connected)
  }

  lemma ReturnFindsItsSlot(s: State, t: nat)
    requires LeaseInv(s) && t < |s.threads| && s.threads[t].Holding?
    ensures var k := s.threads[t].slot;
            AfterReturn(s.slots, s.threads[t].handle) == s.slots[k := s.slots[k].(inUse := false)]
  {
    var k, h := s.threads[t].slot, s.threads[t].handle;
    assert HasHandle(h)(s.slots[k]);
    var i := FirstIndex(s.slots, HasHandle(h)).value;
    assert s.slots[i].conn == h;
  }

  /** Threads that hold nothing may change as long as none starts to publish. */
  lemma LeaseSame(s: State, s': State)
    requires LeaseInv(s) && s'.slots == s.slots && |s'.threads| == |s.threads|
    requires forall u :: 0 <= u < |s.threads|
               && (s.threads[u].Holding? || s'.threads[u].Holding? || s'.threads[u].Publishing?)
               ==> s'.threads[u] == s.threads[u]
    ensures LeaseInv(s')
  {
    forall k | 0 <= k < |s.slots| && s.slots[k].inUse
      ensures exists t :: Holds(s'.threads, t, k)
    {
      var t :| Holds(s.threads, t, k);
      assert Holds(s'.threads, t, k);
    }
  }

  lemma LeaseTake(s: State, t: nat, i: nat)
    requires LeaseInv(s) && t < |s.threads| && (s.threads[t].Scanning? || s.threads[t].Woken?)
    requires i < |s.slots| && IsFree(s.slots[i])
    ensures LeaseInv(s.(slots := s.slots[i := s.slots[i].(inUse := true)],
                        threads := s.threads[t := Holding(i, s.slots[i].conn)]))
  {
    var ts := s.threads[t := Holding(i, s.slots[i].conn)];
    forall u | 0 <= u < |s.threads| && s.threads[u].Holding?
      ensures s.threads[u].slot != i && s.threads[u].handle != s.slots[i].conn
    {
      assert s.slots[s.threads[u].slot].inUse && !s.slots[i].inUse;
    }
    forall k | 0 <= k < |s.slots| && (s.slots[k].inUse || k == i)
      ensures exists u :: Holds(ts, u, k)
    {
      if k == i {
        assert Holds(ts, t, k);
      } else {
        var u :| Holds(s.threads, u, k);
        assert Holds(ts, u, k);
      }
    }
  }

  lemma LeaseScan(s: State, t: nat, split: bool)
    requires LeaseInv(s) && Enabled(s, Scan(t), split)
    ensures LeaseInv(Apply(s, Scan(t), split))
  {
    match FirstIndex(s.slots, IsFree)
    case None => LeaseSame(s, Apply(s, Scan(t), split));
    case Some(i) => LeaseTake(s, t, i);
  }

  /** A slot that is down comes up, or not; nobody holds it. */
  lemma LeaseFill(s: State, t: nat, k: nat, v: Slot, th: Thread)
    requires LeaseInv(s) && t < |s.threads| && IsCoordinator(s.threads[t])
    requires k < |s.slots| && !s.slots[k].connected && !v.inUse
    requires v.conn.Some? ==> Unused(s.slots, k, v.conn.value)
    requires v.connected ==> v.conn.Some?
    requires th.Coordinating? || (th.Publishing? && th.next == k && v.connected)
    ensures LeaseInv(s.(slots := s.slots[k := v], threads := s.threads[t := th]))
  {
    var slots, ts := s.slots[k := v], s.threads[t := th];
    forall u | 0 <= u < |s.threads| && s.threads[u].Holding?
      ensures s.threads[u].slot != k && s.threads[u].handle != v.conn
    {
      assert s.slots[s.threads[u].slot].connected;
    }
    forall j | 0 <= j < |slots| && slots[j].inUse
      ensures exists u :: Holds(ts, u, j)
    {
      var u :| Holds(s.threads, u, j);
      assert Holds(ts, u, j);
    }
  }

  lemma LeaseConnect(s: State, t: nat, o: ConnectOutcome, split: bool)
    requires LeaseInv(s) && Enabled(s, Connect(t, o), split)
    ensures LeaseInv(Apply(s, Connect(t, o), split))
  {
    var k := s.threads[t].next;
    var s' := Apply(s, Connect(t, o), split);
    if s.slots[k].connected {
      assert s'.slots == s.slots;
      LeaseSame(s, s');
    } else {
      LeaseFill(s, t, k, s'.slots[k], s'.threads[t]);
    }
  }

  lemma LeaseStores(s: State, step: Step)
    requires LeaseInv(s) && Enabled(s, step, true) && (step.StoreConnected? || step.StoreInUse?) && !Clobbers(s, step)
    ensures LeaseInv(Apply(s, step, true))
  {
    var k := s.threads[step.t].next;
    var s' := Apply(s, step, true);
    if step.StoreConnected? {
      LeaseFill(s, step.t, k, s'.slots[k], s'.threads[step.t]);
    } else {
      assert s'.slots == s.slots;
      LeaseSame(s, s');
    }
  }

  /** A borrower gives his slot back. */
  lemma LeaseGive(s: State, t: nat, k: nat, ts: seq<Thread>)
    requires LeaseInv(s) && Holds(s.threads, t, k) && |ts| == |s.threads|
    requires forall u :: 0 <= u < |ts| && u != t && s.threads[u].Holding? ==> ts[u] == s.threads[u]
    requires forall u :: 0 <= u < |ts| && ts[u].Publishing? ==> ts[u] == s.threads[u]
    requires forall u :: 0 <= u < |ts| && ts[u].Holding? ==> u != t && ts[u] == s.threads[u]
    ensures LeaseInv(s.(slots := s.slots[k := s.slots[k].(inUse := false)], threads := ts))
  {
    forall u | 0 <= u < |ts| && ts[u].Holding?
      ensures ts[u].slot != k
    {
      assert if u < t then s.threads[u].slot != s.threads[t].slot else s.threads[t].slot != s.threads[u].slot;
    }
    forall j | 0 <= j < |s.slots| && j != k && s.slots[j].inUse
      ensures exists u :: Holds(ts, u, j)
    {
      var u: nat :| Holds(s.threads, u, j);
      assert Holds(ts, u, j);
    }
  }

  lemma LeaseReturn(s: State, t: nat, wake: Option<nat>, split: bool)
    requires LeaseInv(s) && Enabled(s, Return(t, wake), split)
    ensures LeaseInv(Apply(s, Return(t, wake), split))
  {
    ReturnFindsItsSlot(s, t);
    LeaseGive(s, t, s.threads[t].slot, Apply(s, Return(t, wake), split).threads);
  }

  /** Every step keeps the lease, but for a second store that finds its slot taken. */
  lemma LeaseStep(s: State, step: Step, split: bool)
    requires LeaseInv(s) && Enabled(s, step, split) && !Clobbers(s, step)
    ensures LeaseInv(Apply(s, step, split))
  {
    if step.Scan? {
      LeaseScan(s, step.t, split);
    } else if step.Connect? {
      LeaseConnect(s, step.t, step.outcome, split);
    } else if step.StoreConnected? || step.StoreInUse? {
      LeaseStores(s, step);
    } else if step.Return? {
      LeaseReturn(s, step.t, step.wake, split);
    } else {
      LeaseSame(s, Apply(s, step, split));
    }
  }

  /** No reconnect step touches a slot that is lent out: neither its handle (which
      would be closed) nor its flags change. */
  lemma ReconnectSparesLentSlots(s: State, t: nat, o: ConnectOutcome, u: nat)
    requires LeaseInv(s) && Enabled(s, Connect(t, o), false)
    requires u < |s.threads| && s.threads[u].Holding?
    ensures var k := s.threads[u].slot;
            Apply(s, Connect(t, o), false).slots[k] == s.slots[k] == Slot(s.threads[u].handle, true, true)
  {
  }

  // ------------------------------------------------------------ counting invariants

  ghost predicate TotalsRight(slots: seq<Slot>, ts: seq<Thread>) {
    forall t :: 0 <= t < |ts| && ts[t].Coordinating? ==>
      ts[t].next <= |slots| && ts[t].ok == Count(slots[..ts[t].next], IsConnected)
  }

  ghost predicate OneCoordinator(s: State) {
    Count(s.threads, IsCoordinator) == if s.reconnecting then 1 else 0
  }

  /** At most one coordinator, exactly while `reconnecting` is set; its running
      total is the number of connected slots it has passed; outside a reconnect
      active_count is the number of connected slots. */
  ghost predicate CoordinatorInv(s: State) {
    && OneCoordinator(s)
    && TotalsRight(s.slots, s.threads)
    && (!s.reconnecting ==> s.active == Count(s.slots, IsConnected))
    && RECONNECT_BASE_SEC <= s.backoff <= RECONNECT_MAX_SEC
  }

  /** No slot leaks: the slots in use are as many as the borrowers holding one. */
  ghost predicate NoLeak(s: State) {
    Count(s.slots, IsInUse) == Count(s.threads, IsHolding)
  }

  /** No lost wake-up: while somebody sleeps unsignalled, every free slot is spoken
      for by a woken borrower that has yet to rescan; during a reconnect the
      coordinator's broadcast is still to come. */
  ghost predicate NoLostWakeup(s: State) {
    !s.reconnecting && Count(s.threads, IsAsleep) > 0
    ==> Count(s.slots, IsFree) <= Count(s.threads, IsWoken)
  }

  ghost predicate Inv(s: State) {
    LeaseInv(s) && CoordinatorInv(s) && NoLeak(s) && NoLostWakeup(s)
  }

  function One(b: bool): int { if b then 1 else 0 }

  /** How one overwritten thread moves the four thread counts. */
  lemma ThreadMoves(ts: seq<Thread>, t: nat, v: Thread)
    requires t < |ts|
    ensures Count(ts[t := v], IsAsleep) == Count(ts, IsAsleep) - One(ts[t].Asleep?) + One(v.Asleep?)
    ensures Count(ts[t := v], IsWoken) == Count(ts, IsWoken) - One(ts[t].Woken?) + One(v.Woken?)
    ensures Count(ts[t := v], IsHolding) == Count(ts, IsHolding) - One(ts[t].Holding?) + One(v.Holding?)
    ensures Count(ts[t := v], IsCoordinator)
         == Count(ts, IsCoordinator) - One(IsCoordinator(ts[t])) + One(IsCoordinator(v))
  {
    CountUpdate(ts, t, v, IsAsleep);
    CountUpdate(ts, t, v, IsWoken);
    CountUpdate(ts, t, v, IsHolding);
    CountUpdate(ts, t, v, IsCoordinator);
  }

  lemma SlotMoves(slots: seq<Slot>, k: nat, v: Slot)
    requires k < |slots|
    ensures Count(slots[k := v], IsFree) == Count(slots, IsFree) - One(IsFree(slots[k])) + One(IsFree(v))
    ensures Count(slots[k := v], IsConnected) == Count(slots, IsConnected) - One(slots[k].connected) + One(v.connected)
    ensures Count(slots[k := v], IsInUse) == Count(slots, IsInUse) - One(slots[k].inUse) + One(v.inUse)
  {
    CountUpdate(slots, k, v, IsFree);
    CountUpdate(slots, k, v, IsConnected);
    CountUpdate(slots, k, v, IsInUse);
  }

  lemma ConnectedPrefix(slots: seq<Slot>, k: nat, v: Slot, n: nat)
    requires k < |slots| && n <= |slots| && v.connected == slots[k].connected
    ensures Count(slots[k := v][..n], IsConnected) == Count(slots[..n], IsConnected)
  {
    if k < n {
      assert slots[k := v][..n] == slots[..n][k := v];
      CountUpdate(slots[..n], k, v, IsConnected);
    } else {
      assert slots[k := v][..n] == slots[..n];
    }
  }

  /** A slot change that keeps `connected` keeps every coordinator's running total. */
  lemma TotalsStable(slots: seq<Slot>, k: nat, v: Slot, ts: seq<Thread>, ts': seq<Thread>)
    requires k < |slots| && v.connected == slots[k].connected && TotalsRight(slots, ts)
    requires |ts'| == |ts| && forall u :: 0 <= u < |ts| && ts'[u].Coordinating? ==> ts'[u] == ts[u]
    ensures TotalsRight(slots[k := v], ts')
  {
    forall u | 0 <= u < |ts| && ts'[u].Coordinating?
      ensures ts'[u].ok == Count(slots[k := v][..ts'[u].next], IsConnected)
    {
      ConnectedPrefix(slots, k, v, ts[u].next);
    }
  }

  lemma {:induction false} BroadcastCounts(ts: seq<Thread>)
    ensures Count(Broadcast(ts), IsAsleep) == 0
    ensures Count(Broadcast(ts), IsHolding) == Count(ts, IsHolding)
    ensures Count(Broadcast(ts), IsCoordinator) == Count(ts, IsCoordinator)
  {
    if ts != [] {
      var n := |ts| - 1;
      assert Broadcast(ts)[..n] == Broadcast(ts[..n]);
      BroadcastCounts(ts[..n]);
    }
  }

  lemma SoleCoordinator(s: State, t: nat)
    requires CoordinatorInv(s) && t < |s.threads| && IsCoordinator(s.threads[t])
    ensures s.reconnecting
    ensures forall u :: 0 <= u < |s.threads| && IsCoordinator(s.threads[u]) ==> u == t
  {
    CountWitness(s.threads, t, IsCoordinator);
    forall u | 0 <= u < |s.threads| && IsCoordinator(s.threads[u]) && u != t
      ensures false
    {
      if u < t { CountTwo(s.threads, u, t, IsCoordinator); } else { CountTwo(s.threads, t, u, IsCoordinator); }
    }
  }

  lemma ScanTakes(s: State, t: nat, i: nat)
    requires CoordinatorInv(s) && NoLeak(s) && NoLostWakeup(s)
    requires t < |s.threads| && (s.threads[t].Scanning? || s.threads[t].Woken?)
    requires i < |s.slots| && IsFree(s.slots[i])
    ensures var s' := s.(slots := s.slots[i := s.slots[i].(inUse := true)],
                         threads := s.threads[t := Holding(i, s.slots[i].conn)]);
            CoordinatorInv(s') && NoLeak(s') && NoLostWakeup(s')
  {
    var v, th := s.slots[i].(inUse := true), Holding(i, s.slots[i].conn);
    ThreadMoves(s.threads, t, th);
    SlotMoves(s.slots, i, v);
    TotalsStable(s.slots, i, v, s.threads, s.threads[t := th]);
  }

  lemma InvScan(s: State, t: nat)
    requires Inv(s) && Enabled(s, Scan(t), false)
    ensures Inv(Apply(s, Scan(t), false))
  {
    LeaseScan(s, t, false);
    match FirstIndex(s.slots, IsFree)
    case None =>
      CountNone(s.slots, IsFree);
      ThreadMoves(s.threads, t, Apply(s, Scan(t), false).threads[t]);
    case Some(i) => ScanTakes(s, t, i);
  }

  lemma InvClaim(s: State, t: nat, now: int)
    requires Inv(s) && Enabled(s, Claim(t, now), false)
    ensures Inv(Apply(s, Claim(t, now), false))
  {
    LeaseStep(s, Claim(t, now), false);
    var s' := Apply(s, Claim(t, now), false);
    ThreadMoves(s.threads, t, s'.threads[t]);
    assert s.slots[..0] == [];
  }

  lemma ConnectKeepsCounts(s: State, t: nat, o: ConnectOutcome)
    requires Inv(s) && Enabled(s, Connect(t, o), false)
    ensures var s' := Apply(s, Connect(t, o), false); CoordinatorInv(s') && NoLeak(s') && NoLostWakeup(s')
  {
    SoleCoordinator(s, t);
    var s' := Apply(s, Connect(t, o), false);
    var k := s.threads[t].next;
    ThreadMoves(s.threads, t, s'.threads[t]);
    SlotMoves(s.slots, k, s'.slots[k]);
    assert s'.slots[..k] == s.slots[..k];
    CountPush(s'.slots, k, IsConnected);
  }

  lemma InvConnect(s: State, t: nat, o: ConnectOutcome)
    requires Inv(s) && Enabled(s, Connect(t, o), false)
    ensures Inv(Apply(s, Connect(t, o), false))
  {
    LeaseConnect(s, t, o, false);
    ConnectKeepsCounts(s, t, o);
  }

  lemma InvFinish(s: State, t: nat)
    requires Inv(s) && Enabled(s, Finish(t), false)
    ensures Inv(Apply(s, Finish(t), false))
  {
    LeaseStep(s, Finish(t), false);
    SoleCoordinator(s, t);
    ThreadMoves(s.threads, t, Scanning);
    BroadcastCounts(s.threads[t := Scanning]);
    assert s.slots[..|s.slots|] == s.slots;
  }

  lemma ReturnMoves(slots: seq<Slot>, k: nat, ts: seq<Thread>, t: nat, wake: Option<nat>)
    requires k < |slots| && IsInUse(slots[k]) && slots[k].connected
    requires t < |ts| && ts[t].Holding?
    requires if wake.Some? then wake.value < |ts| && ts[wake.value].Asleep?
             else forall u :: 0 <= u < |ts| ==> !ts[u].Asleep?
    ensures var slots' := slots[k := slots[k].(inUse := false)];
            && Count(slots', IsInUse) == Count(slots, IsInUse) - 1
            && Count(slots', IsFree) == Count(slots, IsFree) + 1
            && Count(slots', IsConnected) == Count(slots, IsConnected)
    ensures var ts' := ts[t := Outside]; var ts'' := if wake.Some? then ts'[wake.value := Woken] else ts';
            && Count(ts'', IsHolding) == Count(ts, IsHolding) - 1
            && Count(ts'', IsCoordinator) == Count(ts, IsCoordinator)
            && Count(ts'', IsWoken) == Count(ts, IsWoken) + One(wake.Some?)
            && (if wake.Some? then Count(ts, IsAsleep) > 0 else Count(ts'', IsAsleep) == 0)
  {
    SlotMoves(slots, k, slots[k].(inUse := false));
    ThreadMoves(ts, t, Outside);
    match wake {
      case None => CountNone(ts[t := Outside], IsAsleep);
      case Some(u) =>
        CountWitness(ts, u, IsAsleep);
        ThreadMoves(ts[t := Outside], u, Woken);
    }
  }

  lemma ReturnKeepsCounts(s: State, t: nat, wake: Option<nat>)
    requires Inv(s) && Enabled(s, Return(t, wake), false)
    ensures var s' := Apply(s, Return(t, wake), false); CoordinatorInv(s') && NoLeak(s') && NoLostWakeup(s')
  {
    ReturnFindsItsSlot(s, t);
    var s' := Apply(s, Return(t, wake), false);
    var k := s.threads[t].slot;
    ReturnMoves(s.slots, k, s.threads, t, wake);
    TotalsStable(s.slots, k, s'.slots[k], s.threads, s'.threads);
  }

  lemma InvReturn(s: State, t: nat, wake: Option<nat>)
    requires Inv(s) && Enabled(s, Return(t, wake), false)
    ensures Inv(Apply(s, Return(t, wake), false))
  {
    LeaseReturn(s, t, wake, false);
    ReturnKeepsCounts(s, t, wake);
  }

  lemma InvStep(s: State, step: Step)
    requires Inv(s) && Enabled(s, step, false)
    ensures Inv(Apply(s, step, false))
  {
    if step.Scan? {
      InvScan(s, step.t);
    } else if step.Claim? {
      InvClaim(s, step.t, step.now);
    } else if step.Connect? {
      InvConnect(s, step.t, step.outcome);
    } else if step.Finish? {
      InvFinish(s, step.t);
    } else if step.Return? {
      InvReturn(s, step.t, step.wake);
    } else {
      LeaseStep(s, step, false);
      var s' := Apply(s, step, false);
      ThreadMoves(s.threads, step.t, s'.threads[step.t]);
    }
  }

  lemma InvInitial(s: State)
    requires Initial(s)
    ensures Inv(s)
  {
    CountNone(s.threads, IsCoordinator);
    CountNone(s.threads, IsAsleep);
    CountNone(s.threads, IsHolding);
    CountNone(s.slots, IsInUse);
  }

  // --------------------------------------------------------------------- theorems

  /** Whatever the threads, the schedule, the clock and the server do. */
  lemma {:induction false} InvariantAlways(s: State, steps: seq<Step>)
    requires Inv(s) && Run(s, steps, false)
    ensures Inv(Final(s, steps, false))
    decreases |steps|
  {
    if steps != [] {
      InvStep(s, steps[0]);
      InvariantAlways(Apply(s, steps[0], false), steps[1..]);
    }
  }

  lemma PoolSafety(s: State, steps: seq<Step>)
    requires Initial(s) && Run(s, steps, false)
    ensures var f := Final(s, steps, false);
            ExclusiveLease(f) && NoLeak(f) && NoLostWakeup(f) && CoordinatorInv(f)
  {
    InvInitial(s);
    InvariantAlways(s, steps);
  }
}
