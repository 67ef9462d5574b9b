/** The event loop's connection management (src/event_loop.c): allocation, registration,
    re-entrant removal through the default callbacks, accepting, idle clean-up, sending
    and destruction.  epoll_ctl, accept and send answer through parameters; the model's
    descriptor table records what the kernel has open and in which order it was closed. */
module EventLoop {
  import opened Options
  import opened Counting
  import opened SendBuffer
  import opened ConnectionTable

  /** What one round of the accept loop meets. */
  datatype Incoming = Client(nonblockOk: bool, epollOk: bool) | Interrupted | NoMore

  /** How a TCP read loop ends, after any amount of data. */
  datatype ReadEnd = Drained | Closed | ReadError

  /** How many sockets the accept loop gets whose set-up succeeds, before accept() says
      that there are no more. */
  function Welcome(incoming: seq<Incoming>): nat {
    if incoming == [] || incoming[0].NoMore? then 0
    else (if incoming[0] == Client(true, true) then 1 else 0) + Welcome(incoming[1..])
  }

  function Smaller(a: int, b: int): int { if a < b then a else b }

  datatype Events = Events(error: bool, hangup: bool, writable: bool, readable: bool)

  /** A connection as accept leaves it: active, just used, nothing left in its buffer. */
  predicate Newborn(c: Conn, now: int) {
    c.ctype.TcpClient? && c.state.Active? && c.createTime == now == c.lastActive && c.out == Empty()
  }

  /** default_on_error: a connection is freed; a free slot keeps the error state. */
  function Errored(c: Conn): Conn { if Live(c) then Freed(c) else c.(state := Failing) }

  function ClosedBy(c: Conn, hasOnClose: bool): Conn { if hasOnClose && Live(c) then Freed(c) else c }

  function AfterWrite(c: Conn, k: KernelSend, modOk: bool): Conn {
    var r := AfterWritable(c.out, k, modOk);
    if r.1 then Errored(c.(out := r.0)) else c.(out := r.0)
  }

  function AfterRead(c: Conn, end: ReadEnd, hasOnClose: bool): Conn {
    if c.ctype.UdpSip? || c.ctype.UdpRtp? || end.Drained? then c
    else if end.Closed? then ClosedBy(c, hasOnClose) else Errored(c)
  }

  /** The event gets as far as writing. */
  predicate GetsToWrite(c: Conn, ev: Events, hasOnClose: bool) {
    c.state.Active? && !ev.error && !(ev.hangup && hasOnClose) && ev.writable
  }

  /** A slot after an event on it, also a stale event on a slot that has been freed. */
  function AfterEvent(c: Conn, ev: Events, k: KernelSend, modOk: bool, end: ReadEnd, now: int, hasOnClose: bool): Conn {
    if c.state.Active? then AfterServed(c.(lastActive := now), ev, k, modOk, end, hasOnClose) else c
  }

  function AfterServed(c: Conn, ev: Events, k: KernelSend, modOk: bool, end: ReadEnd, hasOnClose: bool): Conn {
    if ev.error then Errored(c)
    else if ev.hangup && hasOnClose then ClosedBy(c, hasOnClose)
    else
      var w := if ev.writable then AfterWrite(c, k, modOk) else c;
      if ev.readable then AfterRead(w, end, hasOnClose) else w
  }

  /** Which events end a connection: an error; a hang-up or the end of the input, when
      on_close is set; a failed write of pending bytes; a failed read. */
  lemma EventFreesIff(c: Conn, ev: Events, k: KernelSend, modOk: bool, end: ReadEnd, now: int, hasOnClose: bool)
    requires Live(c) && c.state.Active?
    ensures var after := AfterEvent(c, ev, k, modOk, end, now, hasOnClose);
            var input := ev.readable && (c.ctype.TcpListen? || c.ctype.TcpClient?);
            (after.ctype.Free?
             <==> || ev.error || (ev.hangup && hasOnClose)
                  || (ev.writable && k.Error? && 0 < c.out.len && c.out.offset < c.out.len)
                  || (input && (end.ReadError? || (end.Closed? && hasOnClose))))
    ensures var after := AfterEvent(c, ev, k, modOk, end, now, hasOnClose);
            if after.ctype.Free? then
              && after.fd == -1 && after.out == Empty()
              // after a failed write the read callback still runs, on the freed slot
              && (after.state.Failing? <==>
                    && ev.writable && k.Error? && c.out.offset < c.out.len && !ev.error
                    && !(ev.hangup && hasOnClose) && ev.readable && end.ReadError?)
            else after.fd == c.fd && after.ctype == c.ctype && after.state == c.state && after.lastActive == now
                 && after.out == (if ev.writable then AfterWritable(c.out, k, modOk).0 else c.out)
  {
  }

  /** A stale event on a freed slot leaves it free; an error leaves it unusable for further
      events until it is allocated again. */
  lemma StaleEvent(c: Conn, ev: Events, k: KernelSend, modOk: bool, end: ReadEnd, now: int, hasOnClose: bool)
    requires !Live(c) && c.state.Active? && c.out.len == 0
    ensures var after := AfterEvent(c, ev, k, modOk, end, now, hasOnClose);
            && after.ctype.Free? && after.fd == c.fd && after.lastActive == now
            && (after.state.Failing? <==> ev.error || (!(ev.hangup && hasOnClose) && ev.readable && end.ReadError?))
            && (!after.state.Failing? ==> after.state.Active?)
  {
  }

  /** Closing and failed connections take no events. */
  lemma InactiveIgnored(c: Conn, ev: Events, k: KernelSend, modOk: bool, end: ReadEnd, now: int, hasOnClose: bool)
    requires c.state.Closing? || c.state.Failing?
    ensures AfterEvent(c, ev, k, modOk, end, now, hasOnClose) == c
  {
  }

  /** No finite set holds every descriptor. */
  lemma {:induction false} SomeUnusedFd(open: set<int>) returns (fd: int)
    ensures fd >= 0 && fd !in open
    ensures forall x :: x in open ==> x < fd
    decreases |open|
  {
    if x :| x in open {
      var y := SomeUnusedFd(open - {x});
      fd := if x < y then y else x + 1;
      forall z | z in open
        ensures z < fd
      {
        assert z == x || z in open - {x};
      }
    } else {
      fd := 0;
    }
  }

  class EventLoop {
    const conns: array<Conn>
    var activeCount: int
    const hasOnClose: bool          // callbacks.on_close: default_on_close, or NULL
    const idleTimeout: int

    var openFds: set<int>           // the kernel's side: open connection sockets
    ghost var closed: seq<int>      // and every close(), in order

    /** `hand`: sockets the running code has open but not (or no longer) in the table. */
    ghost predicate Valid(hand: set<int>)
      reads this, conns
    {
      TableInv(conns[..], activeCount, openFds, hand)
    }

    constructor (capacity: nat, hasOnClose: bool, idleTimeout: int)
      ensures Valid({}) && conns.Length == capacity && activeCount == 0 && openFds == {} && closed == []
      ensures this.hasOnClose == hasOnClose && this.idleTimeout == idleTimeout && fresh(conns)
    {
      conns := new Conn[capacity](_ => Allocated());
      activeCount, openFds, closed := 0, {}, [];
      this.hasOnClose, this.idleTimeout := hasOnClose, idleTimeout;
      new;
      CountNone(conns[..], Live);
    }

    /** The first free slot, zeroed; none when all are live. */
    method AllocConnection(ghost hand: set<int>) returns (r: Option<nat>)
      requires Valid(hand)
      modifies conns
      ensures Valid(hand)
      ensures r.None? <==> activeCount == conns.Length
      ensures r.None? ==> conns[..] == old(conns[..])
      ensures r.Some? ==>
                && r.value < conns.Length && old(conns[r.value]).ctype.Free?
                && (forall j :: 0 <= j < r.value ==> Live(old(conns[j])))
                && conns[..] == old(conns[..])[r.value := Allocated()]
    {
      ghost var before := conns[..];
      for i := 0 to conns.Length
        invariant conns[..] == before
        invariant forall j :: 0 <= j < i ==> Live(before[j])
      {
        if conns[i].ctype.Free? {
          TouchOne(before, i, Allocated());
          conns[i] := Allocated();
          assert conns[..] == before[i := Allocated()];
          if activeCount == conns.Length { CountFull(before, Live); }
          return Some(i);
        }
      }
      if activeCount < conns.Length {
        var gap := RoomBelowCapacity(conns[..], activeCount, openFds, hand);
        assert false;
      }
      return None;
    }

    /** el_add_connection.  It fails only for a bad descriptor, a full table, or a
        refusal by epoll; then the socket is still the caller's to close. */
    method AddConnection(fd: int, ctype: ConnType, epollOk: bool, now: int) returns (r: Option<nat>)
      requires !ctype.Free? && (fd >= 0 ==> fd in openFds) && Valid(if fd >= 0 then {fd} else {})
      modifies this`activeCount, conns
      ensures r.Some? <==> fd >= 0 && old(activeCount) < conns.Length && epollOk
      ensures r.Some? ==>
                && Valid({}) && activeCount == old(activeCount) + 1
                && r.value < conns.Length && old(conns[r.value]).ctype.Free?
                && (forall j :: 0 <= j < r.value ==> Live(old(conns[j])))
                && conns[..] == old(conns[..])[r.value := Conn(fd, ctype, Active, now, now, Empty())]
      ensures r.None? ==>
                && Valid(if fd >= 0 then {fd} else {}) && activeCount == old(activeCount)
                && (forall i :: 0 <= i < conns.Length && Live(old(conns[i])) ==> conns[i] == old(conns[i]))
                && (forall i :: 0 <= i < conns.Length ==> Live(conns[i]) == Live(old(conns[i])))
    {
      if fd < 0 {
        return None;
      }
      if activeCount >= conns.Length {
        return None;
      }
      var slot := AllocConnection({fd});
      if slot.None? {
        return None;
      }
      var ok := Register(slot.value, fd, ctype, epollOk, now);
      r := if ok then slot else None;
    }

    /** The second half of el_add_connection, on the slot just allocated. */
    method Register(i: nat, fd: int, ctype: ConnType, epollOk: bool, now: int) returns (ok: bool)
      requires i < conns.Length && conns[i] == Allocated() && !ctype.Free? && fd >= 0 && Valid({fd})
      modifies this`activeCount, conns
      ensures ok == epollOk
      ensures ok ==> Valid({}) && activeCount == old(activeCount) + 1
                     && conns[..] == old(conns[..])[i := Conn(fd, ctype, Active, now, now, Empty())]
      ensures !ok ==> Valid({fd}) && activeCount == old(activeCount)
                      && conns[..] == old(conns[..])[i := conns[i]] && !Live(conns[i])
    {
      ghost var before := conns[..];
      conns[i] := Conn(fd, ctype, Active, now, now, conns[i].out);
      if !epollOk {
        conns[i] := Freed(conns[i]);
        TouchOne(before, i, conns[i]);
        assert conns[..] == before[i := conns[i]];
        return false;
      }
      OccupyOne(before, i, conns[i]);
      assert conns[..] == before[i := conns[i]];
      activeCount := activeCount + 1;
      ok := true;
    }

    method CloseSocket(fd: int)
      modifies this`openFds, this`closed
      ensures openFds == old(openFds) - {fd} && closed == old(closed) + [fd]
    {
      openFds := openFds - {fd};
      closed := closed + [fd];
    }

    /** el_remove_connection: on a free slot nothing, else the descriptor is closed, the
        slot is freed and counted out. */
    method RemoveConnection(i: nat, ghost hand: set<int>)
      requires i < conns.Length && Valid(hand)
      modifies this`activeCount, this`openFds, this`closed, conns
      ensures Valid(hand)
      ensures !Live(old(conns[i])) ==> unchanged(this) && conns[..] == old(conns[..])
      ensures Live(old(conns[i])) ==>
                && conns[..] == old(conns[..])[i := Freed(old(conns[i]))]
                && activeCount == old(activeCount) - 1
                && closed == old(closed) + [old(conns[i]).fd]
                && openFds == old(openFds) - {old(conns[i]).fd}
    {
      if conns[i].ctype.Free? {
        return;
      }
      ghost var before := conns[..];
      FreeOne(before, i, Freed(conns[i]));
      if conns[i].fd >= 0 {
        CloseSocket(conns[i].fd);
      }
      conns[i] := Freed(conns[i]);
      activeCount := activeCount - 1;
      assert conns[..] == before[i := Freed(before[i])];
    }

    /** callbacks.on_close, when it is set. */
    method OnClose(i: nat)
      requires i < conns.Length && Valid({})
      modifies this`activeCount, this`openFds, this`closed, conns
      ensures Valid({})
      ensures !(hasOnClose && Live(old(conns[i]))) ==> unchanged(this) && conns[..] == old(conns[..])
      ensures hasOnClose && Live(old(conns[i])) ==>
                && conns[..] == old(conns[..])[i := Freed(old(conns[i]))]
                && activeCount == old(activeCount) - 1
                && closed == old(closed) + [old(conns[i]).fd]
                && openFds == old(openFds) - {old(conns[i]).fd}
    {
      if hasOnClose {
        RemoveConnection(i, {});
      }
    }

    /** on_close followed by a removal of its own, as default_on_error and the idle
        clean-up do it: one removal, whether or not on_close already made it. */
    method CloseAndRemove(i: nat)
      requires i < conns.Length && Valid({})
      modifies this`activeCount, this`openFds, this`closed, conns
      ensures Valid({})
      ensures !Live(old(conns[i])) ==> unchanged(this) && conns[..] == old(conns[..])
      ensures Live(old(conns[i])) ==>
                && conns[..] == old(conns[..])[i := Freed(old(conns[i]))]
                && activeCount == old(activeCount) - 1
                && closed == old(closed) + [old(conns[i]).fd]
                && openFds == old(openFds) - {old(conns[i]).fd}
    {
      OnClose(i);
      RemoveConnection(i, {});
    }

    /** default_on_error removes the connection once, although both on_close and its own
        last line ask for the removal. */
    method DefaultOnError(i: nat)
      requires i < conns.Length && Valid({})
      modifies this`activeCount, this`openFds, this`closed, conns
      ensures Valid({}) && conns[..] == old(conns[..])[i := Errored(old(conns[i]))]
      ensures Live(old(conns[i])) ==>
                && activeCount == old(activeCount) - 1
                && closed == old(closed) + [old(conns[i]).fd]
                && openFds == old(openFds) - {old(conns[i]).fd}
      ensures !Live(old(conns[i])) ==> unchanged(this)
    {
      ghost var before := conns[..];
      TouchOne(before, i, conns[i].(state := Failing));
      conns[i] := conns[i].(state := Failing);
      assert conns[..] == before[i := conns[i]];
      CloseAndRemove(i);
    }

    /** handle_accept with default_on_accept.  Each accepted socket, whichever unused
        number the kernel gives it, ends up in a slot or closed again; the connections
        already there are not disturbed. */
    method HandleAccept(incoming: seq<Incoming>, now: int) returns (registered: nat)
      requires Valid({})
      modifies this`activeCount, this`openFds, this`closed, conns
      ensures Valid({}) && activeCount == old(activeCount) + registered
      ensures registered == Smaller(conns.Length - old(activeCount), Welcome(incoming))
      ensures forall i :: 0 <= i < conns.Length && Live(old(conns[i])) ==> conns[i] == old(conns[i])
      ensures forall i :: 0 <= i < conns.Length && Live(conns[i]) && !Live(old(conns[i])) ==> Newborn(conns[i], now)
    {
      registered := 0;
      ghost var before, room := conns[..], conns.Length - activeCount;
      assert incoming[0..] == incoming && room >= 0;
      for k := 0 to |incoming|
        invariant Valid({}) && activeCount == old(activeCount) + registered <= conns.Length
        invariant Smaller(room, Welcome(incoming))
               == registered + Smaller(conns.Length - activeCount, Welcome(incoming[k..]))
        invariant forall i :: 0 <= i < conns.Length && Live(before[i]) ==> conns[i] == before[i]
        invariant forall i :: 0 <= i < conns.Length && Live(conns[i]) && !Live(before[i]) ==> Newborn(conns[i], now)
      {
        assert incoming[k..][0] == incoming[k] && incoming[k..][1..] == incoming[k + 1..];
        match incoming[k]
        case NoMore => return;
        case Interrupted =>
        case Client(nonblockOk, epollOk) =>
          var ok := AcceptOne(nonblockOk, epollOk, now);
          if ok {
            registered := registered + 1;
          }
      }
    }

    /** One successful accept(): the socket is registered or closed again. */
    method AcceptOne(nonblockOk: bool, epollOk: bool, now: int) returns (ok: bool)
      requires Valid({})
      modifies this`activeCount, this`openFds, this`closed, conns
      ensures Valid({}) && activeCount == old(activeCount) + (if ok then 1 else 0)
      ensures ok <==> old(activeCount) < conns.Length && nonblockOk && epollOk
      ensures forall i :: 0 <= i < conns.Length && Live(old(conns[i])) ==> conns[i] == old(conns[i])
      ensures forall i :: 0 <= i < conns.Length && Live(conns[i]) && !Live(old(conns[i])) ==> Newborn(conns[i], now)
    {
      ghost var unused := SomeUnusedFd(openFds);
      var fd: int :| fd >= 0 && fd !in openFds;
      openFds := openFds + {fd};
      ok := false;
      if activeCount >= conns.Length {
        CloseSocket(fd);
      } else if !nonblockOk {
        CloseSocket(fd);
      } else {
        var r := AddConnection(fd, TcpClient, epollOk, now);
        if r.None? {
          CloseSocket(fd);
        } else {
          ok := true;
        }
      }
    }

    /** The body of the clean-up loop. */
    method ReapIfIdle(i: nat, now: int)
      requires i < conns.Length && Valid({})
      modifies this`activeCount, this`openFds, this`closed, conns
      ensures Valid({})
      ensures var c, gone := old(conns[i]), Expired(old(conns[i]), now, idleTimeout);
              && conns[..] == old(conns[..])[i := if gone then Freed(c) else c]
              && activeCount == old(activeCount) - (if gone then 1 else 0)
              && closed == old(closed) + (if gone then [c.fd] else [])
    {
      if conns[i].ctype.Free? {
        return;
      }
      if conns[i].ctype.TcpListen? {
        return;
      }
      if !conns[i].state.Active? {
        return;
      }
      if now - conns[i].lastActive >= idleTimeout {
        CloseAndRemove(i);
      }
    }

    /** Frees exactly the active non-listening connections that have been idle for the
        timeout, closes each of their sockets once, in slot order, and leaves every
        other slot as it was, whether or not on_close is set. */
    method CleanupIdle(now: int)
      requires Valid({})
      modifies this`activeCount, this`openFds, this`closed, conns
      ensures Valid({})
      ensures conns[..] == Swept(old(conns[..]), ExpiredAt(now, idleTimeout), conns.Length)
      ensures activeCount == old(activeCount) - Count(old(conns[..]), ExpiredAt(now, idleTimeout))
      ensures closed == old(closed) + FdsWhere(old(conns[..]), ExpiredAt(now, idleTimeout))
    {
      ghost var before, p := conns[..], ExpiredAt(now, idleTimeout);
      ghost var active0, closed0 := activeCount, closed;
      assert Swept(before, p, 0) == before;
      for i := 0 to conns.Length
        invariant Valid({})
        invariant conns[..] == Swept(before, p, i)
        invariant activeCount == active0 - Count(before[..i], p)
        invariant closed == closed0 + FdsWhere(before[..i], p)
      {
        SweepOne(before, p, i);
        assert conns[i] == conns[..][i];
        ReapIfIdle(i, now);
      }
      assert before[..conns.Length] == before;
    }

    /** Valid, except that without on_close nobody keeps the counter. */
    ghost predicate TearingDown()
      reads this, conns
    {
      SlotsSound(conns[..]) && openFds == LiveFds(conns[..]) && (hasOnClose ==> Valid({}))
    }

    /** The body of the el_destroy loop: on_close, then what is left open. */
    method DestroySlot(i: nat)
      requires i < conns.Length && TearingDown()
      modifies this`activeCount, this`openFds, this`closed, conns
      ensures TearingDown()
      ensures var c := old(conns[i]);
              && conns[..] == old(conns[..])[i := if Live(c) then Freed(c) else c]
              && closed == old(closed) + if Live(c) then [c.fd] else []
    {
      if conns[i].ctype.Free? {
        return;
      }
      ghost var before := conns[..];
      FreeOne(before, i, Freed(before[i]));
      if hasOnClose {
        OnClose(i);
      }
      if conns[i].fd >= 0 {
        CloseSocket(conns[i].fd);
      }
      conns[i] := Freed(conns[i]);
      assert conns[..] == before[i := Freed(before[i])];
    }

    /** el_destroy closes every live descriptor exactly once, in slot order, and leaves
        none open, with the default on_close as well as without one. */
    method Destroy()
      requires Valid({})
      modifies this`activeCount, this`openFds, this`closed, conns
      ensures closed == old(closed) + FdsWhere(old(conns[..]), Live)
      ensures openFds == {} && forall i :: 0 <= i < conns.Length ==> conns[i].ctype.Free?
    {
      ghost var before, closed0 := conns[..], closed;
      assert Swept(before, Live, 0) == before;
      for i := 0 to conns.Length
        invariant TearingDown()
        invariant conns[..] == Swept(before, Live, i)
        invariant closed == closed0 + FdsWhere(before[..i], Live)
      {
        SweepOne(before, Live, i);
        assert conns[i] == conns[..][i];
        DestroySlot(i);
      }
      assert before[..conns.Length] == before;
      SweptIsFree(before);
    }

    /** el_send_data on a table slot. */
    method SendData(i: nat, data: seq<char>, k: KernelSend, modOk: bool) returns (r: SendResult)
      requires i < conns.Length && Valid({}) && Live(conns[i]) && KernelObeys(k, |data|)
      modifies conns
      ensures Valid({})
      ensures var (out, res) := AfterSend(old(conns[i]).out, data, k, modOk);
              conns[..] == old(conns[..])[i := old(conns[i]).(out := out)] && r == res
    {
      if data == [] {
        return ErrParam;
      }
      if |data| > SEND_BUF_SIZE {
        return ErrFull;
      }
      ghost var before := conns[..];
      var o := conns[i].out;
      var buf := data + o.buf[|data|..];
      var out: OutBuf;
      if k.Accept? && k.n >= |data| {
        out, r := OutBuf(buf, 0, 0, o.armed), SendOk;
      } else if k.Accept? && modOk {
        out, r := OutBuf(buf, |data|, k.n, true), SendOk;
      } else {
        out, r := OutBuf(buf, 0, 0, o.armed), ErrParam;
      }
      TouchOne(before, i, conns[i].(out := out));
      conns[i] := conns[i].(out := out);
      assert conns[..] == before[i := conns[i]];
    }

    /** default_on_write; a send error removes the connection. */
    method DefaultOnWrite(i: nat, k: KernelSend, modOk: bool)
      requires i < conns.Length && Valid({}) && KernelObeys(k, conns[i].out.len - conns[i].out.offset)
      modifies this`activeCount, this`openFds, this`closed, conns
      ensures Valid({}) && conns[..] == old(conns[..])[i := AfterWrite(old(conns[i]), k, modOk)]
      ensures if AfterWritable(old(conns[i]).out, k, modOk).1 then
                && Live(old(conns[i])) && activeCount == old(activeCount) - 1
                && closed == old(closed) + [old(conns[i]).fd]
              else unchanged(this)
    {
      ghost var before := conns[..];
      var (out, failed) := AfterWritable(conns[i].out, k, modOk);
      TouchOne(before, i, conns[i].(out := out));
      conns[i] := conns[i].(out := out);
      assert conns[..] == before[i := conns[i]];
      if failed {
        DefaultOnError(i);
      }
    }

    /** handle_client_event with the default callbacks, for an event on any slot, also a
        stale one on a slot that an earlier event of the same batch has freed.  Whatever
        the event does, it does to this slot alone. */
    method HandleClientEvent(i: nat, ev: Events, k: KernelSend, modOk: bool, end: ReadEnd, now: int)
      requires i < conns.Length && Valid({})
      requires KernelObeys(k, conns[i].out.len - conns[i].out.offset)
      modifies this`activeCount, this`openFds, this`closed, conns
      ensures Valid({})
      ensures conns[..] == old(conns[..])[i := AfterEvent(old(conns[i]), ev, k, modOk, end, now, hasOnClose)]
      ensures !Live(old(conns[i])) ==> !Live(conns[i]) && activeCount == old(activeCount) && closed == old(closed)
      ensures Live(old(conns[i])) ==>
                if Live(conns[i]) then activeCount == old(activeCount) && closed == old(closed)
                else activeCount == old(activeCount) - 1 && closed == old(closed) + [old(conns[i]).fd]
    {
      if !conns[i].state.Active? {
        return;
      }
      ghost var before := conns[..];
      TouchOne(before, i, conns[i].(lastActive := now));
      conns[i] := conns[i].(lastActive := now);
      assert conns[..] == before[i := conns[i]];
      Serve(i, ev, k, modOk, end);
    }

    /** handle_client_event once the slot is known to be active and has been touched. */
    method Serve(i: nat, ev: Events, k: KernelSend, modOk: bool, end: ReadEnd)
      requires i < conns.Length && Valid({})
      requires KernelObeys(k, conns[i].out.len - conns[i].out.offset)
      modifies this`activeCount, this`openFds, this`closed, conns
      ensures Valid({})
      ensures conns[..] == old(conns[..])[i := AfterServed(old(conns[i]), ev, k, modOk, end, hasOnClose)]
      ensures !Live(old(conns[i])) ==> !Live(conns[i]) && activeCount == old(activeCount) && closed == old(closed)
      ensures Live(old(conns[i])) ==>
                if Live(conns[i]) then activeCount == old(activeCount) && closed == old(closed)
                else activeCount == old(activeCount) - 1 && closed == old(closed) + [old(conns[i]).fd]
    {
      if ev.error {
        DefaultOnError(i);
        return;
      }
      if ev.hangup && hasOnClose {
        OnClose(i);
        return;
      }
      ServeIo(i, ev, k, modOk, end);
    }

    /** The last part of handle_client_event: writing, then reading. */
    method ServeIo(i: nat, ev: Events, k: KernelSend, modOk: bool, end: ReadEnd)
      requires i < conns.Length && Valid({})
      requires KernelObeys(k, conns[i].out.len - conns[i].out.offset)
      modifies this`activeCount, this`openFds, this`closed, conns
      ensures Valid({})
      ensures var w := if ev.writable then AfterWrite(old(conns[i]), k, modOk) else old(conns[i]);
              conns[..] == old(conns[..])[i := if ev.readable then AfterRead(w, end, hasOnClose) else w]
      ensures !Live(old(conns[i])) ==> !Live(conns[i]) && activeCount == old(activeCount) && closed == old(closed)
      ensures Live(old(conns[i])) ==>
                if Live(conns[i]) then activeCount == old(activeCount) && closed == old(closed)
                else activeCount == old(activeCount) - 1 && closed == old(closed) + [old(conns[i]).fd]
    {
      if ev.writable {
        DefaultOnWrite(i, k, modOk);
      }
      if ev.readable && !conns[i].ctype.UdpSip? && !conns[i].ctype.UdpRtp? {
        match end
        case Drained =>
        case Closed => OnClose(i);
        case ReadError => DefaultOnError(i);
      }
    }
  }
}
