/** Whole runs of the event loop (src/event_loop.c:138-204): batches of epoll events, also
    stale ones, idle clean-ups, and sends, registrations and removals by the program, in
    any order.  A ghost tap on each slot records the byte stream of the connection that
    lives there. */
module LoopRun {
  import opened Options
  import opened Counting
  import opened SendBuffer
  import opened ConnectionTable
  import opened EventLoop

  /** One event of a batch with the answers that the kernel will give, a send, a socket
      opened and registered, a removal, or the clean-up at the end of a batch. */
  datatype Act =
    | Ready(now: int, i: nat, ev: Events, incoming: seq<Incoming>, kernel: KernelSend, modOk: bool, end: ReadEnd)
    | SendTo(i: nat, data: seq<char>, kernel: KernelSend, modOk: bool)
    | Register(now: int, ctype: ConnType, epollOk: bool)
    | Drop(i: nat)
    | Sweep(now: int)

  /** An act on a slot of a table of n, or on none. */
  predicate Possible(act: Act, n: nat) {
    (act.Ready? || act.SendTo? || act.Drop? ==> act.i < n) && (act.Register? ==> !act.ctype.Free?)
  }

  /** The kernel never takes more than it is offered. */
  function Clip(k: KernelSend, room: nat): (r: KernelSend)
    ensures KernelObeys(r, room) && (KernelObeys(k, room) ==> r == k)
  {
    if k.Accept? && k.n > room then Accept(room) else k
  }

  function Room(o: OutBuf): nat { if o.offset <= o.len then o.len - o.offset else 0 }

  /** The stream of a connection, and the messages given to el_send_data for it. */
  datatype Tap = Tap(stream: Stream, offered: seq<seq<char>>)

  function NewTap(): Tap { Tap(Stream(Empty(), [], []), []) }

  /** The tap tells the truth: the bytes on the wire are one prefix of each message that
      was offered, in order, and the slot's buffer holds what is pending. */
  ghost predicate Tapped(c: Conn, t: Tap) {
    StreamInv(t.stream) && t.stream.out == c.out && Messages(t.stream.log) == t.offered
  }

  ghost predicate AllTapped(conns: seq<Conn>, taps: seq<Tap>) {
    |taps| == |conns| && forall i :: 0 <= i < |conns| && Live(conns[i]) ==> Tapped(conns[i], taps[i])
  }

  /** What an act does to the stream of a slot as it stands before the act. */
  function StreamOp(act: Act, j: nat, c: Conn, hasOnClose: bool): Option<Op> {
    if act.Ready? && act.i == j && !c.ctype.TcpListen? && GetsToWrite(c, act.ev, hasOnClose) then
      Some(Writable(Clip(act.kernel, Room(c.out)), act.modOk))
    else if act.SendTo? && act.i == j then Some(Send(act.data, Clip(act.kernel, |act.data|), act.modOk))
    else None
  }

  /** A connection that is there before and after the act goes on with its stream; a slot
      that changes hands starts a new one. */
  ghost function NextTap(before: Conn, after: Conn, t: Tap, op: Option<Op>): Tap
    requires Live(before) ==> Tapped(before, t)
    requires op.Some? && Live(before) ==> OpEnabled(Stream(before.out, [], []), op.value)
  {
    if !Live(before) || !Live(after) then NewTap()
    else
      match op
      case None => t
      case Some(o) => Tap(Step(t.stream, o), t.offered + OfferedBy(o))
  }

  lemma TapGoesOn(before: Conn, after: Conn, t: Tap, o: Op)
    requires Live(before) && Live(after) && Tapped(before, t) && OpEnabled(Stream(before.out, [], []), o)
    requires after.out == (match o case Send(data, k, modOk) => AfterSend(before.out, data, k, modOk).0
                                   case Writable(k, modOk) => AfterWritable(before.out, k, modOk).0)
    ensures Tapped(after, NextTap(before, after, t, Some(o)))
  {
    StreamStep(t.stream, o);
    StepOut(t.stream, o);
  }

  lemma StepOut(s: Stream, o: Op)
    requires StreamInv(s) && OpEnabled(s, o)
    ensures Step(s, o).out == (match o case Send(data, k, modOk) => AfterSend(s.out, data, k, modOk).0
                                       case Writable(k, modOk) => AfterWritable(s.out, k, modOk).0)
  {
  }

  /** A connection that survives an event has had its writing done, if the event got so far. */
  lemma SurvivorOut(c: Conn, ev: Events, k: KernelSend, modOk: bool, end: ReadEnd, now: int, hasOnClose: bool)
    requires Live(c) && Live(AfterEvent(c, ev, k, modOk, end, now, hasOnClose))
    ensures var after := AfterEvent(c, ev, k, modOk, end, now, hasOnClose);
            after.out == if GetsToWrite(c, ev, hasOnClose) then AfterWritable(c.out, k, modOk).0 else c.out
  {
  }

  lemma StayTapped(before: Conn, after: Conn, t: Tap)
    requires Live(before) ==> Tapped(before, t)
    requires Live(after) ==> if Live(before) then after.out == before.out else after.out == Empty()
    ensures Live(after) ==> Tapped(after, NextTap(before, after, t, None))
  {
    assert Prefixes([]) == [] && Messages([]) == [];
  }

  lemma ActEnabled(o: OutBuf, act: Act)
    requires BufInv(o)
    ensures act.SendTo? ==> OpEnabled(Stream(o, [], []), Send(act.data, Clip(act.kernel, |act.data|), act.modOk))
    ensures act.Ready? ==> OpEnabled(Stream(o, [], []), Writable(Clip(act.kernel, Room(o)), act.modOk))
  {
  }

  ghost predicate BuffersSound(conns: seq<Conn>) { forall j :: 0 <= j < |conns| ==> BufInv(conns[j].out) }

  ghost function NextOf(before: Conn, after: Conn, t: Tap, act: Act, j: nat, hasOnClose: bool): Tap
    requires BufInv(before.out) && (Live(before) ==> Tapped(before, t))
  {
    ActEnabled(before.out, act);
    NextTap(before, after, t, StreamOp(act, j, before, hasOnClose))
  }

  /** The taps after an act that took the table from `before` to `after`. */
  ghost function NextTaps(before: seq<Conn>, after: seq<Conn>, taps: seq<Tap>, act: Act, hasOnClose: bool)
    : (r: seq<Tap>)
    requires |after| == |before| && AllTapped(before, taps) && BuffersSound(before)
    ensures |r| == |before|
    ensures forall j :: 0 <= j < |before| ==> r[j] == NextOf(before[j], after[j], taps[j], act, j, hasOnClose)
  {
    seq(|before|, j requires 0 <= j < |before| => NextOf(before[j], after[j], taps[j], act, j, hasOnClose))
  }

  /** What an act may make of a slot, as far as its stream is concerned. */
  ghost predicate Follows(before: Conn, after: Conn, act: Act, j: nat, hasOnClose: bool) {
    Live(after) ==>
      after.out == if !Live(before) then Empty()
                   else match StreamOp(act, j, before, hasOnClose)
                        case None => before.out
                        case Some(Send(data, k, modOk)) => AfterSendOut(before.out, data, k, modOk)
                        case Some(Writable(k, modOk)) => AfterWritable(before.out, k, modOk).0
  }

  function AfterSendOut(o: OutBuf, data: seq<char>, k: KernelSend, modOk: bool): OutBuf {
    if |o.buf| == SEND_BUF_SIZE then AfterSend(o, data, k, modOk).0 else o
  }

  lemma SlotTapped(before: Conn, after: Conn, t: Tap, act: Act, j: nat, hasOnClose: bool)
    requires BufInv(before.out) && (Live(before) ==> Tapped(before, t))
    requires Follows(before, after, act, j, hasOnClose)
    ensures Live(after) ==> Tapped(after, NextOf(before, after, t, act, j, hasOnClose))
  {
    ActEnabled(before.out, act);
    var op := StreamOp(act, j, before, hasOnClose);
    if Live(after) {
      if Live(before) && op.Some? {
        TapGoesOn(before, after, t, op.value);
      } else {
        StayTapped(before, after, t);
        assert NextOf(before, after, t, act, j, hasOnClose) == NextTap(before, after, t, None);
      }
    }
  }

  /** What an act does to the table. */
  ghost predicate ActOutcome(before: seq<Conn>, after: seq<Conn>, act: Act, hasOnClose: bool, timeout: int) {
    && |after| == |before|
    && match act
       case Ready(now, i, ev, incoming, kernel, modOk, end) =>
         && i < |before|
         && var c := before[i];
            if c.state.Active? && !c.ctype.TcpListen? then
              after == before[i := AfterEvent(c, ev, Clip(kernel, Room(c.out)), modOk, end, now, hasOnClose)]
            else if c.state.Active? && ev.readable then
              && Count(after, Live) == Count(before, Live) + Smaller(|before| - Count(before, Live), Welcome(incoming))
              && forall j :: 0 <= j < |before| ==>
                   if Live(before[j]) then after[j] == before[j] else Live(after[j]) ==> Newborn(after[j], now)
            else after == before
       case SendTo(i, data, kernel, modOk) =>
         && i < |before| && BufInv(before[i].out)
         && after == before[i := if Live(before[i]) then AfterSendOn(before[i], data, kernel, modOk) else before[i]]
       case Register(now, ctype, epollOk) =>
         && Count(after, Live)
            == Count(before, Live) + (if epollOk && Count(before, Live) < |before| then 1 else 0)
         && forall j :: 0 <= j < |before| ==>
           if Live(before[j]) then after[j] == before[j] else Live(after[j]) ==> Registered(after[j], ctype, now)
       case Drop(i) => i < |before| && after == before[i := if Live(before[i]) then Freed(before[i]) else before[i]]
       case Sweep(now) => after == Swept(before, ExpiredAt(now, timeout), |before|)
  }

  predicate Registered(c: Conn, ctype: ConnType, now: int) {
    c.ctype == ctype && c.state.Active? && c.createTime == now == c.lastActive && c.out == Empty()
  }

  function AfterSendOn(c: Conn, data: seq<char>, kernel: KernelSend, modOk: bool): Conn {
    c.(out := AfterSendOut(c.out, data, Clip(kernel, |data|), modOk))
  }

  lemma ActFollows(before: seq<Conn>, after: seq<Conn>, act: Act, j: nat, hasOnClose: bool, timeout: int)
    requires j < |before| && ActOutcome(before, after, act, hasOnClose, timeout)
    ensures Follows(before[j], after[j], act, j, hasOnClose)
  {
    if act.Ready? && act.i == j && before[j].state.Active? && !before[j].ctype.TcpListen? {
      var c := before[j];
      if Live(c) && Live(after[j]) {
        SurvivorOut(c, act.ev, Clip(act.kernel, Room(c.out)), act.modOk, act.end, act.now, hasOnClose);
      }
    }
  }

  method HandleReady(el: EventLoop, act: Act)
    requires act.Ready? && act.i < el.conns.Length && el.Valid({})
    modifies el`activeCount, el`openFds, el`closed, el.conns
    ensures el.Valid({})
    ensures ActOutcome(old(el.conns[..]), el.conns[..], act, el.hasOnClose, el.idleTimeout)
  {
    var i := act.i;
    if !el.conns[i].state.Active? {
      return;
    }
    if el.conns[i].ctype.TcpListen? {
      if act.ev.readable {
        var registered := el.HandleAccept(act.incoming, act.now);
      }
    } else {
      assert BufInv(el.conns[..][i].out);
      el.HandleClientEvent(i, act.ev, Clip(act.kernel, Room(el.conns[i].out)), act.modOk, act.end, act.now);
    }
  }

  /** The program opens a socket and registers it; a socket refused is closed again. */
  method OpenAndRegister(el: EventLoop, act: Act)
    requires act.Register? && !act.ctype.Free? && el.Valid({})
    modifies el`activeCount, el`openFds, el`closed, el.conns
    ensures el.Valid({})
    ensures ActOutcome(old(el.conns[..]), el.conns[..], act, el.hasOnClose, el.idleTimeout)
  {
    ghost var unused := SomeUnusedFd(el.openFds);
    var fd: int :| fd >= 0 && fd !in el.openFds;
    el.openFds := el.openFds + {fd};
    var r := el.AddConnection(fd, act.ctype, act.epollOk, act.now);
    if r.None? {
      el.CloseSocket(fd);
    }
  }

  method HandleAct(el: EventLoop, act: Act)
    requires el.Valid({}) && Possible(act, el.conns.Length)
    modifies el`activeCount, el`openFds, el`closed, el.conns
    ensures el.Valid({})
    ensures ActOutcome(old(el.conns[..]), el.conns[..], act, el.hasOnClose, el.idleTimeout)
  {
    if act.Ready? {
      HandleReady(el, act);
    } else if act.SendTo? {
      assert BufInv(el.conns[..][act.i].out);
      if !el.conns[act.i].ctype.Free? {
        var result := el.SendData(act.i, act.data, Clip(act.kernel, |act.data|), act.modOk);
      }
    } else if act.Register? {
      OpenAndRegister(el, act);
    } else if act.Drop? {
      el.RemoveConnection(act.i, {});
    } else {
      el.CleanupIdle(act.now);
    }
  }

  /** A record of a run: the table and the taps before each act and after the last. */
  datatype Moment = Moment(conns: seq<Conn>, taps: seq<Tap>)

  ghost predicate Sound(m: Moment) { BuffersSound(m.conns) && AllTapped(m.conns, m.taps) }

  lemma MomentFollows(m: Moment, after: seq<Conn>, act: Act, hasOnClose: bool, timeout: int)
    requires Sound(m) && BuffersSound(after) && ActOutcome(m.conns, after, act, hasOnClose, timeout)
    ensures Sound(Moment(after, NextTaps(m.conns, after, m.taps, act, hasOnClose)))
  {
    var next := NextTaps(m.conns, after, m.taps, act, hasOnClose);
    forall j | 0 <= j < |after|
      ensures Live(after[j]) ==> Tapped(after[j], next[j])
    {
      ActFollows(m.conns, after, act, j, hasOnClose, timeout);
      SlotTapped(m.conns[j], after[j], m.taps[j], act, j, hasOnClose);
    }
  }

  ghost predicate MomentStep(m: Moment, n: Moment, act: Act, hasOnClose: bool, timeout: int) {
    && Sound(m) && ActOutcome(m.conns, n.conns, act, hasOnClose, timeout)
    && n.taps == NextTaps(m.conns, n.conns, m.taps, act, hasOnClose)
  }

  ghost predicate Recorded(record: seq<Moment>, acts: seq<Act>, hasOnClose: bool, timeout: int) {
    && |record| == |acts| + 1
    && (forall k :: 0 <= k < |record| ==> Sound(record[k]))
    && (forall k :: 0 <= k < |acts| ==> MomentStep(record[k], record[k + 1], acts[k], hasOnClose, timeout))
  }

  lemma RecordNext(record: seq<Moment>, acts: seq<Act>, next: Moment, act: Act, hasOnClose: bool, timeout: int)
    requires Recorded(record, acts, hasOnClose, timeout) && BuffersSound(next.conns)
    requires MomentStep(record[|acts|], next, act, hasOnClose, timeout)
    ensures Recorded(record + [next], acts + [act], hasOnClose, timeout)
  {
    MomentFollows(record[|acts|], next.conns, act, hasOnClose, timeout);
    assert Sound(next);
  }

  /** The record after one more act, which left the table `after`. */
  lemma Recording(record: seq<Moment>, acts: seq<Act>, after: seq<Conn>, act: Act, hasOnClose: bool, timeout: int)
    returns (longer: seq<Moment>)
    requires Recorded(record, acts, hasOnClose, timeout) && BuffersSound(after)
    requires ActOutcome(record[|acts|].conns, after, act, hasOnClose, timeout)
    ensures |longer| == |record| + 1 && longer[..|record|] == record && longer[|record|].conns == after
    ensures Recorded(longer, acts + [act], hasOnClose, timeout)
  {
    var m := record[|acts|];
    var next := Moment(after, NextTaps(m.conns, after, m.taps, act, hasOnClose));
    RecordNext(record, acts, next, act, hasOnClose, timeout);
    longer := record + [next];
  }

  /** Any number of batches, clean-ups and acts of the program: at every moment the table is sound, every
      open socket belongs to exactly one live slot, and on every live connection the wire
      carries one prefix of each message given to it since it was accepted, in order,
      a short one only if it was replaced, failed, or is pending with EPOLLOUT armed. */
  method RunLoop(el: EventLoop, acts: seq<Act>, ghost taps: seq<Tap>) returns (ghost record: seq<Moment>)
    requires el.Valid({}) && AllTapped(el.conns[..], taps)
    requires forall k :: 0 <= k < |acts| ==> Possible(acts[k], el.conns.Length)
    modifies el`activeCount, el`openFds, el`closed, el.conns
    ensures el.Valid({}) && Recorded(record, acts, el.hasOnClose, el.idleTimeout)
    ensures record[0] == Moment(old(el.conns[..]), taps) && record[|acts|].conns == el.conns[..]
  {
    record := [Moment(el.conns[..], taps)];
    assert acts[..0] == [];
    for n := 0 to |acts|
      invariant el.Valid({}) && Recorded(record, acts[..n], el.hasOnClose, el.idleTimeout)
      invariant record[0] == Moment(old(el.conns[..]), taps) && record[n].conns == el.conns[..]
    {
      HandleAct(el, acts[n]);
      record := Recording(record, acts[..n], el.conns[..], acts[n], el.hasOnClose, el.idleTimeout);
      assert acts[..n + 1] == acts[..n] + [acts[n]];
    }
    assert acts[..|acts|] == acts;
  }
}
