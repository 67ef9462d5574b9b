/** The send buffer of a TCP connection (src/event_loop.c:339-398, 638-686): one message
    at a time, written as far as the kernel takes it, the rest resumed on EPOLLOUT. */
module SendBuffer {

  const SEND_BUF_SIZE := 65536

  /** `armed` is EPOLLOUT in the kernel's interest set for the descriptor. */
  datatype OutBuf = OutBuf(buf: seq<char>, len: nat, offset: nat, armed: bool)

  /** What send() answers: the bytes it took (0 for EAGAIN and EINTR), or an error. */
  datatype KernelSend = Accept(n: nat) | Error

  datatype SendResult = SendOk | ErrFull | ErrParam

  /** A zeroed buffer. */
  function Empty(): (o: OutBuf)
    ensures BufInv(o) && o.len == 0 && !o.armed
  {
    OutBuf(seq(SEND_BUF_SIZE, (i: nat) => 0 as char), 0, 0, false)
  }

  predicate BufInv(o: OutBuf) {
    && |o.buf| == SEND_BUF_SIZE
    && 0 <= o.offset <= o.len <= SEND_BUF_SIZE
    && (o.len > 0 ==> o.offset < o.len && o.armed)
  }

  predicate KernelObeys(k: KernelSend, len: nat) { k.Accept? ==> k.n <= len }

  /** el_send_data.  A message still pending is overwritten. */
  function AfterSend(o: OutBuf, data: seq<char>, k: KernelSend, modOk: bool): (OutBuf, SendResult)
    requires |o.buf| == SEND_BUF_SIZE
  {
    if data == [] then (o, ErrParam)
    else if |data| > SEND_BUF_SIZE then (o, ErrFull)
    else
      var buf := data + o.buf[|data|..];
      if k.Accept? && k.n >= |data| then (OutBuf(buf, 0, 0, o.armed), SendOk)
      else if k.Accept? && modOk then (OutBuf(buf, |data|, k.n, true), SendOk)
      else (OutBuf(buf, 0, 0, o.armed), ErrParam)
  }

  /** default_on_write; the flag tells whether it goes on to report an error. */
  function AfterWritable(o: OutBuf, k: KernelSend, modOk: bool): (OutBuf, bool) {
    if o.len <= 0 || o.offset >= o.len then (OutBuf(o.buf, 0, 0, o.armed && !modOk), false)
    else if k.Error? then (OutBuf(o.buf, 0, 0, o.armed), true)
    else if o.offset + k.n >= o.len then (OutBuf(o.buf, 0, 0, o.armed && !modOk), false)
    else (o.(offset := o.offset + k.n), false)
  }

  /** Success means that the kernel took everything, or part of it with EPOLLOUT armed for
      the rest; "full" that the message does not fit the buffer of 65536 bytes. */
  lemma SendOutcome(o: OutBuf, data: seq<char>, k: KernelSend, modOk: bool)
    requires BufInv(o) && KernelObeys(k, |data|)
    ensures var (out, r) := AfterSend(o, data, k, modOk);
            && (r == ErrFull <==> |data| > 65536)
            && (r == SendOk <==> 1 <= |data| <= 65536 && k.Accept? && (k.n == |data| || modOk))
            && (r == SendOk && k.n < |data| ==> out.armed && out.len == |data| && out.offset == k.n)
            && (1 <= |data| <= 65536 && !(r == SendOk && k.n < |data|) ==> out.len == 0 && out.offset == 0)
            && (|data| == 0 || |data| > 65536 ==> out == o)
  {
  }

  /** A writable event fails only for pending bytes that the kernel refuses, moves on by
      what it takes, and disarms EPOLLOUT once nothing is pending. */
  lemma WritableOutcome(o: OutBuf, k: KernelSend, modOk: bool)
    requires BufInv(o) && KernelObeys(k, o.len - o.offset)
    ensures var (out, failed) := AfterWritable(o, k, modOk);
            && (failed <==> o.len > 0 && k.Error?)
            && (o.len == 0 || (k.Accept? && o.offset + k.n == o.len) ==>
                  out.len == 0 && out.offset == 0 && (modOk ==> !out.armed) && (!modOk ==> out.armed == o.armed))
            && (o.len > 0 && k.Accept? && o.offset + k.n < o.len ==>
                  out == OutBuf(o.buf, o.len, o.offset + k.n, true))
            && (failed ==> out.len == 0 && out.armed == o.armed)
  {
  }

  // ---------------------------------------------------------------- the byte stream

  datatype Op = Send(data: seq<char>, kernel: KernelSend, modOk: bool) | Writable(kernel: KernelSend, modOk: bool)

  datatype Fate = Complete | Pending | Replaced | Failed

  /** One accepted message and how much of it reached the kernel. */
  datatype Entry = Entry(msg: seq<char>, sent: nat, fate: Fate)

  /** `wire` is what the kernel has taken, read from the buffer that was handed to it. */
  datatype Stream = Stream(out: OutBuf, wire: seq<char>, log: seq<Entry>)

  predicate OpEnabled(s: Stream, op: Op) {
    && BufInv(s.out)
    && match op
       case Send(data, k, _) => KernelObeys(k, |data|)
       case Writable(k, _) => KernelObeys(k, s.out.len - s.out.offset)
  }

  function Supersede(log: seq<Entry>): seq<Entry> {
    if log != [] && log[|log| - 1].fate.Pending? then log[|log| - 1 := log[|log| - 1].(fate := Replaced)] else log
  }

  function Fated(log: seq<Entry>, e: Entry): seq<Entry>
    requires log != []
  {
    log[|log| - 1 := e]
  }

  function Step(s: Stream, op: Op): Stream
    requires OpEnabled(s, op)
  {
    match op
    case Send(data, k, modOk) =>
      var out := AfterSend(s.out, data, k, modOk).0;
      if data == [] || |data| > SEND_BUF_SIZE then s
      else
        var n := if k.Accept? then k.n else 0;
        var fate := if k.Error? then Failed else if n == |data| then Complete else if modOk then Pending else Failed;
        Stream(out, s.wire + out.buf[..n], Supersede(s.log) + [Entry(data, n, fate)])
    case Writable(k, modOk) =>
      var out := AfterWritable(s.out, k, modOk).0;
      if s.out.len == 0 || s.log == [] then s.(out := out)
      else
        var last := s.log[|s.log| - 1];
        var n := if k.Accept? then k.n else 0;
        var fate := if k.Error? then Failed else if last.sent + n == |last.msg| then Complete else Pending;
        Stream(out, s.wire + s.out.buf[s.out.offset..s.out.offset + n],
               Fated(s.log, last.(sent := last.sent + n, fate := fate)))
  }

  /** The kernel may take any part of what it is offered, or fail. */
  lemma AnyAnswer(s: Stream, data: seq<char>, k: KernelSend, modOk: bool)
    requires BufInv(s.out)
    ensures k.Error? || k.n <= |data| ==> OpEnabled(s, Send(data, k, modOk))
    ensures k.Error? || k.n <= s.out.len - s.out.offset ==> OpEnabled(s, Writable(k, modOk))
  {
  }

  /** A message's fate is what el_send_data answers: success when it is complete or pending,
      an error when it failed; the one it replaces, if any, is marked as replaced. */
  lemma SendFate(s: Stream, data: seq<char>, k: KernelSend, modOk: bool)
    requires OpEnabled(s, Send(data, k, modOk)) && 1 <= |data| <= 65536
    ensures var log, r := Step(s, Send(data, k, modOk)).log, AfterSend(s.out, data, k, modOk).1;
            && |log| == |s.log| + 1
            && log[|s.log|].msg == data && log[|s.log|].sent == (if k.Accept? then k.n else 0)
            && (r == SendOk <==> log[|s.log|].fate.Complete? || log[|s.log|].fate.Pending?)
            && (r == ErrParam <==> log[|s.log|].fate.Failed?)
            && (log[|s.log|].fate.Complete? <==> k.Accept? && k.n == |data|)
            && forall i :: 0 <= i < |s.log| ==>
                 log[i] == if i == |s.log| - 1 && s.log[i].fate.Pending? then s.log[i].(fate := Replaced) else s.log[i]
  {
  }

  /** Resuming a pending message completes it, leaves it pending, or fails, and fails exactly
      when default_on_write goes on to report an error. */
  lemma ResumeFate(s: Stream, k: KernelSend, modOk: bool)
    requires OpEnabled(s, Writable(k, modOk)) && s.out.len > 0 && s.log != []
    ensures var i, log := |s.log| - 1, Step(s, Writable(k, modOk)).log;
            && |log| == |s.log| && log[..i] == s.log[..i]
            && log[i].msg == s.log[i].msg && log[i].sent == s.log[i].sent + (if k.Accept? then k.n else 0)
            && (log[i].fate.Failed? <==> AfterWritable(s.out, k, modOk).1)
            && (!log[i].fate.Failed? ==>
                  if log[i].sent == |log[i].msg| then log[i].fate.Complete? else log[i].fate.Pending?)
  {
  }

  /** The concatenation of one prefix per message, in call order. */
  function Prefixes(log: seq<Entry>): seq<char>
    requires forall i :: 0 <= i < |log| ==> log[i].sent <= |log[i].msg|
  {
    if log == [] then []
    else Prefixes(log[..|log| - 1]) + log[|log| - 1].msg[..log[|log| - 1].sent]
  }

  predicate EntryOk(e: Entry) { e.sent <= |e.msg| && (e.sent == |e.msg| <==> e.fate.Complete?) }

  /** A prefix is the whole message exactly when the message is complete, and only the
      last message can be pending. */
  ghost predicate LogInv(log: seq<Entry>) {
    && (forall i :: 0 <= i < |log| ==> EntryOk(log[i]))
    && (forall i :: 0 <= i < |log| - 1 ==> !log[i].fate.Pending?)
  }

  /** The last message is pending exactly while the buffer holds it. */
  ghost predicate StreamInv(s: Stream) {
    && BufInv(s.out)
    && LogInv(s.log)
    && s.wire == Prefixes(s.log)
    && (s.out.len > 0 <==> s.log != [] && s.log[|s.log| - 1].fate.Pending?)
    && (s.out.len > 0 ==>
          var last := s.log[|s.log| - 1];
          s.out.len == |last.msg| && s.out.offset == last.sent && s.out.buf[..s.out.len] == last.msg)
  }

  lemma PrefixesAppend(log: seq<Entry>, e: Entry)
    requires e.sent <= |e.msg| && forall i :: 0 <= i < |log| ==> log[i].sent <= |log[i].msg|
    ensures Prefixes(log + [e]) == Prefixes(log) + e.msg[..e.sent]
  {
    assert (log + [e])[..|log|] == log;
  }

  lemma PrefixesLast(log: seq<Entry>, e: Entry)
    requires log != [] && e.sent <= |e.msg| && forall i :: 0 <= i < |log| ==> log[i].sent <= |log[i].msg|
    ensures Prefixes(Fated(log, e)) == Prefixes(log[..|log| - 1]) + e.msg[..e.sent]
  {
    assert Fated(log, e)[..|log| - 1] == log[..|log| - 1];
  }

  lemma SupersedeKeeps(log: seq<Entry>)
    requires LogInv(log)
    ensures var r := Supersede(log);
            && |r| == |log| && (forall i :: 0 <= i < |log| ==> r[i].msg == log[i].msg)
            && (forall i :: 0 <= i < |log| ==> EntryOk(r[i]) && !r[i].fate.Pending?)
            && Prefixes(r) == Prefixes(log)
  {
    if log != [] && log[|log| - 1].fate.Pending? {
      PrefixesLast(log, log[|log| - 1].(fate := Replaced));
    }
  }

  lemma LogSend(log: seq<Entry>, e: Entry)
    requires LogInv(log) && EntryOk(e)
    ensures var r := Supersede(log) + [e];
            LogInv(r) && Prefixes(r) == Prefixes(log) + e.msg[..e.sent] && r[|r| - 1] == e
  {
    SupersedeKeeps(log);
    PrefixesAppend(Supersede(log), e);
  }

  lemma StreamSend(s: Stream, data: seq<char>, k: KernelSend, modOk: bool)
    requires StreamInv(s) && OpEnabled(s, Send(data, k, modOk))
    ensures StreamInv(Step(s, Send(data, k, modOk)))
  {
    if data != [] && |data| <= SEND_BUF_SIZE {
      var s' := Step(s, Send(data, k, modOk));
      var e := s'.log[|s'.log| - 1];
      LogSend(s.log, e);
      assert s'.out.buf == data + s.out.buf[|data|..];
      assert s'.out.buf[..e.sent] == data[..e.sent] && s'.out.buf[..|data|] == data;
    }
  }

  lemma FatedInv(log: seq<Entry>, e: Entry)
    requires LogInv(log) && log != [] && EntryOk(e)
    ensures LogInv(Fated(log, e))
  {
  }

  lemma PrefixesSplit(log: seq<Entry>)
    requires log != [] && forall i :: 0 <= i < |log| ==> log[i].sent <= |log[i].msg|
    ensures Prefixes(log) == Prefixes(log[..|log| - 1]) + log[|log| - 1].msg[..log[|log| - 1].sent]
  {
  }

  lemma LogResume(log: seq<Entry>, e: Entry)
    requires LogInv(log) && log != [] && EntryOk(e)
    requires var last := log[|log| - 1]; e.msg == last.msg && last.sent <= e.sent
    ensures LogInv(Fated(log, e))
    ensures Prefixes(Fated(log, e)) == Prefixes(log) + e.msg[log[|log| - 1].sent..e.sent]
  {
    FatedInv(log, e);
    PrefixesLast(log, e);
    PrefixesSplit(log);
    PrefixGrows(Prefixes(log[..|log| - 1]), e.msg, log[|log| - 1].sent, e.sent);
  }

  lemma PrefixGrows(head: seq<char>, m: seq<char>, a: nat, b: nat)
    requires a <= b <= |m|
    ensures head + m[..b] == head + m[..a] + m[a..b]
  {
  }

  lemma StreamWritable(s: Stream, k: KernelSend, modOk: bool)
    requires StreamInv(s) && OpEnabled(s, Writable(k, modOk))
    ensures StreamInv(Step(s, Writable(k, modOk)))
  {
    if s.out.len > 0 {
      var last := s.log[|s.log| - 1];
      var e := Step(s, Writable(k, modOk)).log[|s.log| - 1];
      LogResume(s.log, e);
      assert s.out.buf[last.sent..e.sent] == s.out.buf[..s.out.len][last.sent..e.sent];
    }
  }

  lemma MessagesSend(log: seq<Entry>, e: Entry)
    requires LogInv(log)
    ensures Messages(Supersede(log) + [e]) == Messages(log) + [e.msg]
  {
    SupersedeKeeps(log);
  }

  lemma MessagesResume(log: seq<Entry>, e: Entry)
    requires log != [] && e.msg == log[|log| - 1].msg
    ensures Messages(Fated(log, e)) == Messages(log)
  {
  }

  lemma SendOffers(s: Stream, data: seq<char>, k: KernelSend, modOk: bool)
    requires StreamInv(s) && OpEnabled(s, Send(data, k, modOk))
    ensures Messages(Step(s, Send(data, k, modOk)).log) == Messages(s.log) + OfferedBy(Send(data, k, modOk))
  {
    if data != [] && |data| <= SEND_BUF_SIZE {
      var log := Step(s, Send(data, k, modOk)).log;
      MessagesSend(s.log, log[|log| - 1]);
    }
  }

  lemma WritableOffers(s: Stream, k: KernelSend, modOk: bool)
    requires StreamInv(s) && OpEnabled(s, Writable(k, modOk))
    ensures Messages(Step(s, Writable(k, modOk)).log) == Messages(s.log)
  {
    if s.out.len > 0 {
      MessagesResume(s.log, Step(s, Writable(k, modOk)).log[|s.log| - 1]);
    }
  }

  lemma StreamStep(s: Stream, op: Op)
    requires StreamInv(s) && OpEnabled(s, op)
    ensures StreamInv(Step(s, op)) && Messages(Step(s, op).log) == Messages(s.log) + OfferedBy(op)
  {
    if op.Send? {
      StreamSend(s, op.data, op.kernel, op.modOk);
      SendOffers(s, op.data, op.kernel, op.modOk);
    } else {
      StreamWritable(s, op.kernel, op.modOk);
      WritableOffers(s, op.kernel, op.modOk);
      assert OfferedBy(op) == [];
    }
  }

  ghost predicate Run(s: Stream, ops: seq<Op>)
    decreases |ops|
  {
    ops == [] || (OpEnabled(s, ops[0]) && Run(Step(s, ops[0]), ops[1..]))
  }

  ghost function Final(s: Stream, ops: seq<Op>): Stream
    requires Run(s, ops)
    decreases |ops|
  {
    if ops == [] then s else Final(Step(s, ops[0]), ops[1..])
  }

  /** The messages el_send_data was given and did not refuse for their size. */
  function OfferedBy(op: Op): seq<seq<char>> {
    if op.Send? && 0 < |op.data| <= SEND_BUF_SIZE then [op.data] else []
  }

  function Offered(ops: seq<Op>): seq<seq<char>> {
    if ops == [] then [] else OfferedBy(ops[0]) + Offered(ops[1..])
  }

  function Messages(log: seq<Entry>): (r: seq<seq<char>>)
    ensures |r| == |log|
  {
    seq(|log|, i requires 0 <= i < |log| => log[i].msg)
  }

  lemma Regroup(a: seq<seq<char>>, b: seq<seq<char>>, c: seq<seq<char>>)
    ensures (a + b) + c == a + (b + c)
  {
  }

  lemma {:induction false} RunKeepsStream(s: Stream, ops: seq<Op>)
    requires StreamInv(s) && Run(s, ops)
    ensures StreamInv(Final(s, ops))
    ensures Messages(Final(s, ops).log) == Messages(s.log) + Offered(ops)
    decreases |ops|
  {
    if ops != [] {
      StreamStep(s, ops[0]);
      RunKeepsStream(Step(s, ops[0]), ops[1..]);
      Regroup(Messages(s.log), OfferedBy(ops[0]), Offered(ops[1..]));
    }
  }

  /** From a fresh connection, under any partial writes, the bytes the kernel took are
      one prefix of each accepted message in call order, and a message is cut short
      only if it was replaced, failed, or is still pending with EPOLLOUT armed. */
  lemma SendStream(ops: seq<Op>)
    requires Run(Stream(Empty(), [], []), ops)
    ensures var s := Final(Stream(Empty(), [], []), ops);
            && StreamInv(s)
            && Messages(s.log) == Offered(ops)
            && s.wire == Prefixes(s.log)
            && (s.out.offset < s.out.len ==> s.out.armed)
  {
    RunKeepsStream(Stream(Empty(), [], []), ops);
  }
}
