/** The text form of queued tasks (src/db_sync.c:128-230): pack_* prints the fields with
    '|' between them into a 512-byte buffer and the worker reads them back with sscanf. */
module TaskText {
  import opened Options
  import opened CText

  const TASK_DATA_LEN := 512

  datatype Item = Text(text: string) | Number(number: int)

  /** One conversion of a format string: "%<width>[^<stop>]" or "%d". */
  datatype Conv = Field(width: nat, stop: char) | Decimal

  function Show(i: Item): string { if i.Text? then i.text else PrintInt(i.number) }

  /** The printf side: the items with a literal '|' between them. */
  function Pack(items: seq<Item>): string {
    if items == [] then ""
    else if |items| == 1 then Show(items[0])
    else Show(items[0]) + "|" + Pack(items[1..])
  }

  /** snprintf keeps one byte of the buffer for the terminator. */
  function Truncate(s: string): (r: string)
    ensures r <= s && |r| == if |s| < 512 then |s| else 511
  {
    if |s| >= TASK_DATA_LEN then s[..TASK_DATA_LEN - 1] else s
  }

  function ScanOne(s: string, c: Conv): Scan<Item> {
    match c
    case Field(width, stop) =>
      var k := IndexOf(s, stop);
      var n := if k < width then k else width;
      if n == 0 then Fail else Match(Text(s[..n]), s[n..])
    case Decimal =>
      match ScanInt(s) case Fail => Fail case Match(n, rest) => Match(Number(n), rest)
  }

  /** The scanf side: the items converted before the first conversion or '|' that does
      not match; their number is what sscanf returns. */
  function ScanAll(s: string, convs: seq<Conv>): (r: seq<Item>)
    ensures |r| <= |convs|
    decreases |convs|
  {
    if convs == [] then []
    else
      match ScanOne(s, convs[0])
      case Fail => []
      case Match(item, rest) =>
        if |convs| == 1 || rest == "" || rest[0] != '|' then [item]
        else [item] + ScanAll(rest[1..], convs[1..])
  }

  /** What a conversion can deliver. */
  predicate Fits(i: Item, c: Conv) {
    match c
    case Field(width, stop) => i.Text? && 1 <= |i.text| <= width && stop !in i.text
    case Decimal => i.Number? && IsInt(i.number)
  }

  predicate AllFit(items: seq<Item>, convs: seq<Conv>) {
    |items| == |convs| && forall i :: 0 <= i < |items| ==> Fits(items[i], convs[i])
  }

  /** All conversions but the last stop at the separator. */
  predicate Separated(convs: seq<Conv>) {
    forall i :: 0 <= i < |convs| - 1 ==> convs[i].Field? ==> convs[i].stop == '|'
  }

  lemma ScanOneFits(s: string, c: Conv)
    ensures ScanOne(s, c).Match? ==> Fits(ScanOne(s, c).value, c)
  {
    if c.Field? {
      IndexSpec(s, c.stop);
    }
  }

  /** Nothing but fitting items ever comes out of a scan. */
  lemma {:induction false} ScanAllFits(s: string, convs: seq<Conv>)
    ensures var r := ScanAll(s, convs); forall i :: 0 <= i < |r| ==> Fits(r[i], convs[i])
    decreases |convs|
  {
    if convs != [] {
      ScanOneFits(s, convs[0]);
      match ScanOne(s, convs[0])
      case Fail =>
      case Match(item, rest) =>
        if !(|convs| == 1 || rest == "" || rest[0] != '|') {
          ScanAllFits(rest[1..], convs[1..]);
        }
    }
  }

  lemma ScanOneOfShow(i: Item, c: Conv, rest: string)
    requires Fits(i, c)
    requires rest == "" || (rest[0] == '|' && (c.Field? ==> c.stop == '|'))
    ensures ScanOne(Show(i) + rest, c) == Match(i, rest)
  {
    var s := Show(i) + rest;
    match c
    case Decimal => ScanOfPrint(i.number, rest);
    case Field(width, stop) =>
      IndexIs(s, stop, |i.text|);
      assert s[..|i.text|] == i.text && s[|i.text|..] == rest;
  }

  lemma ScanAllStep(i: Item, convs: seq<Conv>, rest: string)
    requires |convs| > 1 && Fits(i, convs[0]) && Separated(convs)
    ensures ScanAll(Show(i) + "|" + rest, convs) == [i] + ScanAll(rest, convs[1..])
  {
    var tail := "|" + rest;
    assert Show(i) + "|" + rest == Show(i) + tail && tail[1..] == rest;
    ScanOneOfShow(i, convs[0], tail);
  }

  lemma ScanFirstItem(items: seq<Item>, convs: seq<Conv>)
    requires |items| == |convs| > 1 && Fits(items[0], convs[0]) && Separated(convs)
    ensures ScanAll(Pack(items), convs) == [items[0]] + ScanAll(Pack(items[1..]), convs[1..])
    ensures Separated(convs[1..])
  {
    ScanAllStep(items[0], convs, Pack(items[1..]));
  }

  lemma {:induction false} ScanAllOfPack(items: seq<Item>, convs: seq<Conv>)
    requires AllFit(items, convs) && Separated(convs)
    ensures ScanAll(Pack(items), convs) == items
    decreases |items|
  {
    if items == [] {
    } else if |items| == 1 {
      assert Show(items[0]) + "" == Show(items[0]);
      ScanOneOfShow(items[0], convs[0], "");
    } else {
      ScanFirstItem(items, convs);
      ScanAllOfPack(items[1..], convs[1..]);
    }
  }

  lemma EmptyFieldFails(items: seq<Item>, convs: seq<Conv>)
    requires |items| == |convs| > 0 && Separated(convs) && items[0] == Text("") && convs[0].Field?
    ensures ScanAll(Pack(items), convs) == []
  {
    if |items| > 1 {
      assert Pack(items)[0] == '|';
      IndexSpec(Pack(items), '|');
    }
  }

  lemma FitTail(items: seq<Item>, convs: seq<Conv>, m: nat)
    requires |items| == |convs| && 0 < m <= |items| && AllFit(items[..m], convs[..m])
    ensures Fits(items[0], convs[0]) && AllFit(items[1..][..m - 1], convs[1..][..m - 1])
    ensures items[..m] == [items[0]] + items[1..][..m - 1]
  {
    assert Fits(items[..m][0], convs[..m][0]);
    assert items[1..][..m - 1] == items[..m][1..] && convs[1..][..m - 1] == convs[..m][1..];
  }

  /** An empty field ends the scan: only the items before it are converted. */
  lemma {:induction false} ScanStopsAtEmpty(items: seq<Item>, convs: seq<Conv>, m: nat)
    requires |items| == |convs| && m < |items| && Separated(convs)
    requires AllFit(items[..m], convs[..m]) && items[m] == Text("") && convs[m].Field?
    ensures ScanAll(Pack(items), convs) == items[..m]
    decreases m
  {
    if m == 0 {
      EmptyFieldFails(items, convs);
    } else {
      FitTail(items, convs, m);
      ScanFirstItem(items, convs);
      ScanStopsAtEmpty(items[1..], convs[1..], m - 1);
    }
  }

  /** The longest text a fitting item can print, with its separator. */
  function Budget(convs: seq<Conv>): nat {
    if convs == [] then 0
    else (if convs[0].Field? then convs[0].width else 11) + 1 + Budget(convs[1..])
  }

  predicate NoWider(i: Item, c: Conv) {
    match c
    case Field(width, _) => i.Text? && |i.text| <= width
    case Decimal => i.Number? && IsInt(i.number)
  }

  lemma {:induction false} PackWithinBudget(items: seq<Item>, convs: seq<Conv>)
    requires |items| == |convs| > 0 && forall i :: 0 <= i < |items| ==> NoWider(items[i], convs[i])
    ensures |Pack(items)| < Budget(convs)
    decreases |items|
  {
    if items[0].Number? {
      PrintIntWidth(items[0].number);
    }
    if |items| > 1 {
      PackWithinBudget(items[1..], convs[1..]);
    } else {
      assert Budget(convs[1..]) == 0;
    }
  }

  /** The items are recovered from the 512-byte buffer exactly when each one fits its
      conversion; the widths alone keep such a task from being truncated. */
  lemma RoundTrip(items: seq<Item>, convs: seq<Conv>)
    requires |items| == |convs| > 0 && Separated(convs) && Budget(convs) <= TASK_DATA_LEN
    ensures ScanAll(Truncate(Pack(items)), convs) == items <==> AllFit(items, convs)
    ensures AllFit(items, convs) ==> Truncate(Pack(items)) == Pack(items)
  {
    ScanAllFits(Truncate(Pack(items)), convs);
    if AllFit(items, convs) {
      PackWithinBudget(items, convs);
      ScanAllOfPack(items, convs);
    }
  }

  // -------------------------------------------------------------------- task kinds

  datatype Task =
    | AgentStatus(ext: string, status: string, calls: int)
    | AgentOnline(ext: string, online: int)
    | CallStart(callId: string, caller: string, callee: string, direction: string,
                department: string, startTime: string)
    | CallEnd(callId: string, duration: int, sipStatus: int, resultCode: int, desc: string)
    | Shutdown

  datatype Kind = KAgentStatus | KAgentOnline | KCallStart | KCallEnd | KShutdown

  /** db_task_t without its link. */
  datatype Packed = Packed(kind: Kind, data: string)

  function KindOf(t: Task): Kind {
    match t
    case AgentStatus(_, _, _) => KAgentStatus
    case AgentOnline(_, _) => KAgentOnline
    case CallStart(_, _, _, _, _, _) => KCallStart
    case CallEnd(_, _, _, _, _) => KCallEnd
    case Shutdown => KShutdown
  }

  function Items(t: Task): seq<Item> {
    match t
    case AgentStatus(e, s, n) => [Text(e), Text(s), Number(n)]
    case AgentOnline(e, n) => [Text(e), Number(n)]
    case CallStart(i, c, d, dir, dep, at) => [Text(i), Text(c), Text(d), Text(dir), Text(dep), Text(at)]
    case CallEnd(i, dur, sip, code, desc) => [Text(i), Number(dur), Number(sip), Number(code), Text(desc)]
    case Shutdown => []
  }

  function Format(k: Kind): seq<Conv> {
    match k
    case KAgentStatus => [Field(31, '|'), Field(31, '|'), Decimal]
    case KAgentOnline => [Field(31, '|'), Decimal]
    case KCallStart =>
      [Field(255, '|'), Field(31, '|'), Field(31, '|'), Field(31, '|'), Field(63, '|'), Field(31, '\n')]
    case KCallEnd => [Field(255, '|'), Decimal, Decimal, Decimal, Field(127, '\n')]
    case KShutdown => []
  }

  function PackTask(t: Task): Packed { Packed(KindOf(t), Truncate(Pack(Items(t)))) }

  /** What the worker asks the database to do.  None stands for a stack buffer that
      sscanf has not written. */
  datatype Effect =
    | Nothing
    | SetAgent(ext: string, status: string, calls: int)
    | InsertCall(callId: string, caller: string, callee: string,
                 direction: Option<string>, department: Option<string>, startTime: Option<string>)
    | EndCall(callId: string, duration: int, sipStatus: int, resultCode: int, desc: Option<string>)

  function TextAt(r: seq<Item>, i: nat): Option<string> {
    if i < |r| && r[i].Text? then Some(r[i].text) else None
  }

  function NumberAt(r: seq<Item>, i: nat): int {
    if i < |r| && r[i].Number? then r[i].number else 0
  }

  /** The switch of db_sync_worker with its minimum numbers of conversions. */
  function EffectOf(kind: Kind, r: seq<Item>): Effect {
    match kind
    case KAgentStatus =>
      if |r| >= 2 && r[0].Text? && r[1].Text? then SetAgent(r[0].text, r[1].text, NumberAt(r, 2)) else Nothing
    case KAgentOnline =>
      if |r| >= 1 && r[0].Text? then SetAgent(r[0].text, if NumberAt(r, 1) != 0 then "idle" else "offline", 0)
      else Nothing
    case KCallStart =>
      if |r| >= 3 && r[0].Text? && r[1].Text? && r[2].Text?
      then InsertCall(r[0].text, r[1].text, r[2].text, TextAt(r, 3), TextAt(r, 4), TextAt(r, 5)) else Nothing
    case KCallEnd =>
      if |r| >= 3 && r[0].Text?
      then EndCall(r[0].text, NumberAt(r, 1), NumberAt(r, 2), NumberAt(r, 3), TextAt(r, 4)) else Nothing
    case KShutdown => Nothing
  }

  function WorkerEffect(p: Packed): Effect { EffectOf(p.kind, ScanAll(p.data, Format(p.kind))) }

  /** What the caller that queued the task meant. */
  function Intended(t: Task): Effect {
    match t
    case AgentStatus(e, s, n) => SetAgent(e, s, n)
    case AgentOnline(e, n) => SetAgent(e, if n != 0 then "idle" else "offline", 0)
    case CallStart(i, c, d, dir, dep, at) => InsertCall(i, c, d, Some(dir), Some(dep), Some(at))
    case CallEnd(i, dur, sip, code, desc) => EndCall(i, dur, sip, code, Some(desc))
    case Shutdown => Nothing
  }

  predicate FieldsFit(t: Task) { AllFit(Items(t), Format(KindOf(t))) }

  /** How many conversions each kind of task needs to have any effect. */
  lemma MinimumConversions(k: Kind, r: seq<Item>)
    requires |r| <= |Format(k)| && forall i :: 0 <= i < |r| ==> Fits(r[i], Format(k)[i])
    ensures EffectOf(k, r) == Nothing
       <==> match k
            case KAgentStatus => |r| < 2
            case KAgentOnline => |r| < 1
            case KCallStart => |r| < 3
            case KCallEnd => |r| < 3
            case KShutdown => true
  {
    assert 0 < |r| ==> Fits(r[0], Format(k)[0]);
    assert 1 < |r| ==> Fits(r[1], Format(k)[1]);
    assert 2 < |r| ==> Fits(r[2], Format(k)[2]);
  }

  lemma EffectOfItems(t: Task)
    ensures EffectOf(KindOf(t), Items(t)) == Intended(t)
  {
  }

  /** The numbers are C ints. */
  predicate IntsFit(t: Task) {
    forall i :: 0 <= i < |Items(t)| && Items(t)[i].Number? ==> IsInt(Items(t)[i].number)
  }

  lemma StatusNeedsFields(t: Task, r: seq<Item>)
    requires t.AgentStatus? || t.AgentOnline?
    requires IntsFit(t) && |r| <= |Format(KindOf(t))| && forall i :: 0 <= i < |r| ==> Fits(r[i], Format(KindOf(t))[i])
    requires EffectOf(KindOf(t), r) == Intended(t)
    ensures FieldsFit(t)
  {
    var items, f := Items(t), Format(KindOf(t));
    assert items[|items| - 1].Number?;
    assert Fits(items[0], f[0]);
    assert t.AgentStatus? ==> Fits(items[1], f[1]);
  }

  lemma CallNeedsFields(t: Task, r: seq<Item>)
    requires t.CallStart? || t.CallEnd?
    requires |r| <= |Format(KindOf(t))| && forall i :: 0 <= i < |r| ==> Fits(r[i], Format(KindOf(t))[i])
    requires EffectOf(KindOf(t), r) == Intended(t)
    ensures FieldsFit(t)
  {
    var items := Items(t);
    assert |r| == |items|;
    assert forall i :: 0 <= i < |items| ==> items[i] == r[i];
  }

  /** Every field of every kind of task comes back exactly when all fields fit, and the
      worker then, and only then, does to the database what the caller meant. */
  lemma TaskRoundTrip(t: Task)
    ensures ScanAll(PackTask(t).data, Format(KindOf(t))) == Items(t) <==> FieldsFit(t)
    ensures FieldsFit(t) ==> WorkerEffect(PackTask(t)) == Intended(t) && |Pack(Items(t))| < 512
    ensures IntsFit(t) ==> (WorkerEffect(PackTask(t)) == Intended(t) <==> FieldsFit(t))
  {
    if t.Shutdown? {
      EffectOfItems(t);
    } else {
      BudgetOf(KindOf(t));
      RoundTrip(Items(t), Format(KindOf(t)));
      if FieldsFit(t) {
        EffectOfItems(t);
        PackWithinBudget(Items(t), Format(KindOf(t)));
      } else if IntsFit(t) && WorkerEffect(PackTask(t)) == Intended(t) {
        var r := ScanAll(PackTask(t).data, Format(KindOf(t)));
        ScanAllFits(PackTask(t).data, Format(KindOf(t)));
        if t.AgentStatus? || t.AgentOnline? { StatusNeedsFields(t, r); } else { CallNeedsFields(t, r); }
      }
    }
  }

  lemma BudgetOf(k: Kind)
    ensures k != KShutdown ==> 0 < Budget(Format(k)) <= TASK_DATA_LEN
  {
    match k
    case KAgentStatus => BudgetCons(Format(k)); BudgetCons(Format(k)[1..]); BudgetCons(Format(k)[2..]);
    case KAgentOnline => BudgetCons(Format(k)); BudgetCons(Format(k)[1..]);
    case KCallStart =>
      forall i | 0 <= i < 6 { BudgetCons(Format(k)[i..]); }
      assert Budget(Format(k)[0..]) == 256 + Budget(Format(k)[1..]);
    case KCallEnd =>
      forall i | 0 <= i < 5 { BudgetCons(Format(k)[i..]); }
      assert Budget(Format(k)[0..]) == 256 + Budget(Format(k)[1..]);
    case KShutdown =>
  }

  lemma BudgetCons(convs: seq<Conv>)
    requires convs != []
    ensures Budget(convs) == (if convs[0].Field? then convs[0].width else 11) + 1 + Budget(convs[1..])
  {
  }

  predicate Plain(text: string, width: nat, stop: char) { 1 <= |text| <= width && stop !in text }

  /** The fields that come back whole, kind by kind. */
  lemma FieldsFitIff(t: Task)
    ensures FieldsFit(t) <==>
              match t
              case AgentStatus(e, st, c) => Plain(e, 31, '|') && Plain(st, 31, '|') && IsInt(c)
              case AgentOnline(e, n) => Plain(e, 31, '|') && IsInt(n)
              case CallStart(i, c, d, dir, dep, at) =>
                && Plain(i, 255, '|') && Plain(c, 31, '|') && Plain(d, 31, '|') && Plain(dir, 31, '|')
                && Plain(dep, 63, '|') && Plain(at, 31, '\n')
              case CallEnd(i, dur, sip, code, desc) =>
                Plain(i, 255, '|') && IsInt(dur) && IsInt(sip) && IsInt(code) && Plain(desc, 127, '\n')
              case Shutdown => true
  {
    var items, f := Items(t), Format(KindOf(t));
    if t.AgentStatus? {
      assert FieldsFit(t) <==> Fits(items[0], f[0]) && Fits(items[1], f[1]) && Fits(items[2], f[2]);
    } else if t.AgentOnline? {
      assert FieldsFit(t) <==> Fits(items[0], f[0]) && Fits(items[1], f[1]);
    } else if t.CallStart? {
      assert FieldsFit(t) <==> Fits(items[0], f[0]) && Fits(items[1], f[1]) && Fits(items[2], f[2])
                               && Fits(items[3], f[3]) && Fits(items[4], f[4]) && Fits(items[5], f[5]);
    } else if t.CallEnd? {
      assert FieldsFit(t) <==> Fits(items[0], f[0]) && Fits(items[1], f[1]) && Fits(items[2], f[2])
                               && Fits(items[3], f[3]) && Fits(items[4], f[4]);
    }
  }

  /** The text of each kind of task. */
  lemma PackedText(t: Task)
    ensures Pack(Items(t)) ==
              match t
              case AgentStatus(e, st, c) => e + "|" + (st + "|" + PrintInt(c))
              case AgentOnline(e, n) => e + "|" + PrintInt(n)
              case CallStart(i, c, d, dir, dep, at) =>
                i + "|" + (c + "|" + (d + "|" + (dir + "|" + (dep + "|" + at))))
              case CallEnd(i, dur, sip, code, desc) =>
                i + "|" + (PrintInt(dur) + "|" + (PrintInt(sip) + "|" + (PrintInt(code) + "|" + desc)))
              case Shutdown => ""
  {
    var items := Items(t);
    if t.AgentStatus? {
      PackThree(items[0], items[1], items[2]);
    } else if t.AgentOnline? {
      assert items[1..] == [Number(t.online)];
    } else if t.CallStart? {
      PackSix(items[0], items[1], items[2], items[3], items[4], items[5]);
    } else if t.CallEnd? {
      PackFive(items[0], items[1], items[2], items[3], items[4]);
    }
  }

  lemma PackThree(a: Item, b: Item, c: Item)
    ensures Pack([a, b, c]) == Show(a) + "|" + (Show(b) + "|" + Show(c))
  {
    assert [a, b, c][1..] == [b, c];
    assert [b, c][1..] == [c];
    PackCons([a, b, c]);
    PackCons([b, c]);
  }

  lemma PackFive(a: Item, b: Item, c: Item, d: Item, e: Item)
    ensures Pack([a, b, c, d, e]) == Show(a) + "|" + (Show(b) + "|" + (Show(c) + "|" + (Show(d) + "|" + Show(e))))
  {
    assert [a, b, c, d, e][1..] == [b, c, d, e];
    assert [b, c, d, e][1..] == [c, d, e];
    PackCons([a, b, c, d, e]);
    PackCons([b, c, d, e]);
    PackThree(c, d, e);
  }

  lemma PackSix(a: Item, b: Item, c: Item, d: Item, e: Item, f: Item)
    ensures Pack([a, b, c, d, e, f])
         == Show(a) + "|" + (Show(b) + "|" + (Show(c) + "|" + (Show(d) + "|" + (Show(e) + "|" + Show(f)))))
  {
    assert [a, b, c, d, e, f][1..] == [b, c, d, e, f];
    PackCons([a, b, c, d, e, f]);
    PackFive(b, c, d, e, f);
  }

  lemma PackCons(items: seq<Item>)
    requires items != []
    ensures Pack(items) == if |items| == 1 then Show(items[0]) else Show(items[0]) + "|" + Pack(items[1..])
  {
  }

  /** A field that is too long is cut and ends the scan. */
  lemma ScanStopsAtLong(text: string, width: nat, convs: seq<Conv>)
    requires convs != [] && convs[0] == Field(width, '|') && width > 0
    requires |text| > width && forall i :: 0 <= i <= width ==> text[i] != '|'
    ensures ScanAll(text, convs) == [Text(text[..width])]
  {
    IndexSpec(text, '|');
  }

  lemma LongStatusText(ext: string, status: string, calls: int) returns (rest: string)
    requires Plain(ext, 31, '|') && |status| > 31 && '|' !in status
    ensures PackTask(AgentStatus(ext, status, calls)).data == ext + "|" + rest
    ensures |rest| > 31 && rest[..31] == status[..31] && forall i :: 0 <= i <= 31 ==> rest[i] != '|'
  {
    PackedText(AgentStatus(ext, status, calls));
    var data := PackTask(AgentStatus(ext, status, calls)).data;
    rest := data[|ext| + 1..];
    assert data == ext + "|" + rest;
    assert forall i :: 0 <= i <= 31 ==> rest[i] == status[i];
  }

  /** A status of more than 31 characters reaches the database cut to 31, with no calls. */
  lemma LongStatusIsCut(ext: string, status: string, calls: int)
    requires Plain(ext, 31, '|') && |status| > 31 && '|' !in status
    ensures WorkerEffect(PackTask(AgentStatus(ext, status, calls))) == SetAgent(ext, status[..31], 0)
  {
    var rest := LongStatusText(ext, status, calls);
    var f := Format(KAgentStatus);
    ScanAllStep(Text(ext), f, rest);
    ScanStopsAtLong(rest, 31, f[1..]);
  }

  /** An extension of more than 31 characters sets another agent, named by its first 31,
      offline, whatever was asked. */
  lemma LongExtensionGoesOffline(ext: string, online: int)
    requires |ext| > 31 && '|' !in ext
    ensures WorkerEffect(PackTask(AgentOnline(ext, online))) == SetAgent(ext[..31], "offline", 0)
  {
    var t := AgentOnline(ext, online);
    PackedText(t);
    var data := PackTask(t).data;
    assert forall i :: 0 <= i <= 31 ==> data[i] == ext[i];
    assert data[..31] == ext[..31];
    ScanStopsAtLong(data, 31, Format(KAgentOnline));
  }

  /** A call that ends without a description is still ended, with the description read from
      a buffer nobody wrote. */
  lemma EmptyDescriptionStillEnds(callId: string, duration: int, sipStatus: int, resultCode: int)
    requires Plain(callId, 255, '|') && IsInt(duration) && IsInt(sipStatus) && IsInt(resultCode)
    ensures WorkerEffect(PackTask(CallEnd(callId, duration, sipStatus, resultCode, "")))
         == EndCall(callId, duration, sipStatus, resultCode, None)
  {
    var t := CallEnd(callId, duration, sipStatus, resultCode, "");
    var items, f := Items(t), Format(KCallEnd);
    forall i | 0 <= i < 4
      ensures Fits(items[..4][i], f[..4][i])
    {
    }
    BudgetOf(KCallEnd);
    PackWithinBudget(items, f);
    ScanStopsAtEmpty(items, f, 4);
  }

  lemma CallStartScan(t: Task, m: nat)
    requires t.CallStart? && m < 5 && AllFit(Items(t)[..m], Format(KCallStart)[..m]) && Items(t)[m] == Text("")
    requires forall i :: 0 <= i < 6 ==> NoWider(Items(t)[i], Format(KCallStart)[i])
    ensures ScanAll(PackTask(t).data, Format(KCallStart)) == Items(t)[..m]
  {
    BudgetOf(KCallStart);
    PackWithinBudget(Items(t), Format(KCallStart));
    ScanStopsAtEmpty(Items(t), Format(KCallStart), m);
  }

  /** A call start with an empty field before the last: from the direction on it is inserted
      with what came before, with an empty number it is not. */
  lemma EmptyFieldInCallStart(t: Task, m: nat)
    requires t.CallStart? && m < 5 && AllFit(Items(t)[..m], Format(KCallStart)[..m]) && Items(t)[m] == Text("")
    requires forall i :: 0 <= i < 6 ==> NoWider(Items(t)[i], Format(KCallStart)[i])
    ensures WorkerEffect(PackTask(t))
         == if m < 3 then Nothing
            else InsertCall(t.callId, t.caller, t.callee, if m > 3 then Some(t.direction) else None, None, None)
  {
    CallStartScan(t, m);
  }

  /** An agent status task reaches the database as meant if and only if the extension
      and the status are 1 to 31 characters without '|'. */
  lemma AgentStatusDelivered(ext: string, status: string, calls: int)
    requires IsInt(calls)
    ensures WorkerEffect(PackTask(AgentStatus(ext, status, calls))) == SetAgent(ext, status, calls)
       <==> 1 <= |ext| <= 31 && '|' !in ext && 1 <= |status| <= 31 && '|' !in status
  {
    var t := AgentStatus(ext, status, calls);
    TaskRoundTrip(t);
    ScanAllFits(PackTask(t).data, Format(KAgentStatus));
    assert FieldsFit(t) <==> 1 <= |ext| <= 31 && '|' !in ext && 1 <= |status| <= 31 && '|' !in status by {
      assert Items(t)[0] == Text(ext) && Items(t)[1] == Text(status) && Items(t)[2] == Number(calls);
    }
  }

  /** An empty department, which db_sync_call_start passes for a NULL one, stops the
      scan after four conversions: the call is inserted all the same, with the
      department and the start time read from buffers nobody wrote. */
  lemma EmptyDepartmentLosesStartTime(callId: string, caller: string, callee: string, direction: string, at: string)
    requires AllFit([Text(callId), Text(caller), Text(callee), Text(direction)], Format(KCallStart)[..4])
    requires |at| <= 31
    ensures WorkerEffect(PackTask(CallStart(callId, caller, callee, direction, "", at)))
         == InsertCall(callId, caller, callee, Some(direction), None, None)
  {
    var t := CallStart(callId, caller, callee, direction, "", at);
    var items, f := Items(t), Format(KCallStart);
    assert items[..4] == [Text(callId), Text(caller), Text(callee), Text(direction)];
    forall i | 0 <= i < 6
      ensures NoWider(items[i], f[i])
    {
      if i < 4 { assert Fits(items[..4][i], f[..4][i]); }
    }
    BudgetOf(KCallStart);
    PackWithinBudget(items, f);
    ScanStopsAtEmpty(items, f, 4);
  }
}
