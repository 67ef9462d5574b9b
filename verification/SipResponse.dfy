/** SIP response generation and dispatch (src/sip_handler.c:316-485), and the round trip:
    parsing a generated response gives back the request's header fields, the echo rule
    of section 8.2.6.2 of RFC 3261 for the one Via that is stored. */
module SipResponse {
  import opened Options
  import opened CText
  import opened SipMessage

  const RESP_BUF_SIZE := 2048

  function OrElse(v: string, default: string): string { if v != "" then v else default }

  function Header(name: string, value: string): string { name + (": " + value) }

  function StatusLine(code: int, reason: string): string {
    "SIP/2.0 " + (PrintInt(code) + (" " + reason))
  }

  function ResponseHeaders(h: Headers): seq<string> {
    [Header("Via", OrElse(h.via, "SIP/2.0/UDP unknown")),
     Header("From", OrElse(h.from, "<sip:unknown>")),
     Header("To", OrElse(h.to, "<sip:unknown>")),
     Header("Call-ID", OrElse(h.callId, "unknown")),
     Header("CSeq", OrElse(h.cseq, "0 UNKNOWN")),
     Header("Content-Length", "0")]
  }

  /** Lines, each ended by CRLF, and the blank line. */
  function Join(lines: seq<string>): string {
    if lines == [] then CRLF else lines[0] + (CRLF + Join(lines[1..]))
  }

  function ResponseText(h: Headers, code: int, reason: string): string {
    StatusLine(code, reason) + (CRLF + Join(ResponseHeaders(h)))
  }

  /** sip_generate_response into a buffer of the given size, terminator included. */
  function Generate(h: Headers, code: int, reason: string, size: nat): (r: Option<string>)
    ensures r.Some? <==> |ResponseText(h, code, reason)| < size
    ensures r.Some? ==> |r.value| < size
  {
    var text := ResponseText(h, code, reason);
    if |text| >= size then None else Some(text)
  }

  // -------------------------------------------------------------- lines of a response

  lemma JoinFirst(a: string, rest: string)
    requires IsCrlfFree(a)
    ensures Find(a + (CRLF + rest), CRLF) == |a|
    ensures (a + (CRLF + rest))[..|a|] == a && (a + (CRLF + rest))[|a| + 2..] == rest
  {
    var s := a + (CRLF + rest);
    AtIsCrlfAt(s, |a|);
    forall j | 0 <= j < |a|
      ensures !At(s, CRLF, j)
    {
      AtIsCrlfAt(s, j);
      assert !CrlfAt(a, j);
    }
    FindIs(s, CRLF, |a|);
  }

  lemma OneLine(line: string, rest: string)
    requires line != "" && IsCrlfFree(line)
    ensures HeaderLines(line + (CRLF + rest)) == [Line(line, rest)] + HeaderLines(rest)
    ensures HeaderSpan(line + (CRLF + rest)) == |line| + 2 + HeaderSpan(rest)
  {
    JoinFirst(line, rest);
    FirstLineParts(line + (CRLF + rest), |line|);
  }

  lemma BlankLine(rest: string)
    ensures HeaderLines(CRLF + rest) == [] && HeaderSpan(CRLF + rest) == 2
  {
    assert CrlfAt(CRLF + rest, 0);
    FirstLine(CRLF + rest);
  }

  lemma JoinBody(lines: seq<string>, body: string)
    requires lines != []
    ensures Join(lines) + body == lines[0] + (CRLF + (Join(lines[1..]) + body))
    ensures |Join(lines)| == |lines[0]| + 2 + |Join(lines[1..])|
  {
  }

  /** Joined lines are found again in front of any body. */
  lemma {:induction false} LinesOfJoin(lines: seq<string>, body: string)
    requires forall i :: 0 <= i < |lines| ==> lines[i] != "" && IsCrlfFree(lines[i])
    ensures var r := HeaderLines(Join(lines) + body);
            |r| == |lines| && forall i :: 0 <= i < |lines| ==> r[i].text == lines[i]
    ensures HeaderSpan(Join(lines) + body) == |Join(lines)|
    decreases |lines|
  {
    if lines == [] {
      BlankLine(body);
    } else {
      JoinBody(lines, body);
      OneLine(lines[0], Join(lines[1..]) + body);
      LinesOfJoin(lines[1..], body);
    }
  }

  /** No CR in front, so no CRLF can arise at the seam. */
  lemma SeamFree(a: string, b: string)
    requires '\r' !in a && IsCrlfFree(b)
    ensures IsCrlfFree(a + b)
  {
    forall j
      ensures !CrlfAt(a + b, j)
    {
      assert !CrlfAt(b, j - |a|);
    }
  }

  lemma ConstFree(s: string)
    requires '\r' !in s
    ensures IsCrlfFree(s)
  {
  }

  /** A printed header reads back under its own name and no other, with its value. */
  lemma HeaderReads(name: string, value: string)
    requires name != "" && ':' !in name && '\r' !in name && IsCrlfFree(value) && (value == "" || value[0] != ' ')
    ensures var t := Header(name, value);
            && t != "" && IsCrlfFree(t) && IndexOf(t, ':') == |name| < |t|
            && t[..|name|] == name && ValueOf(t) == value
  {
    var t := Header(name, value);
    assert t == (name + ": ") + value;
    SeamFree(name + ": ", value);
    IndexIs(t, ':', |name|);
    assert t[|name| + 1..] == " " + value;
    assert Strip(" " + value) == Strip(value) by { assert (" " + value)[1..] == value; }
  }

  lemma {:induction false} LastAt(lines: seq<Line>, i: nat, name: string, width: nat)
    requires i < |lines| && Names(lines[i].text, name)
    requires forall j :: i < j < |lines| ==> !Names(lines[j].text, name)
    ensures LastValue(lines, name, width) == CutTo(ValueOf(lines[i].text), width)
    decreases |lines|
  {
    if i < |lines| - 1 {
      LastAt(lines[..|lines| - 1], i, name, width);
    }
  }

  /** The stored value, or what the generator prints in place of an empty one. */
  ghost predicate Echoes(h: Headers, r: Headers) {
    && r.via == OrElse(h.via, "SIP/2.0/UDP unknown")
    && r.from == OrElse(h.from, "<sip:unknown>")
    && r.to == OrElse(h.to, "<sip:unknown>")
    && r.callId == OrElse(h.callId, "unknown")
    && r.cseq == OrElse(h.cseq, "0 UNKNOWN")
  }

  lemma DefaultsClean(h: Headers)
    requires CleanHeaders(h)
    ensures Clean(OrElse(h.via, "SIP/2.0/UDP unknown"), HEADER_WIDTH)
    ensures Clean(OrElse(h.from, "<sip:unknown>"), HEADER_WIDTH)
    ensures Clean(OrElse(h.to, "<sip:unknown>"), HEADER_WIDTH)
    ensures Clean(OrElse(h.callId, "unknown"), HEADER_WIDTH)
    ensures Clean(OrElse(h.cseq, "0 UNKNOWN"), CSEQ_WIDTH)
  {
    ConstFree("SIP/2.0/UDP unknown");
    ConstFree("<sip:unknown>");
    ConstFree("unknown");
    ConstFree("0 UNKNOWN");
  }

  /** The header names of a response, in order, as fields. */
  const ORDER: seq<Field> := [ViaField, FromField, ToField, CallIdField, CSeqField, LengthField]

  lemma NamesPlain(f: Field)
    ensures var n := NameOf(f); n != "" && ':' !in n && '\r' !in n
  {
  }

  /** The value printed on the i-th header line. */
  function Printed(h: Headers, i: nat): string {
    if i == 0 then OrElse(h.via, "SIP/2.0/UDP unknown") else if i == 1 then OrElse(h.from, "<sip:unknown>")
    else if i == 2 then OrElse(h.to, "<sip:unknown>") else if i == 3 then OrElse(h.callId, "unknown")
    else if i == 4 then OrElse(h.cseq, "0 UNKNOWN") else "0"
  }

  /** A printed header line carries the name of its field and of no other. */
  lemma FieldLine(f: Field, v: string)
    requires IsCrlfFree(v) && (v == "" || v[0] != ' ')
    ensures var t := Header(NameOf(f), v);
            && t != "" && IsCrlfFree(t)
            && (forall g :: Names(t, NameOf(g)) <==> g == f)
            && IndexOf(t, ':') < |t| && ValueOf(t) == v
  {
    var t := Header(NameOf(f), v);
    NamesPlain(f);
    HeaderReads(NameOf(f), v);
    forall g
      ensures Names(t, NameOf(g)) <==> g == f
    {
      if SameName(t[..|NameOf(f)|], NameOf(g)) { OneName(NameOf(f), f, g); }
    }
  }

  lemma ResponseLine(h: Headers, i: nat)
    requires CleanHeaders(h) && i < 6
    ensures var t := ResponseHeaders(h)[i];
            && t != "" && IsCrlfFree(t)
            && (forall f :: Names(t, NameOf(f)) <==> f == ORDER[i])
            && IndexOf(t, ':') < |t| && ValueOf(t) == Printed(h, i)
  {
    DefaultsClean(h);
    ConstFree("0");
    assert ResponseHeaders(h)[i] == Header(NameOf(ORDER[i]), Printed(h, i));
    FieldLine(ORDER[i], Printed(h, i));
  }

  lemma EchoAt(h: Headers, lines: seq<Line>, i: nat, width: nat)
    requires CleanHeaders(h) && i < 6 && |lines| == 6 && |Printed(h, i)| <= width
    requires forall k :: 0 <= k < 6 ==> lines[k].text == ResponseHeaders(h)[k]
    ensures LastValue(lines, NameOf(ORDER[i]), width) == Printed(h, i)
  {
    forall k | 0 <= k < 6
      ensures Names(lines[k].text, NameOf(ORDER[i])) <==> ORDER[i] == ORDER[k]
    {
      ResponseLine(h, k);
    }
    ResponseLine(h, i);
    LastAt(lines, i, NameOf(ORDER[i]), width);
  }

  lemma ResponseLines(h: Headers) returns (lines: seq<Line>)
    requires CleanHeaders(h)
    ensures lines == HeaderLines(Join(ResponseHeaders(h))) && |lines| == 6
    ensures forall k :: 0 <= k < 6 ==> lines[k].text == ResponseHeaders(h)[k]
  {
    var texts := ResponseHeaders(h);
    forall i | 0 <= i < 6
      ensures texts[i] != "" && IsCrlfFree(texts[i])
    {
      ResponseLine(h, i);
    }
    LinesOfJoin(texts, "");
    assert Join(texts) + "" == Join(texts);
    lines := HeaderLines(Join(texts));
  }

  lemma EchoedFields(h: Headers, lines: seq<Line>)
    requires CleanHeaders(h) && |lines| == 6
    requires forall k :: 0 <= k < 6 ==> lines[k].text == ResponseHeaders(h)[k]
    ensures Echoes(h, FieldsOf(lines))
  {
    DefaultsClean(h);
    EchoAt(h, lines, 0, HEADER_WIDTH);
    EchoAt(h, lines, 1, HEADER_WIDTH);
    EchoAt(h, lines, 2, HEADER_WIDTH);
    EchoAt(h, lines, 3, HEADER_WIDTH);
    EchoAt(h, lines, 4, CSEQ_WIDTH);
    assert NameOf(ORDER[0]) == "Via" && NameOf(ORDER[1]) == "From" && NameOf(ORDER[2]) == "To"
        && NameOf(ORDER[3]) == "Call-ID" && NameOf(ORDER[4]) == "CSeq";
  }

  lemma FieldsOfResponse(h: Headers)
    requires CleanHeaders(h)
    ensures Echoes(h, FieldsOf(HeaderLines(Join(ResponseHeaders(h)))))
  {
    var lines := ResponseLines(h);
    EchoedFields(h, lines);
  }

  // ----------------------------------------------------------------------- round trip

  lemma ParseStatusLine(data: string, crlf: nat, code: int, after: string)
    requires crlf == Find(data, CRLF) && 7 <= crlf < |data| && data[..7] == "SIP/2.0" && IndexOf(data, ' ') == 7
    requires data[8..] == PrintInt(code) + after && IsInt(code) && after != "" && !IsDigit(after[0])
    ensures ParseStart(data) == Ok(Start(UNKNOWN, code, "", crlf + 2))
  {
    ScanOfPrint(code, after);
  }

  lemma StatusLineFree(code: int, reason: string)
    requires code > 0 && IsCrlfFree(reason)
    ensures IsCrlfFree(StatusLine(code, reason)) && |StatusLine(code, reason)| >= 9
  {
    var front := "SIP/2.0 " + (PrintInt(code) + " ");
    assert StatusLine(code, reason) == front + reason;
    SeamFree(front, reason);
  }

  lemma StatusLineParts(digits: string, reason: string, rest: string)
    ensures var data := "SIP/2.0 " + (digits + (" " + reason)) + (CRLF + rest);
            && data[..7] == "SIP/2.0" && IndexOf(data, ' ') == 7
            && data[8..] == digits + (" " + (reason + (CRLF + rest)))
  {
    var data := "SIP/2.0 " + (digits + (" " + reason)) + (CRLF + rest);
    assert data[..7] == "SIP/2.0";
    IndexIs(data, ' ', 7);
  }

  lemma StatusLineSplits(code: int, reason: string, rest: string, data: string)
    requires code > 0 && IsCrlfFree(reason) && data == StatusLine(code, reason) + (CRLF + rest)
    ensures var n := |StatusLine(code, reason)|; n >= 9 && Find(data, CRLF) == n < |data| && data[n + 2..] == rest
  {
    StatusLineFree(code, reason);
    JoinFirst(StatusLine(code, reason), rest);
  }

  /** The start line is that of a response with this code. */
  ghost predicate StatusRead(data: string, code: int, offset: nat) {
    ParseStart(data) == Ok(Start(UNKNOWN, code, "", offset))
  }

  lemma StatusDataReads(code: int, data: string, n: nat, after: string)
    requires 0 < code <= INT_MAX && n >= 9 && Find(data, CRLF) == n < |data|
    requires data[..7] == "SIP/2.0" && IndexOf(data, ' ') == 7 && data[8..] == PrintInt(code) + (" " + after)
    ensures StatusRead(data, code, n + 2)
  {
    ParseStatusLine(data, n, code, " " + after);
  }

  lemma StatusLineReads(code: int, reason: string, rest: string)
    requires 0 < code <= INT_MAX && IsCrlfFree(reason)
    ensures var data := StatusLine(code, reason) + (CRLF + rest);
            var n := |StatusLine(code, reason)|;
            StatusRead(data, code, n + 2) && data[n + 2..] == rest
  {
    var data := StatusLine(code, reason) + (CRLF + rest);
    var n, after := |StatusLine(code, reason)|, reason + (CRLF + rest);
    assert n >= 9 && Find(data, CRLF) == n < |data| && data[n + 2..] == rest by {
      StatusLineSplits(code, reason, rest, data);
    }
    assert data[..7] == "SIP/2.0" && IndexOf(data, ' ') == 7 && data[8..] == PrintInt(code) + (" " + after) by {
      StatusLineParts(PrintInt(code), reason, rest);
    }
    StatusDataReads(code, data, n, after);
  }

  lemma MethodNamePlain(m: Method)
    ensures var n := MethodName(m); 3 <= |n| < METHOD_BUF && ' ' !in n && '\r' !in n
    ensures var n := MethodName(m); |n| >= 7 ==> !SameName(n[..7], "SIP/2.0")
  {
    var n := MethodName(m);
    if |n| >= 7 {
      assert Lower(n[..7][1]) != Lower("SIP/2.0"[1]);
    }
  }

  /** The start line is that of a request with this method and URI. */
  ghost predicate RequestRead(data: string, m: Method, uri: string, offset: nat) {
    ParseStart(data) == Ok(Start(m, 0, uri, offset))
  }

  lemma ParseRequestLine(data: string, crlf: nat, sp1: nat, sp2: nat)
    requires crlf == Find(data, CRLF) && 7 <= crlf < |data| && !SameName(data[..7], "SIP/2.0")
    requires sp1 == IndexOf(data, ' ') && 0 < sp1 < METHOD_BUF && sp1 < |data|
    requires sp2 == IndexOf(data[sp1 + 1..], ' ') && 0 < sp2 <= URI_WIDTH && sp2 < |data| - sp1 - 1
    ensures RequestRead(data, MethodOf(data[..sp1]), data[sp1 + 1..][..sp2], crlf + 2)
  {
  }

  lemma SpacesOfRequest(name: string, uri: string, rest: string)
    requires ' ' !in name && ' ' !in uri
    ensures var data := name + (" " + (uri + " SIP/2.0")) + (CRLF + rest);
            && IndexOf(data, ' ') == |name| && data[..|name|] == name
            && IndexOf(data[|name| + 1..], ' ') == |uri| && data[|name| + 1..][..|uri|] == uri
  {
    var data := name + (" " + (uri + " SIP/2.0")) + (CRLF + rest);
    IndexIs(data, ' ', |name|);
    var after := data[|name| + 1..];
    assert after == uri + (" SIP/2.0" + (CRLF + rest));
    IndexIs(after, ' ', |uri|);
  }

  lemma RequestLineFree(name: string, uri: string, rest: string)
    requires '\r' !in name && '\r' !in uri
    ensures var line := name + (" " + (uri + " SIP/2.0")); var data := line + (CRLF + rest);
            Find(data, CRLF) == |line| && data[|line| + 2..] == rest && data[|name|] == ' '
  {
    var line := name + (" " + (uri + " SIP/2.0"));
    ConstFree(line);
    JoinFirst(line, rest);
  }

  function RequestLine(m: Method, uri: string): string { MethodName(m) + (" " + (uri + " SIP/2.0")) }

  /** A request line "METHOD uri SIP/2.0" followed by CRLF. */
  lemma RequestLineReads(m: Method, uri: string, rest: string, data: string)
    requires m != UNKNOWN && 1 <= |uri| <= URI_WIDTH && ' ' !in uri && '\r' !in uri
    requires data == RequestLine(m, uri) + (CRLF + rest)
    ensures var n := |RequestLine(m, uri)| + 2; RequestRead(data, m, uri, n) && n <= |data| && data[n..] == rest
  {
    var name := MethodName(m);
    var line := RequestLine(m, uri);
    MethodNamePlain(m);
    MethodNamed(name, m);
    RequestLineFree(name, uri, rest);
    SpacesOfRequest(name, uri, rest);
    NotStatusLine(data, name);
    ParseRequestLine(data, |line|, |name|, |uri|);
  }

  /** A request line does not begin like a status line. */
  lemma NotStatusLine(data: string, name: string)
    requires |data| >= 7 && |name| < |data| && data[..|name|] == name && data[|name|] == ' '
    requires ' ' !in name && (|name| < 7 || !SameName(name[..7], "SIP/2.0"))
    ensures !SameName(data[..7], "SIP/2.0")
  {
    if |name| < 7 {
      assert data[..7][|name|] == ' ';
    } else {
      assert data[..7] == name[..7];
    }
  }

  lemma ResponseFits(h: Headers, code: int, reason: string)
    requires CleanHeaders(h) && 0 < code <= INT_MAX && |reason| <= 800
    ensures |ResponseText(h, code, reason)| < 2048 == RESP_BUF_SIZE
  {
    PrintIntWidth(code);
    DefaultsClean(h);
    var ls := ResponseHeaders(h);
    assert |Join(ls[6..])| == 2;
    JoinStep(ls, 5); JoinStep(ls, 4); JoinStep(ls, 3); JoinStep(ls, 2); JoinStep(ls, 1); JoinStep(ls, 0);
    assert ls[0..] == ls;
  }

  lemma JoinStep(ls: seq<string>, i: nat)
    requires i < |ls|
    ensures |Join(ls[i..])| == |ls[i]| + 2 + |Join(ls[i + 1..])|
  {
    assert ls[i..][1..] == ls[i + 1..];
  }

  /** For whatever message was received: the response to it fits its buffer and parses
      again, with the given status code and the message's own header fields (their
      stand-ins where a field was empty). */
  lemma ResponseRoundTrip(data: string, code: int, reason: string)
    requires Parse(data).Ok?
    requires 0 < code <= INT_MAX && IsCrlfFree(reason) && |reason| <= 800
    ensures var h := Parse(data).value.h;
            && Generate(h, code, reason, RESP_BUF_SIZE).Some?
            && var again := Parse(Generate(h, code, reason, RESP_BUF_SIZE).value);
            && again.Ok? && again.value.status == code && Echoes(h, again.value.h)
            && Validate(again.value) == Valid
  {
    ParsedFieldsClean(data);
    var h := Parse(data).value.h;
    ResponseFits(h, code, reason);
    StatusLineReads(code, reason, Join(ResponseHeaders(h)));
    FieldsOfResponse(h);
  }

  /** The echo rule: the response to a valid request carries that request's Call-ID,
      From, To and CSeq, and its Via when there was one. */
  lemma RequestEcho(data: string, code: int, reason: string)
    requires Parse(data).Ok? && Validate(Parse(data).value) == Valid && Parse(data).value.status <= 0
    requires 0 < code <= INT_MAX && IsCrlfFree(reason) && |reason| <= 800
    ensures var h := Parse(data).value.h;
            && Generate(h, code, reason, RESP_BUF_SIZE).Some?
            && var again := Parse(Generate(h, code, reason, RESP_BUF_SIZE).value);
            && again.Ok? && again.value.status == code
            && again.value.h.callId == h.callId && again.value.h.from == h.from
            && again.value.h.to == h.to && again.value.h.cseq == h.cseq
            && (h.via != "" ==> again.value.h.via == h.via)
  {
    ResponseRoundTrip(data, code, reason);
  }

  // ------------------------------------------------------------------- Content-Length

  lemma {:induction false} SkipAppend(a: string, b: string)
    requires exists i :: 0 <= i < |a| && !IsSpace(a[i])
    ensures SkipSpaces(a + b) == SkipSpaces(a) + b
    decreases |a|
  {
    if IsSpace(a[0]) {
      var i :| 0 <= i < |a| && !IsSpace(a[i]);
      assert a[1..][i - 1] == a[i];
      assert (a + b)[1..] == a[1..] + b;
      SkipAppend(a[1..], b);
    }
  }

  lemma {:induction false} DigitRunStops(u: string, b: string)
    requires b != "" && !IsDigit(b[0])
    ensures DigitRun(u + b) == DigitRun(u)
  {
    if u == "" {
      assert u + b == b;
    } else if IsDigit(u[0]) {
      assert (u + b)[1..] == u[1..] + b;
      DigitRunStops(u[1..], b);
    }
  }

  lemma ScanDigitsStops(negative: bool, u: string, b: string)
    requires b != "" && !IsDigit(b[0])
    ensures var x, y := ScanDigits(negative, u), ScanDigits(negative, u + b);
            (x.Fail? <==> y.Fail?) && (x.Match? ==> x.value == y.value)
  {
    DigitRunStops(u, b);
    assert (u + b)[..DigitRun(u)] == u[..DigitRun(u)];
  }

  lemma DropFirst(t: string, b: string)
    requires t != ""
    ensures (t + b)[0] == t[0] && (t + b)[1..] == t[1..] + b
  {
  }

  lemma ScanSignedStops(t: string, b: string)
    requires t != "" && b != "" && !IsDigit(b[0])
    ensures var x, y := ScanSigned(t), ScanSigned(t + b);
            (x.Fail? <==> y.Fail?) && (x.Match? ==> x.value == y.value)
  {
    DropFirst(t, b);
    if t[0] == '-' || t[0] == '+' {
      ScanDigitsStops(t[0] == '-', t[1..], b);
    } else {
      ScanDigitsStops(false, t, b);
    }
  }

  /** With anything but white space in its value, a Content-Length line is read from that
      value alone. */
  lemma LengthFromOwnLine(l: Line)
    requires Names(l.text, "Content-Length")
    requires exists i :: 0 <= i < |ValueOf(l.text)| && !IsSpace(ValueOf(l.text)[i])
    ensures LengthIn(l) == Atoi(ValueOf(l.text))
  {
    var v, b := ValueOf(l.text), CRLF + l.tail;
    assert v + CRLF + l.tail == v + b;
    SkipAppend(v, b);
    SkipNonEmpty(v);
    ScanSignedStops(SkipSpaces(v), b);
  }

  lemma {:induction false} SkipNonEmpty(a: string)
    requires exists i :: 0 <= i < |a| && !IsSpace(a[i])
    ensures SkipSpaces(a) != ""
    decreases |a|
  {
    if IsSpace(a[0]) {
      var i :| 0 <= i < |a| && !IsSpace(a[i]);
      assert a[1..][i - 1] == a[i];
      SkipNonEmpty(a[1..]);
    }
  }

  predicate Blank(v: string) { forall i :: 0 <= i < |v| ==> IsSpace(v[i]) }

  lemma {:induction false} SkipBlank(a: string, b: string)
    requires Blank(a)
    ensures SkipSpaces(a + b) == SkipSpaces(b)
    decreases |a|
  {
    if a == "" {
      assert a + b == b;
    } else {
      assert (a + b)[1..] == a[1..] + b;
      SkipBlank(a[1..], b);
    }
  }

  /** With nothing but white space in its value, a Content-Length line takes its number
      from whatever follows it: a further header line, or the body behind the blank line. */
  lemma BlankLengthReadsOn(l: Line)
    requires Names(l.text, "Content-Length") && Blank(ValueOf(l.text))
    ensures LengthIn(l) == Atoi(l.tail) && Atoi(ValueOf(l.text)) == 0
  {
    var v := ValueOf(l.text);
    SkipBlank(v + CRLF, l.tail);
    SkipBlank(v, "");
    assert v + "" == v;
  }

  /** The length comes from the line's own value exactly when that is not blank, or what
      follows gives no number but zero either. */
  lemma LengthFromOwnLineIff(l: Line)
    requires Names(l.text, "Content-Length")
    ensures LengthIn(l) == Atoi(ValueOf(l.text)) <==> !Blank(ValueOf(l.text)) || Atoi(l.tail) == 0
  {
    if Blank(ValueOf(l.text)) { BlankLengthReadsOn(l); } else { LengthFromOwnLine(l); }
  }

  lemma BlankLengthValue()
    ensures var t := "Content-Length:"; Names(t, "Content-Length") && ValueOf(t) == ""
  {
    var t := "Content-Length:";
    IndexIs(t, ':', 14);
    assert t[..14] == "Content-Length" && t[15..] == "";
  }

  /** An instance: after an empty value and a blank line, the number at the start of the
      body is taken for its length. */
  lemma BlankLengthReadsTheBody(n: int, body: string)
    requires 0 <= n <= INT_MAX && (body == "" || !IsDigit(body[0]))
    ensures var l := Line("Content-Length:", CRLF + (PrintInt(n) + body));
            Names(l.text, "Content-Length") && ValueOf(l.text) == "" && LengthIn(l) == n
  {
    BlankLengthValue();
    ScanOfPrint(n, body);
    SkipBlank(CRLF, PrintInt(n) + body);
    BlankLengthReadsOn(Line("Content-Length:", CRLF + (PrintInt(n) + body)));
  }
}
