/** A whole request as a client prints it, and what the parser makes of it
    (src/sip_handler.c:50-280). */
module SipRequest {
  import opened CText
  import opened SipMessage
  import opened SipResponse

  const FIELDS: seq<Field> :=
    [ViaField, FromField, ToField, CallIdField, CSeqField, ContactField, TypeField, LengthField]

  function ValueFor(h: Headers, f: Field): string {
    match f
    case ViaField => h.via
    case FromField => h.from
    case ToField => h.to
    case CallIdField => h.callId
    case CSeqField => h.cseq
    case ContactField => h.contact
    case TypeField => h.contentType
    case LengthField => PrintInt(h.contentLength)
  }

  function HeaderTexts(h: Headers): (r: seq<string>)
    ensures |r| == 8
  {
    seq(8, k requires 0 <= k < 8 => Header(NameOf(FIELDS[k]), ValueFor(h, FIELDS[k])))
  }

  /** Request line, headers, blank line, body. */
  function RequestText(verb: Method, uri: string, h: Headers, body: string): string {
    RequestLine(verb, uri) + (CRLF + (Join(HeaderTexts(h)) + body))
  }

  /** Values that the fields hold whole: 255 characters, 63 for CSeq, no CRLF, no blank in front. */
  ghost predicate HeldWhole(h: Headers) {
    && Clean(h.via, 255) && Clean(h.from, 255) && Clean(h.to, 255) && Clean(h.callId, 255)
    && Clean(h.cseq, 63) && Clean(h.contact, 255) && Clean(h.contentType, 255)
    && 0 <= h.contentLength <= INT_MAX
  }

  lemma NumberPlain(n: nat)
    ensures IsCrlfFree(PrintInt(n)) && PrintInt(n) != "" && !IsSpace(PrintInt(n)[0])
  {
    assert forall i :: 0 <= i < |PrintNat(n)| ==> IsDigit(PrintNat(n)[i]);
    ConstFree(PrintInt(n));
  }

  lemma ValuePlain(h: Headers, f: Field)
    requires HeldWhole(h)
    ensures var v := ValueFor(h, f); IsCrlfFree(v) && (v == "" || v[0] != ' ')
  {
    if f.LengthField? { NumberPlain(h.contentLength); }
  }

  lemma TextAt(h: Headers, k: nat)
    requires HeldWhole(h) && k < 8
    ensures var t := HeaderTexts(h)[k];
            && t != "" && IsCrlfFree(t) && (forall f :: Names(t, NameOf(f)) <==> f == FIELDS[k])
            && IndexOf(t, ':') < |t| && ValueOf(t) == ValueFor(h, FIELDS[k])
  {
    ValuePlain(h, FIELDS[k]);
    FieldLine(FIELDS[k], ValueFor(h, FIELDS[k]));
  }

  ghost predicate Carries(lines: seq<Line>, h: Headers) {
    |lines| == 8 && forall k :: 0 <= k < 8 ==> lines[k].text == HeaderTexts(h)[k]
  }

  lemma FieldsDiffer(j: nat, k: nat)
    requires j < 8 && k < 8
    ensures FIELDS[j] == FIELDS[k] <==> j == k
  {
  }

  lemma NamedAt(h: Headers, lines: seq<Line>, j: nat, k: nat)
    requires HeldWhole(h) && Carries(lines, h) && j < 8 && k < 8
    ensures Names(lines[j].text, NameOf(FIELDS[k])) <==> j == k
  {
    TextAt(h, j);
    FieldsDiffer(j, k);
  }

  lemma StoredAt(h: Headers, lines: seq<Line>, k: nat, width: nat)
    requires HeldWhole(h) && Carries(lines, h) && k < 8 && |ValueFor(h, FIELDS[k])| <= width
    ensures LastValue(lines, NameOf(FIELDS[k]), width) == ValueFor(h, FIELDS[k])
  {
    forall j | 0 <= j < 8
      ensures Names(lines[j].text, NameOf(FIELDS[k])) <==> j == k
    {
      NamedAt(h, lines, j, k);
    }
    TextAt(h, k);
    LastAt(lines, k, NameOf(FIELDS[k]), width);
  }

  lemma StoredLength(h: Headers, lines: seq<Line>)
    requires HeldWhole(h) && Carries(lines, h)
    ensures LastLength(lines) == h.contentLength
  {
    TextAt(h, 7);
    var l, n := lines[7], h.contentLength;
    NumberPlain(n);
    assert Names(l.text, NameOf(LengthField)) && ValueOf(l.text) == PrintInt(n);
    LengthFromOwnLine(l);
    ScanOfPrint(n, "");
    assert PrintInt(n) + "" == PrintInt(n);
  }

  lemma StoredFields(h: Headers, lines: seq<Line>)
    requires HeldWhole(h) && Carries(lines, h)
    ensures FieldsOf(lines) == h
  {
    StoredAt(h, lines, 0, 255);
    StoredAt(h, lines, 1, 255);
    StoredAt(h, lines, 2, 255);
    StoredAt(h, lines, 3, 255);
    StoredAt(h, lines, 4, 63);
    StoredAt(h, lines, 5, 255);
    StoredAt(h, lines, 6, 255);
    StoredLength(h, lines);
    assert NameOf(FIELDS[0]) == "Via" && NameOf(FIELDS[1]) == "From" && NameOf(FIELDS[2]) == "To"
        && NameOf(FIELDS[3]) == "Call-ID" && NameOf(FIELDS[4]) == "CSeq" && NameOf(FIELDS[5]) == "Contact"
        && NameOf(FIELDS[6]) == "Content-Type";
  }

  lemma HeadersFound(h: Headers, body: string)
    requires HeldWhole(h)
    ensures FieldsOf(HeaderLines(Join(HeaderTexts(h)) + body)) == h
    ensures HeaderSpan(Join(HeaderTexts(h)) + body) == |Join(HeaderTexts(h))|
  {
    forall k | 0 <= k < 8
      ensures HeaderTexts(h)[k] != "" && IsCrlfFree(HeaderTexts(h)[k])
    {
      TextAt(h, k);
    }
    LinesOfJoin(HeaderTexts(h), body);
    StoredFields(h, HeaderLines(Join(HeaderTexts(h)) + body));
  }

  /** The body is what Content-Length announces, as far as it is there, up to 4095 bytes. */
  lemma BodyIs(data: string, offset: nat, length: int)
    requires offset <= |data|
    ensures var b := BodyOf(data, offset, length);
            && b <= data[offset..] && |b| <= 4095
            && (length <= 0 ==> b == "")
            && (length > 0 ==> |b| == length || |b| == |data| - offset || |b| == 4095)
            && (length > 0 ==> |b| <= length)
  {
  }

  lemma BodyFound(front: string, body: string)
    ensures BodyOf(front + body, |front|, |body|) == CutTo(body, 4095)
  {
    var data := front + body;
    assert data[|front|..] == body;
    BodyIs(data, |front|, |body|);
  }

  /** The message is read as a request with just these parts. */
  ghost predicate ReadAs(data: string, verb: Method, uri: string, h: Headers, body: string) {
    && Parse(data).Ok?
    && var m := Parse(data).value;
       m.verb == verb && m.status == 0 && m.uri == uri && m.h == h && m.body == body
  }

  /** Where the parser finds the parts of a printed request. */
  lemma LinePart(verb: Method, uri: string, rest: string, data: string, start: Start)
    requires verb != UNKNOWN && 1 <= |uri| <= 255 && ' ' !in uri && '\r' !in uri
    requires data == RequestLine(verb, uri) + (CRLF + rest)
    requires start == Start(verb, 0, uri, |RequestLine(verb, uri)| + 2)
    ensures ParseStart(data) == Ok(start) && start.offset <= |data| && data[start.offset..] == rest
  {
    RequestLineReads(verb, uri, rest, data);
  }

  lemma BodyPart(line: string, heads: string, body: string, data: string, at: nat, length: int)
    requires data == line + (CRLF + (heads + body)) && at == |line| + 2 + |heads| && length == |body|
    ensures at <= |data| && BodyOf(data, at, length) == CutTo(body, 4095)
  {
    var front := line + (CRLF + heads);
    assert data == front + body;
    BodyFound(front, body);
  }

  lemma RestOf(data: string, start: Start, rest: string, h: Headers, at: nat, body: string)
    requires start.offset <= |data| && data[start.offset..] == rest
    requires FieldsOf(HeaderLines(rest)) == h && at == start.offset + HeaderSpan(rest)
    requires BodyOf(data, at, h.contentLength) == body
    ensures ParseRest(data, start) == Assemble(start, h, body)
  {
  }

  lemma RestPart(line: string, h: Headers, heads: string, body: string, data: string, start: Start)
    requires data == line + (CRLF + (heads + body)) && start.offset == |line| + 2 <= |data|
    requires data[start.offset..] == heads + body && h.contentLength == |body|
    requires FieldsOf(HeaderLines(heads + body)) == h && HeaderSpan(heads + body) == |heads|
    ensures ParseRest(data, start) == Assemble(start, h, CutTo(body, 4095))
  {
    var at := start.offset + |heads|;
    BodyPart(line, heads, body, data, at, h.contentLength);
    RestOf(data, start, heads + body, h, at, CutTo(body, 4095));
  }

  lemma ParsedAs(data: string, start: Start, h: Headers, body: string)
    requires ParseStart(data) == Ok(start) && start.status == 0
    requires ParseRest(data, start) == Assemble(start, h, body)
    ensures ReadAs(data, start.verb, start.uri, h, body)
  {
  }

  lemma PartsTogether(verb: Method, uri: string, h: Headers, heads: string, body: string, data: string)
    requires verb != UNKNOWN && 1 <= |uri| <= 255 && ' ' !in uri && '\r' !in uri && h.contentLength == |body|
    requires FieldsOf(HeaderLines(heads + body)) == h && HeaderSpan(heads + body) == |heads|
    requires data == RequestLine(verb, uri) + (CRLF + (heads + body))
    ensures ReadAs(data, verb, uri, h, CutTo(body, 4095))
  {
    var line := RequestLine(verb, uri);
    var start := Start(verb, 0, uri, |line| + 2);
    LinePart(verb, uri, heads + body, data, start);
    RestPart(line, h, heads, body, data, start);
    ParsedAs(data, start, h, CutTo(body, 4095));
  }

  /** A printed request is read back whole: its method, its URI, every header, and its body
      up to 4095 bytes. */
  lemma RequestReads(verb: Method, uri: string, h: Headers, body: string)
    requires verb != UNKNOWN && 1 <= |uri| <= 255 && ' ' !in uri && '\r' !in uri
    requires HeldWhole(h) && h.contentLength == |body|
    ensures ReadAs(RequestText(verb, uri, h, body), verb, uri, h, CutTo(body, 4095))
  {
    HeadersFound(h, body);
    PartsTogether(verb, uri, h, Join(HeaderTexts(h)), body, RequestText(verb, uri, h, body));
  }

  /** Which messages are let through, and what is missing from the others, in the order in
      which it is looked for. */
  lemma ValidIff(m: Message)
    ensures Validate(m) == Valid
       <==> m.status > 0 || (m.verb != UNKNOWN && |m.h.callId| > 0 && |m.h.from| > 0 && |m.h.to| > 0 && |m.h.cseq| > 0)
    ensures Validate(m) == UnknownMethod <==> m.status <= 0 && m.verb == UNKNOWN
    ensures Validate(m) == NoCallId <==> m.status <= 0 && m.verb != UNKNOWN && |m.h.callId| == 0
    ensures Validate(m) == NoFrom ==> |m.h.from| == 0 && |m.h.callId| > 0
    ensures Validate(m) == NoTo ==> |m.h.to| == 0 && |m.h.from| > 0 && |m.h.callId| > 0
    ensures Validate(m) == NoCSeq ==> |m.h.cseq| == 0 && |m.h.to| > 0 && |m.h.from| > 0 && |m.h.callId| > 0
  {
  }

  /** What the start line is refused for. */
  lemma StartRefusedIff(data: string)
    ensures var r := ParseStart(data);
            && (r == Err(Empty) <==> data == "")
            && (r == Err(NoCrlf) <==> data != "" && forall j :: !CrlfAt(data, j))
            && (r == Err(BadMethod) ==> ' ' !in data || IndexOf(data, ' ') == 0 || IndexOf(data, ' ') >= 32)
            && (r.Ok? ==> ' ' in data && exists j :: j >= 7 && CrlfAt(data, j))
            && (r.Ok? && !SameName(data[..7], "SIP/2.0") ==> 1 <= IndexOf(data, ' ') <= 31 && r.value.status == 0)
            && (r.Ok? && SameName(data[..7], "SIP/2.0") ==> r.value.verb == UNKNOWN && r.value.uri == "")
  {
    FindSpec(data, CRLF);
    forall j
      ensures At(data, CRLF, j) <==> CrlfAt(data, j)
    {
      AtIsCrlfAt(data, j);
    }
    IndexSpec(data, ' ');
  }

  /** With a first line of at least seven characters: a status line needs a blank anywhere in
      the message, a request a first blank behind 1 to 31 characters; the code is the number
      behind it, the URI what lies between the first two blanks, or nothing when that is
      empty or longer than 255. */
  lemma StartAccepted(data: string)
    requires 7 <= Find(data, CRLF) < |data|
    ensures var r, blank := ParseStart(data), IndexOf(data, ' ');
            if SameName(data[..7], "SIP/2.0") then
              && (r.Ok? <==> ' ' in data)
              && (r.Ok? ==> blank < |data| && r.value.status == Atoi(data[blank + 1..]))
            else
              && (r.Ok? <==> ' ' in data && 1 <= blank <= 31)
              && (r.Ok? ==>
                    && blank < |data| && r.value.verb == MethodOf(data[..blank])
                    && var rest := data[blank + 1..];
                       r.value.uri == if ' ' in rest && 1 <= IndexOf(rest, ' ') <= 255 then rest[..IndexOf(rest, ' ')]
                                      else "")
    ensures ParseStart(data).Ok? ==> ParseStart(data).value.offset == Find(data, CRLF) + 2
  {
    BlankFound(data);
    if IndexOf(data, ' ') < |data| { BlankFound(data[IndexOf(data, ' ') + 1..]); }
  }

  lemma BlankFound(s: string)
    ensures ' ' in s <==> IndexOf(s, ' ') < |s|
  {
    IndexSpec(s, ' ');
  }

  /** Letters match in either case, everything else only itself. */
  lemma AnyCase(a: string, b: string)
    ensures SameName(a, b)
       <==> |a| == |b|
            && forall i :: 0 <= i < |a| ==>
                 || a[i] == b[i]
                 || ('A' <= a[i] <= 'Z' && b[i] as int == a[i] as int + 32)
                 || ('A' <= b[i] <= 'Z' && a[i] as int == b[i] as int + 32)
  {
    assert forall i :: 0 <= i < |a| && |a| == |b| ==>
             (Lower(a[i]) == Lower(b[i]) <==>
                || a[i] == b[i]
                || ('A' <= a[i] <= 'Z' && b[i] as int == a[i] as int + 32)
                || ('A' <= b[i] <= 'Z' && a[i] as int == b[i] as int + 32));
  }
}
