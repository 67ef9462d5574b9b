/** SIP message parsing (src/sip_handler.c:13-314), a subset of RFC 3261: the start line,
    the offset-driven header loop that fills fixed-size fields, URI user extraction, the
    body, and validation.  A message is a C string without its terminator. */
module SipMessage {
  import opened CText

  const CRLF := "\r\n"
  const HEADER_WIDTH := 255
  const CSEQ_WIDTH := 63
  const URI_WIDTH := 255
  const EXTENSION_WIDTH := 15
  const BODY_WIDTH := 4095
  const METHOD_BUF := 32

  // ------------------------------------------------------------------ header lines

  function Lower(c: char): char { if 'A' <= c <= 'Z' then c - 'A' + 'a' else c }

  /** strncasecmp over equal lengths. */
  predicate SameName(a: string, b: string) {
    |a| == |b| && forall i :: 0 <= i < |a| ==> Lower(a[i]) == Lower(b[i])
  }

  /** A header line and everything that follows its CRLF. */
  datatype Line = Line(text: string, tail: string)

  /** Splits at CRLF, up to a blank line or to text that no CRLF ends. */
  function HeaderLines(s: string): seq<Line>
    decreases |s|
  {
    var k := Find(s, CRLF);
    if k == |s| || k == 0 then [] else [Line(s[..k], s[k + 2..])] + HeaderLines(s[k + 2..])
  }

  /** Length of those lines, and of the blank line when there is one. */
  function HeaderSpan(s: string): (n: nat)
    ensures n <= |s|
    decreases |s|
  {
    var k := Find(s, CRLF);
    if k == |s| then 0 else if k == 0 then 2 else k + 2 + HeaderSpan(s[k + 2..])
  }

  /** The header's name is what precedes the first colon. */
  predicate Names(text: string, name: string) {
    var k := IndexOf(text, ':');
    k < |text| && SameName(text[..k], name)
  }

  function Strip(s: string): string {
    if s != "" && s[0] == ' ' then Strip(s[1..]) else s
  }

  /** What follows the colon and any blanks. */
  function ValueOf(text: string): string
    requires IndexOf(text, ':') < |text|
  {
    Strip(text[IndexOf(text, ':') + 1..])
  }

  /** The first `width` characters. */
  function CutTo(s: string, width: nat): (r: string)
    ensures r <= s && |r| == if |s| < width then |s| else width
  {
    if |s| < width then s else s[..width]
  }

  /** The value of the last line with that name, cut to the field; "" when there is none. */
  function LastValue(lines: seq<Line>, name: string, width: nat): string {
    if lines == [] then ""
    else if Names(lines[|lines| - 1].text, name) then
      CutTo(ValueOf(lines[|lines| - 1].text), width)
    else LastValue(lines[..|lines| - 1], name, width)
  }

  /** atoi reads on past the end of the line when the value is blank. */
  function LengthIn(l: Line): int
    requires Names(l.text, "Content-Length")
  {
    Atoi(ValueOf(l.text) + CRLF + l.tail)
  }

  function LastLength(lines: seq<Line>): int {
    if lines == [] then 0
    else if Names(lines[|lines| - 1].text, "Content-Length") then LengthIn(lines[|lines| - 1])
    else LastLength(lines[..|lines| - 1])
  }

  datatype Headers = Headers(callId: string, from: string, to: string, cseq: string, contact: string,
                             contentType: string, via: string, contentLength: int)

  /** What the header fields must be, field by field. */
  function FieldsOf(lines: seq<Line>): Headers {
    Headers(LastValue(lines, "Call-ID", HEADER_WIDTH),
            LastValue(lines, "From", HEADER_WIDTH),
            LastValue(lines, "To", HEADER_WIDTH),
            LastValue(lines, "CSeq", CSEQ_WIDTH),
            LastValue(lines, "Contact", HEADER_WIDTH),
            LastValue(lines, "Content-Type", HEADER_WIDTH),
            LastValue(lines, "Via", HEADER_WIDTH),
            LastLength(lines))
  }

  datatype Field = CallIdField | FromField | ToField | CSeqField | ContactField | TypeField | ViaField | LengthField

  function NameOf(f: Field): string {
    match f
    case CallIdField => "Call-ID"
    case FromField => "From"
    case ToField => "To"
    case CSeqField => "CSeq"
    case ContactField => "Contact"
    case TypeField => "Content-Type"
    case ViaField => "Via"
    case LengthField => "Content-Length"
  }

  /** No key is the name of two fields. */
  lemma OneName(key: string, a: Field, b: Field)
    requires SameName(key, NameOf(a)) && SameName(key, NameOf(b))
    ensures a == b
  {
    if |key| == 7 {
      assert Lower(key[1]) == Lower(NameOf(a)[1]) == Lower(NameOf(b)[1]);
    } else if |key| == 4 {
      assert Lower(key[0]) == Lower(NameOf(a)[0]) == Lower(NameOf(b)[0]);
    }
  }

  lemma AppendLine(lines: seq<Line>, l: Line, name: string, width: nat)
    ensures LastValue(lines + [l], name, width)
         == if Names(l.text, name) then CutTo(ValueOf(l.text), width) else LastValue(lines, name, width)
    ensures LastLength(lines + [l])
         == if Names(l.text, "Content-Length") then LengthIn(l) else LastLength(lines)
  {
    assert (lines + [l])[..|lines|] == lines;
  }

  lemma AppendFields(lines: seq<Line>, l: Line)
    ensures var f, g := FieldsOf(lines), FieldsOf(lines + [l]); var t := l.text;
            && g.callId == (if Names(t, "Call-ID") then CutTo(ValueOf(t), HEADER_WIDTH) else f.callId)
            && g.from == (if Names(t, "From") then CutTo(ValueOf(t), HEADER_WIDTH) else f.from)
            && g.to == (if Names(t, "To") then CutTo(ValueOf(t), HEADER_WIDTH) else f.to)
            && g.cseq == (if Names(t, "CSeq") then CutTo(ValueOf(t), CSEQ_WIDTH) else f.cseq)
            && g.contact == (if Names(t, "Contact") then CutTo(ValueOf(t), HEADER_WIDTH) else f.contact)
            && g.contentType == (if Names(t, "Content-Type") then CutTo(ValueOf(t), HEADER_WIDTH) else f.contentType)
            && g.via == (if Names(t, "Via") then CutTo(ValueOf(t), HEADER_WIDTH) else f.via)
            && g.contentLength == (if Names(t, "Content-Length") then LengthIn(l) else f.contentLength)
  {
    AppendLine(lines, l, "Call-ID", HEADER_WIDTH);
    AppendLine(lines, l, "From", HEADER_WIDTH);
    AppendLine(lines, l, "To", HEADER_WIDTH);
    AppendLine(lines, l, "CSeq", CSEQ_WIDTH);
    AppendLine(lines, l, "Contact", HEADER_WIDTH);
    AppendLine(lines, l, "Content-Type", HEADER_WIDTH);
    AppendLine(lines, l, "Via", HEADER_WIDTH);
  }

  /** A line that carries the name of one field changes that field and no other. */
  lemma AppendNamed(lines: seq<Line>, l: Line, field: Field)
    requires Names(l.text, NameOf(field))
    ensures var f, g, v := FieldsOf(lines), FieldsOf(lines + [l]), ValueOf(l.text);
            match field
            case CallIdField => g == f.(callId := CutTo(v, HEADER_WIDTH))
            case FromField => g == f.(from := CutTo(v, HEADER_WIDTH))
            case ToField => g == f.(to := CutTo(v, HEADER_WIDTH))
            case CSeqField => g == f.(cseq := CutTo(v, CSEQ_WIDTH))
            case ContactField => g == f.(contact := CutTo(v, HEADER_WIDTH))
            case TypeField => g == f.(contentType := CutTo(v, HEADER_WIDTH))
            case ViaField => g == f.(via := CutTo(v, HEADER_WIDTH))
            case LengthField => g == f.(contentLength := LengthIn(l))
  {
    AppendFields(lines, l);
    var key := l.text[..IndexOf(l.text, ':')];
    forall other | other != field
      ensures !SameName(key, NameOf(other))
    {
      if SameName(key, NameOf(other)) { OneName(key, field, other); }
    }
    assert NameOf(CallIdField) == "Call-ID" && NameOf(FromField) == "From" && NameOf(ToField) == "To"
        && NameOf(CSeqField) == "CSeq" && NameOf(ContactField) == "Contact" && NameOf(TypeField) == "Content-Type"
        && NameOf(ViaField) == "Via" && NameOf(LengthField) == "Content-Length";
  }

  lemma AppendOther(lines: seq<Line>, l: Line)
    requires var t := l.text;
             && !Names(t, "Call-ID") && !Names(t, "From") && !Names(t, "To") && !Names(t, "CSeq")
             && !Names(t, "Contact") && !Names(t, "Content-Type") && !Names(t, "Via") && !Names(t, "Content-Length")
    ensures FieldsOf(lines + [l]) == FieldsOf(lines)
  {
    AppendFields(lines, l);
  }

  predicate CrlfAt(s: string, j: int) { 0 <= j < |s| - 1 && s[j] == '\r' && s[j + 1] == '\n' }

  lemma AtIsCrlfAt(s: string, j: int)
    ensures At(s, CRLF, j) <==> CrlfAt(s, j)
  {
    if At(s, CRLF, j) {
      assert s[j + 0] == CRLF[0] && s[j + 1] == CRLF[1];
    }
  }

  lemma FirstLine(s: string)
    ensures var k := Find(s, CRLF);
            && (k == |s| ==> HeaderLines(s) == [] && HeaderSpan(s) == 0)
            && (s != "" && k == 0 <==> CrlfAt(s, 0))
            && (s != "" && k == 0 ==> HeaderLines(s) == [] && HeaderSpan(s) == 2)
            && (0 < k < |s| ==>
                  k + 2 <= |s| && s[k..k + 2] == CRLF
                  && HeaderLines(s) == [Line(s[..k], s[k + 2..])] + HeaderLines(s[k + 2..])
                  && HeaderSpan(s) == k + 2 + HeaderSpan(s[k + 2..]))
  {
    FindSpec(s, CRLF);
    AtIsCrlfAt(s, 0);
  }

  /** The branch chain of the loop body. */
  function TakeHeader(h: Headers, l: Line): Headers {
    var colon := IndexOf(l.text, ':');
    if colon == |l.text| then h
    else
      var key, value := l.text[..colon], Strip(l.text[colon + 1..]);
      if SameName(key, "Call-ID") then h.(callId := CutTo(value, HEADER_WIDTH))
      else if SameName(key, "From") then h.(from := CutTo(value, HEADER_WIDTH))
      else if SameName(key, "To") then h.(to := CutTo(value, HEADER_WIDTH))
      else if SameName(key, "CSeq") then h.(cseq := CutTo(value, CSEQ_WIDTH))
      else if SameName(key, "Contact") then h.(contact := CutTo(value, HEADER_WIDTH))
      else if SameName(key, "Content-Type") then h.(contentType := CutTo(value, HEADER_WIDTH))
      else if SameName(key, "Via") then h.(via := CutTo(value, HEADER_WIDTH))
      else if SameName(key, "Content-Length") then h.(contentLength := LengthIn(l))
      else h
  }

  lemma TakeHeaderAppends(lines: seq<Line>, l: Line)
    ensures TakeHeader(FieldsOf(lines), l) == FieldsOf(lines + [l])
  {
    if field :| Names(l.text, NameOf(field)) {
      AppendNamed(lines, l, field);
      TakeNamed(FieldsOf(lines), l, field);
    } else {
      NoField(l.text);
      AppendOther(lines, l);
    }
  }

  lemma NoField(t: string)
    requires forall field :: !Names(t, NameOf(field))
    ensures !Names(t, "Call-ID") && !Names(t, "From") && !Names(t, "To") && !Names(t, "CSeq")
         && !Names(t, "Contact") && !Names(t, "Content-Type") && !Names(t, "Via") && !Names(t, "Content-Length")
  {
    assert NameOf(CallIdField) == "Call-ID" && NameOf(FromField) == "From" && NameOf(ToField) == "To"
        && NameOf(CSeqField) == "CSeq" && NameOf(ContactField) == "Contact" && NameOf(TypeField) == "Content-Type"
        && NameOf(ViaField) == "Via" && NameOf(LengthField) == "Content-Length";
  }

  lemma TakeNamed(h: Headers, l: Line, field: Field)
    requires Names(l.text, NameOf(field))
    ensures var g, v := TakeHeader(h, l), ValueOf(l.text);
            match field
            case CallIdField => g == h.(callId := CutTo(v, HEADER_WIDTH))
            case FromField => g == h.(from := CutTo(v, HEADER_WIDTH))
            case ToField => g == h.(to := CutTo(v, HEADER_WIDTH))
            case CSeqField => g == h.(cseq := CutTo(v, CSEQ_WIDTH))
            case ContactField => g == h.(contact := CutTo(v, HEADER_WIDTH))
            case TypeField => g == h.(contentType := CutTo(v, HEADER_WIDTH))
            case ViaField => g == h.(via := CutTo(v, HEADER_WIDTH))
            case LengthField => g == h.(contentLength := LengthIn(l))
  {
    var key := l.text[..IndexOf(l.text, ':')];
    forall other | other != field
      ensures !SameName(key, NameOf(other))
    {
      if SameName(key, NameOf(other)) { OneName(key, field, other); }
    }
    assert NameOf(CallIdField) == "Call-ID" && NameOf(FromField) == "From" && NameOf(ToField) == "To"
        && NameOf(CSeqField) == "CSeq" && NameOf(ContactField) == "Contact" && NameOf(TypeField) == "Content-Type"
        && NameOf(ViaField) == "Via" && NameOf(LengthField) == "Content-Length";
  }

  const NO_HEADERS := Headers("", "", "", "", "", "", "", 0)

  /** The fields once the remaining lines have been taken in order. */
  function Gather(h: Headers, lines: seq<Line>): Headers
    decreases |lines|
  {
    if lines == [] then h else Gather(TakeHeader(h, lines[0]), lines[1..])
  }

  lemma {:induction false} GatherLast(h: Headers, lines: seq<Line>, l: Line)
    ensures Gather(h, lines + [l]) == TakeHeader(Gather(h, lines), l)
    decreases |lines|
  {
    if lines == [] {
      assert [l][1..] == [] && [] + [l] == [l];
    } else {
      assert (lines + [l])[1..] == lines[1..] + [l];
      GatherLast(TakeHeader(h, lines[0]), lines[1..], l);
    }
  }

  /** Taking the lines one by one leaves in each field its last value. */
  lemma {:induction false} GatheredFields(lines: seq<Line>)
    ensures Gather(NO_HEADERS, lines) == FieldsOf(lines)
  {
    if lines != [] {
      var n := |lines| - 1;
      GatheredFields(lines[..n]);
      GatherLast(NO_HEADERS, lines[..n], lines[n]);
      TakeHeaderAppends(lines[..n], lines[n]);
      assert lines == lines[..n] + [lines[n]];
    }
  }

  lemma GatherFirst(h: Headers, l: Line, more: seq<Line>)
    ensures Gather(h, [l] + more) == Gather(TakeHeader(h, l), more)
  {
    assert ([l] + more)[1..] == more;
  }

  lemma SearchFrom(data: string, pos: nat)
    requires pos <= |data|
    ensures FindFrom(data, CRLF, pos) == pos + Find(data[pos..], CRLF)
  {
    var k := Find(data[pos..], CRLF);
    FindSpec(data[pos..], CRLF);
    FindFromSpec(data, CRLF, pos);
    var m := FindFrom(data, CRLF, pos);
    forall j: int | 0 <= j
      ensures At(data[pos..], CRLF, j) <==> At(data, CRLF, pos + j)
    {
      AtIsCrlfAt(data[pos..], j);
      AtIsCrlfAt(data, pos + j);
    }
    assert At(data[pos..], CRLF, m - pos) <==> At(data, CRLF, pos + (m - pos));
    assert At(data[pos..], CRLF, k) <==> At(data, CRLF, pos + k);
  }

  /** At a blank line, behind the last CRLF and at the end no header line follows. */
  lemma NoLineAt(data: string, pos: nat)
    requires pos <= |data|
    ensures pos < |data| && CrlfAt(data, pos) ==>
              pos + 2 <= |data| && HeaderLines(data[pos..]) == [] && HeaderSpan(data[pos..]) == 2
    ensures FindFrom(data, CRLF, pos) == |data| ==> HeaderLines(data[pos..]) == [] && HeaderSpan(data[pos..]) == 0
  {
    SearchFrom(data, pos);
    FirstLine(data[pos..]);
  }

  lemma FirstLineParts(s: string, k: nat)
    requires k == Find(s, CRLF) && 0 < k < |s|
    ensures k + 2 <= |s| && s[k..k + 2] == CRLF
    ensures HeaderLines(s) == [Line(s[..k], s[k + 2..])] + HeaderLines(s[k + 2..])
    ensures HeaderSpan(s) == k + 2 + HeaderSpan(s[k + 2..])
  {
    FirstLine(s);
  }

  lemma NotBlank(data: string, pos: nat) returns (k: nat)
    requires pos < |data| && !CrlfAt(data, pos) && FindFrom(data, CRLF, pos) < |data|
    ensures k == Find(data[pos..], CRLF) && 0 < k < |data| - pos && FindFrom(data, CRLF, pos) == pos + k
  {
    k := Find(data[pos..], CRLF);
    SearchFrom(data, pos);
    FirstLine(data[pos..]);
  }

  lemma PartsAt(data: string, pos: nat, k: nat)
    requires pos <= |data| && k == Find(data[pos..], CRLF) && 0 < k < |data| - pos
    ensures pos + k + 2 <= |data| && data[pos + k..pos + k + 2] == CRLF
    ensures HeaderLines(data[pos..])
         == [Line(data[pos..pos + k], data[pos + k + 2..])] + HeaderLines(data[pos + k + 2..])
    ensures HeaderSpan(data[pos..]) == k + 2 + HeaderSpan(data[pos + k + 2..])
  {
    FirstLineParts(data[pos..], k);
    SlicesOfRest(data, pos, k);
  }

  /** The first line from `pos` on, in terms of positions in the whole message. */
  lemma LineAt(data: string, pos: nat) returns (crlf: nat)
    requires pos < |data| && !CrlfAt(data, pos) && FindFrom(data, CRLF, pos) < |data|
    ensures crlf == FindFrom(data, CRLF, pos) && pos < crlf && crlf + 2 <= |data| && data[crlf..crlf + 2] == CRLF
    ensures HeaderLines(data[pos..]) == [Line(data[pos..crlf], data[crlf + 2..])] + HeaderLines(data[crlf + 2..])
    ensures HeaderSpan(data[pos..]) == crlf + 2 - pos + HeaderSpan(data[crlf + 2..])
  {
    var k := NotBlank(data, pos);
    PartsAt(data, pos, k);
    crlf := pos + k;
  }

  lemma SlicesOfRest(data: string, pos: nat, k: nat)
    requires pos + k + 2 <= |data|
    ensures data[pos..][..k] == data[pos..pos + k]
    ensures data[pos..][k + 2..] == data[pos + k + 2..]
    ensures data[pos..][k..k + 2] == data[pos + k..pos + k + 2]
  {
  }

  /** The header loop: it stops, its offset never passes the end, and it delivers what
      gathering the lines one by one prescribes. */
  method GatherHeaders(data: string, offset: nat) returns (h: Headers, pos: nat)
    requires offset <= |data|
    ensures h == Gather(NO_HEADERS, HeaderLines(data[offset..]))
    ensures pos == offset + HeaderSpan(data[offset..]) <= |data|
  {
    h, pos := NO_HEADERS, offset;
    ghost var all, end := Gather(NO_HEADERS, HeaderLines(data[offset..])), offset + HeaderSpan(data[offset..]);
    while pos < |data|
      invariant offset <= pos <= |data|
      invariant Gather(h, HeaderLines(data[pos..])) == all && pos + HeaderSpan(data[pos..]) == end
      decreases |data| - pos
    {
      NoLineAt(data, pos);
      if |data| - pos >= 2 && data[pos] == '\r' && data[pos + 1] == '\n' {
        return h, pos + 2;
      }
      var crlf := FindFrom(data, CRLF, pos);
      if crlf == |data| {
        return;
      }
      ghost var k := LineAt(data, pos);
      GatherFirst(h, Line(data[pos..crlf], data[crlf + 2..]), HeaderLines(data[crlf + 2..]));
      h := TakeHeader(h, Line(data[pos..crlf], data[crlf + 2..]));
      pos := crlf + 2;
    }
    NoLineAt(data, pos);
  }

  /** Every field holds the value of the last line with its name, and the body offset
      lies behind the header lines and their blank line. */
  method ParseHeaders(data: string, offset: nat) returns (h: Headers, bodyOffset: nat)
    requires offset <= |data|
    ensures h == FieldsOf(HeaderLines(data[offset..]))
    ensures bodyOffset == offset + HeaderSpan(data[offset..]) <= |data|
  {
    h, bodyOffset := GatherHeaders(data, offset);
    GatheredFields(HeaderLines(data[offset..]));
  }

  // --------------------------------------------------------------------- start line

  datatype Method = UNKNOWN | INVITE | ACK | BYE | CANCEL | REGISTER | OPTIONS | REFER | INFO
                  | UPDATE | SUBSCRIBE | NOTIFY | MESSAGE

  function AllMethods(): seq<Method> {
    [INVITE, ACK, BYE, CANCEL, REGISTER, OPTIONS, REFER, INFO, UPDATE, SUBSCRIBE, NOTIFY, MESSAGE]
  }

  function FirstNamed(s: string, ms: seq<Method>): Method {
    if ms == [] then UNKNOWN else if SameName(s, MethodName(ms[0])) then ms[0] else FirstNamed(s, ms[1..])
  }

  /** sip_method_from_string: the names are tried in order. */
  function MethodOf(s: string): Method { FirstNamed(s, AllMethods()) }

  function MethodName(m: Method): string {
    match m
    case UNKNOWN => "UNKNOWN"
    case INVITE => "INVITE"
    case ACK => "ACK"
    case BYE => "BYE"
    case CANCEL => "CANCEL"
    case REGISTER => "REGISTER"
    case OPTIONS => "OPTIONS"
    case REFER => "REFER"
    case INFO => "INFO"
    case UPDATE => "UPDATE"
    case SUBSCRIBE => "SUBSCRIBE"
    case NOTIFY => "NOTIFY"
    case MESSAGE => "MESSAGE"
  }

  /** Length and first letter tell the methods apart. */
  lemma OneMethod(s: string, a: Method, b: Method)
    requires a != UNKNOWN && b != UNKNOWN && SameName(s, MethodName(a)) && SameName(s, MethodName(b))
    ensures a == b
  {
    assert Lower(s[0]) == Lower(MethodName(a)[0]) == Lower(MethodName(b)[0]);
  }

  lemma {:induction false} FirstNamedSpec(s: string, ms: seq<Method>)
    requires UNKNOWN !in ms
    ensures var r := FirstNamed(s, ms);
            if r == UNKNOWN then forall m :: m in ms ==> !SameName(s, MethodName(m))
            else r in ms && SameName(s, MethodName(r))
  {
    if ms != [] {
      FirstNamedSpec(s, ms[1..]);
      assert ms == [ms[0]] + ms[1..];
    }
  }

  lemma AllMethodsListed(m: Method)
    ensures m in AllMethods() <==> m != UNKNOWN
  {
    var a := AllMethods();
    assert a[0] == INVITE && a[1] == ACK && a[2] == BYE && a[3] == CANCEL && a[4] == REGISTER && a[5] == OPTIONS
        && a[6] == REFER && a[7] == INFO && a[8] == UPDATE && a[9] == SUBSCRIBE && a[10] == NOTIFY && a[11] == MESSAGE;
  }

  /** A text is read as a method exactly when it is its name, in any case. */
  lemma MethodNamed(s: string, m: Method)
    requires m != UNKNOWN
    ensures MethodOf(s) == m <==> SameName(s, MethodName(m))
  {
    AllMethodsListed(UNKNOWN);
    AllMethodsListed(m);
    FirstNamedSpec(s, AllMethods());
    if SameName(s, MethodName(m)) { OneMethod(s, m, MethodOf(s)); }
  }

  datatype ParseError = Empty | NoCrlf | ShortLine | BadMethod

  datatype Result<+T> = Ok(value: T) | Err(error: ParseError)

  datatype Start = Start(verb: Method, status: int, uri: string, offset: nat)

  /** sip_parse_start_line.  The blanks are looked for in the whole message, not only in
      its first line. */
  function ParseStart(data: string): (r: Result<Start>)
    ensures r.Ok? ==> 9 <= r.value.offset <= |data|
  {
    var crlf := Find(data, CRLF);
    if data == "" then Err(Empty)
    else if crlf == |data| then Err(NoCrlf)
    else if crlf < 7 then Err(ShortLine)
    else
      var sp1 := IndexOf(data, ' ');
      if SameName(data[..7], "SIP/2.0") then
        if sp1 == |data| then Err(ShortLine) else Ok(Start(UNKNOWN, Atoi(data[sp1 + 1..]), "", crlf + 2))
      else if sp1 == |data| || sp1 == 0 || sp1 >= METHOD_BUF then Err(BadMethod)
      else
        var rest := data[sp1 + 1..];
        var sp2 := IndexOf(rest, ' ');
        var uri := if sp2 < |rest| && 0 < sp2 <= URI_WIDTH then rest[..sp2] else "";
        Ok(Start(MethodOf(data[..sp1]), 0, uri, crlf + 2))
  }

  // ------------------------------------------------------------------ whole message

  /** sip_extract_uri_user: after "sip:" (or "SIP:", or the first colon, or from the
      start) up to '@', else ':', else ';', else the end, cut to the buffer. */
  function UriStart(v: string): (k: nat)
    ensures k <= |v|
  {
    var lower, upper, colon := Find(v, "sip:"), Find(v, "SIP:"), IndexOf(v, ':');
    if lower < |v| then lower + 4
    else if upper < |v| then upper + 4
    else if colon < |v| then colon + 1 else 0
  }

  function ExtractUser(v: string, width: nat): (user: string)
    ensures |user| <= width
  {
    var s := v[UriStart(v)..];
    var at, colon, semi := IndexOf(s, '@'), IndexOf(s, ':'), IndexOf(s, ';');
    CutTo(s[..if at < |s| then at else if colon < |s| then colon else semi], width)
  }

  datatype Message = Message(verb: Method, status: int, uri: string, h: Headers,
                             fromUri: string, toUri: string, caller: string, callee: string, body: string)

  function Min(a: int, b: int): int { if a < b then a else b }

  /** The next min(Content-Length, remaining, 4095) bytes. */
  function BodyOf(data: string, offset: nat, length: int): string
    requires offset <= |data|
  {
    var n := Min(Min(length, |data| - offset), BODY_WIDTH);
    if n > 0 then data[offset..offset + n] else ""
  }

  function Assemble(start: Start, h: Headers, body: string): Message {
    Message(start.verb, start.status, start.uri, h,
            ExtractUser(h.from, URI_WIDTH), ExtractUser(h.to, URI_WIDTH),
            ExtractUser(h.from, EXTENSION_WIDTH), ExtractUser(h.to, EXTENSION_WIDTH), body)
  }

  /** Headers and body behind a start line. */
  function ParseRest(data: string, start: Start): Message
    requires start.offset <= |data|
  {
    var rest := data[start.offset..];
    var h := FieldsOf(HeaderLines(rest));
    Assemble(start, h, BodyOf(data, start.offset + HeaderSpan(rest), h.contentLength))
  }

  function Parse(data: string): Result<Message> {
    match ParseStart(data)
    case Err(e) => Err(e)
    case Ok(start) => Ok(ParseRest(data, start))
  }

  method TakeBody(data: string, offset: nat, length: int) returns (body: string)
    requires offset <= |data|
    ensures body == BodyOf(data, offset, length)
  {
    body := "";
    if length > 0 {
      var n := length;
      if n > |data| - offset {
        n := |data| - offset;
      }
      if n > BODY_WIDTH {
        n := BODY_WIDTH;
      }
      if n > 0 {
        body := data[offset..offset + n];
      }
    }
  }

  method ParseMessage(data: string) returns (r: Result<Message>)
    ensures r == Parse(data)
  {
    var start := ParseStart(data);
    if start.Err? {
      return Err(start.error);
    }
    var m := TakeRest(data, start.value);
    r := Ok(m);
  }

  method TakeRest(data: string, start: Start) returns (m: Message)
    requires start.offset <= |data|
    ensures m == ParseRest(data, start)
  {
    var h, bodyOffset := ParseHeaders(data, start.offset);
    var body := TakeBody(data, bodyOffset, h.contentLength);
    m := Assemble(start, h, body);
  }

  datatype Verdict = Valid | UnknownMethod | NoCallId | NoFrom | NoTo | NoCSeq

  function Validate(m: Message): Verdict {
    if m.status > 0 then Valid
    else if m.verb == UNKNOWN then UnknownMethod
    else if m.h.callId == "" then NoCallId
    else if m.h.from == "" then NoFrom
    else if m.h.to == "" then NoTo
    else if m.h.cseq == "" then NoCSeq
    else Valid
  }

  // --------------------------------------------------------------------- properties

  ghost predicate IsCrlfFree(s: string) { forall j :: !CrlfAt(s, j) }

  /** What every stored field is: within its width, without CRLF, not starting with a blank. */
  ghost predicate Clean(v: string, width: nat) {
    |v| <= width && IsCrlfFree(v) && (v == "" || v[0] != ' ')
  }

  lemma SubstringCrlfFree(s: string, a: nat, b: nat)
    requires a <= b <= |s| && IsCrlfFree(s)
    ensures IsCrlfFree(s[a..b])
  {
    forall j
      ensures !CrlfAt(s[a..b], j)
    {
      assert !CrlfAt(s, a + j);
    }
  }

  lemma {:induction false} StripIsSuffix(s: string) returns (k: nat)
    ensures k <= |s| && Strip(s) == s[k..] && (k < |s| ==> s[k] != ' ') && forall i :: 0 <= i < k ==> s[i] == ' '
  {
    if s != "" && s[0] == ' ' {
      k := StripIsSuffix(s[1..]);
      k := k + 1;
    } else {
      k := 0;
    }
  }

  lemma BeforeFirstCrlf(s: string)
    ensures IsCrlfFree(s[..Find(s, CRLF)])
  {
    var k := Find(s, CRLF);
    FindSpec(s, CRLF);
    forall j
      ensures !CrlfAt(s[..k], j)
    {
      AtIsCrlfAt(s, j);
    }
  }

  lemma {:induction false} LinesCrlfFree(s: string)
    ensures forall i :: 0 <= i < |HeaderLines(s)| ==> IsCrlfFree(HeaderLines(s)[i].text)
    decreases |s|
  {
    FirstLine(s);
    var k := Find(s, CRLF);
    if 0 < k < |s| {
      BeforeFirstCrlf(s);
      LinesCrlfFree(s[k + 2..]);
    }
  }

  lemma ValueClean(t: string, width: nat)
    requires IsCrlfFree(t) && IndexOf(t, ':') < |t|
    ensures Clean(CutTo(ValueOf(t), width), width)
  {
    var s := t[IndexOf(t, ':') + 1..];
    assert s == t[IndexOf(t, ':') + 1..|t|];
    SubstringCrlfFree(t, IndexOf(t, ':') + 1, |t|);
    StripClean(s, width);
  }

  lemma StripClean(s: string, width: nat)
    requires IsCrlfFree(s)
    ensures Clean(CutTo(Strip(s), width), width)
  {
    var k := StripIsSuffix(s);
    var v := s[k..];
    var n := if |v| < width then |v| else width;
    assert CutTo(v, width) == s[k..k + n];
    SubstringCrlfFree(s, k, k + n);
  }

  lemma {:induction false} LastValueClean(lines: seq<Line>, name: string, width: nat)
    requires forall i :: 0 <= i < |lines| ==> IsCrlfFree(lines[i].text)
    ensures Clean(LastValue(lines, name, width), width)
  {
    if lines != [] {
      if Names(lines[|lines| - 1].text, name) {
        ValueClean(lines[|lines| - 1].text, width);
      } else {
        LastValueClean(lines[..|lines| - 1], name, width);
      }
    }
  }

  ghost predicate CleanHeaders(h: Headers) {
    && Clean(h.callId, HEADER_WIDTH) && Clean(h.from, HEADER_WIDTH) && Clean(h.to, HEADER_WIDTH)
    && Clean(h.cseq, CSEQ_WIDTH) && Clean(h.via, HEADER_WIDTH)
    && Clean(h.contact, HEADER_WIDTH) && Clean(h.contentType, HEADER_WIDTH)
  }

  /** Whatever bytes arrive, the stored fields are clean. */
  lemma ParsedFieldsClean(data: string)
    requires Parse(data).Ok?
    ensures CleanHeaders(Parse(data).value.h)
  {
    var s := data[ParseStart(data).value.offset..];
    LinesCrlfFree(s);
    var lines := HeaderLines(s);
    LastValueClean(lines, "Call-ID", HEADER_WIDTH);
    LastValueClean(lines, "From", HEADER_WIDTH);
    LastValueClean(lines, "To", HEADER_WIDTH);
    LastValueClean(lines, "CSeq", CSEQ_WIDTH);
    LastValueClean(lines, "Via", HEADER_WIDTH);
    LastValueClean(lines, "Contact", HEADER_WIDTH);
    LastValueClean(lines, "Content-Type", HEADER_WIDTH);
  }

  lemma AtScheme(v: string, scheme: string, j: int)
    requires |scheme| == 4
    ensures At(v, scheme, j) <==>
              0 <= j && j + 4 <= |v| && v[j] == scheme[0] && v[j + 1] == scheme[1]
              && v[j + 2] == scheme[2] && v[j + 3] == scheme[3]
  {
    if At(v, scheme, j) {
      assert v[j + 0] == scheme[0] && v[j + 1] == scheme[1] && v[j + 2] == scheme[2] && v[j + 3] == scheme[3];
    }
  }

  /** A pattern of different characters that comes right after text without it is first
      found there. */
  lemma FindAfter(before: string, scheme: string, rest: string)
    requires scheme == "sip:" || scheme == "SIP:"
    requires Find(before, scheme) == |before|
    ensures Find(before + (scheme + rest), scheme) == |before|
  {
    var v, n := before + (scheme + rest), |before|;
    FindSpec(before, scheme);
    assert At(v, scheme, n);
    forall j | 0 <= j < n
      ensures !At(v, scheme, j)
    {
      AtScheme(v, scheme, j);
      AtScheme(before, scheme, j);
    }
    FindIs(v, scheme, n);
  }

  /** Where the user part of a URI ends. */
  ghost predicate EndsUser(user: string, rest: string) {
    || (rest != "" && rest[0] == '@')
    || ('@' !in rest && ':' !in user && rest != "" && rest[0] == ':')
    || ('@' !in rest && ':' !in user && ':' !in rest && ';' !in user && (rest == "" || rest[0] == ';'))
  }

  lemma UserEnd(user: string, rest: string)
    requires '@' !in user && EndsUser(user, rest)
    ensures var s := user + rest; var at, colon, semi := IndexOf(s, '@'), IndexOf(s, ':'), IndexOf(s, ';');
            (if at < |s| then at else if colon < |s| then colon else semi) == |user|
  {
    var s := user + rest;
    if rest != "" && rest[0] == '@' {
      IndexIs(s, '@', |user|);
    } else {
      IndexIs(s, '@', |s|);
      if rest != "" && rest[0] == ':' {
        IndexIs(s, ':', |user|);
      } else {
        IndexIs(s, ':', |s|);
        IndexIs(s, ';', |user|);
      }
    }
  }

  /** Where a URI's scheme ends: at the first "sip:", else the first "SIP:", else the
      first colon, else nowhere. */
  ghost predicate Scheme(before: string, scheme: string, rest: string) {
    var v := before + (scheme + rest);
    || (scheme == "sip:" && Find(before, "sip:") == |before|)
    || (scheme == "SIP:" && Find(v, "sip:") == |v| && Find(before, "SIP:") == |before|)
    || (scheme == ":" && Find(v, "sip:") == |v| && Find(v, "SIP:") == |v| && ':' !in before)
    || (scheme == "" && before == "" && ':' !in rest)
  }

  lemma NoSchemeWithoutColon(v: string, scheme: string)
    requires ':' !in v && (scheme == "sip:" || scheme == "SIP:")
    ensures Find(v, scheme) == |v|
  {
    FindSpec(v, scheme);
    var k := Find(v, scheme);
    AtScheme(v, scheme, k);
  }

  lemma SchemeEnds(before: string, scheme: string, rest: string)
    requires Scheme(before, scheme, rest)
    ensures UriStart(before + (scheme + rest)) == |before| + |scheme|
  {
    var v := before + (scheme + rest);
    if scheme == "sip:" {
      FindAfter(before, "sip:", rest);
    } else if scheme == "SIP:" {
      FindAfter(before, "SIP:", rest);
    } else if scheme == ":" {
      IndexIs(v, ':', |before|);
    } else {
      assert v == rest;
      NoSchemeWithoutColon(v, "sip:");
      NoSchemeWithoutColon(v, "SIP:");
      IndexIs(v, ':', |v|);
    }
  }

  lemma UserUpTo(v: string, user: string, rest: string, width: nat)
    requires v[UriStart(v)..] == user + rest && '@' !in user && EndsUser(user, rest)
    ensures ExtractUser(v, width) == CutTo(user, width)
  {
    UserEnd(user, rest);
    assert (user + rest)[..|user|] == user;
  }

  /** A URI yields its user part, between its scheme and its end, cut to the buffer. */
  lemma UserOfUri(before: string, scheme: string, user: string, rest: string, width: nat)
    requires Scheme(before, scheme, user + rest) && '@' !in user && EndsUser(user, rest)
    ensures ExtractUser(before + (scheme + (user + rest)), width) == CutTo(user, width)
  {
    var v := before + (scheme + (user + rest));
    SchemeEnds(before, scheme, user + rest);
    assert v[UriStart(v)..] == user + rest;
    UserUpTo(v, user, rest, width);
  }

  /** The caller is the user of the From header and the callee that of the To header, each
      cut to 15 characters, and to 255 in the two URI fields. */
  lemma CallerAndCallee(data: string, before: string, scheme: string, user: string, rest: string)
    requires Parse(data).Ok? && Scheme(before, scheme, user + rest) && '@' !in user && EndsUser(user, rest)
    ensures var m, v := Parse(data).value, before + (scheme + (user + rest));
            && (m.h.from == v ==> m.caller == CutTo(user, 15) && m.fromUri == CutTo(user, 255))
            && (m.h.to == v ==> m.callee == CutTo(user, 15) && m.toUri == CutTo(user, 255))
  {
    UserOfUri(before, scheme, user, rest, 15);
    UserOfUri(before, scheme, user, rest, 255);
  }
}
