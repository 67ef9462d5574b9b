/** The C library's view of text that both the task queue and the SIP parser rely on:
    decimal printing and reading of int, and first-occurrence searches.  A string is a
    C string without its terminator, so no character is NUL. */
module CText {

  const INT_MIN := -0x8000_0000
  const INT_MAX := 0x7fff_ffff

  predicate IsInt(n: int) { INT_MIN <= n <= INT_MAX }

  predicate IsDigit(c: char) { '0' <= c <= '9' }

  predicate AllDigits(s: string) { forall i :: 0 <= i < |s| ==> IsDigit(s[i]) }

  predicate IsSpace(c: char) { c == ' ' || 9 as char <= c <= 13 as char }

  function Digit(d: nat): (c: char)
    requires d < 10
    ensures IsDigit(c) && DigitValue(c) == d
  {
    '0' + d as char
  }

  function DigitValue(c: char): nat
    requires IsDigit(c)
  {
    c as int - '0' as int
  }

  /** White space of the C locale: blank, tab, line feed, vertical tab, form feed, return. */
  lemma SpacesAre(c: char)
    ensures IsSpace(c) <==> c as int in {9, 10, 11, 12, 13, 32}
  {
  }

  /** printf("%d") of a non-negative number. */
  function PrintNat(n: nat): (s: string)
    ensures s != "" && AllDigits(s)
  {
    if n < 10 then [Digit(n)] else PrintNat(n / 10) + [Digit(n % 10)]
  }

  function PrintInt(n: int): string {
    if n < 0 then "-" + PrintNat(-n) else PrintNat(n)
  }

  function Value(s: string): nat
    requires AllDigits(s)
  {
    if s == "" then 0 else Value(s[..|s| - 1]) * 10 + DigitValue(s[|s| - 1])
  }

  /** Length of the digits a string starts with. */
  function DigitRun(s: string): (n: nat)
    ensures n <= |s| && AllDigits(s[..n]) && (n < |s| ==> !IsDigit(s[n]))
  {
    if s == "" || !IsDigit(s[0]) then 0
    else
      var n := 1 + DigitRun(s[1..]);
      assert s[..n] == [s[0]] + s[1..][..n - 1];
      n
  }

  function SkipSpaces(s: string): string {
    if s != "" && IsSpace(s[0]) then SkipSpaces(s[1..]) else s
  }

  /** strtol followed by the store into an int: saturation at 64 bits, then the low 32. */
  function StoreInt(n: int): (r: int)
    ensures IsInt(r) && (IsInt(n) ==> r == n)
  {
    var long := if n > 0x7fff_ffff_ffff_ffff then 0x7fff_ffff_ffff_ffff
                else if n < -0x8000_0000_0000_0000 then -0x8000_0000_0000_0000 else n;
    (long + 0x8000_0000) % 0x1_0000_0000 - 0x8000_0000
  }

  /** A number of up to 64 bits keeps its low 32; a longer one gives -1 or 0. */
  lemma StoreIntWraps(n: int)
    ensures -0x8000_0000_0000_0000 <= n <= 0x7fff_ffff_ffff_ffff ==>
              IsInt(StoreInt(n)) && (n - StoreInt(n)) % 0x1_0000_0000 == 0
    ensures n > 0x7fff_ffff_ffff_ffff ==> StoreInt(n) == -1
    ensures n < -0x8000_0000_0000_0000 ==> StoreInt(n) == 0
  {
  }

  datatype Scan<+T> = Fail | Match(value: T, rest: string)

  function ScanDigits(negative: bool, u: string): (r: Scan<int>)
    ensures r.Match? ==> IsInt(r.value)
  {
    var n := DigitRun(u);
    if n == 0 then Fail
    else
      var v: int := Value(u[..n]);
      Match(StoreInt(if negative then -v else v), u[n..])
  }

  function ScanSigned(t: string): (r: Scan<int>)
    ensures r.Match? ==> IsInt(r.value)
  {
    if t != "" && (t[0] == '-' || t[0] == '+') then ScanDigits(t[0] == '-', t[1..]) else ScanDigits(false, t)
  }

  /** The %d conversion. */
  function ScanInt(s: string): (r: Scan<int>)
    ensures r.Match? ==> IsInt(r.value)
  {
    ScanSigned(SkipSpaces(s))
  }

  function Atoi(s: string): (n: int)
    ensures IsInt(n)
  {
    match ScanInt(s) case Fail => 0 case Match(n, _) => n
  }

  lemma {:induction false} ValueOfPrint(n: nat)
    ensures Value(PrintNat(n)) == n
  {
    if n >= 10 {
      ValueOfPrint(n / 10);
      assert PrintNat(n)[..|PrintNat(n)| - 1] == PrintNat(n / 10);
    } else {
      assert PrintNat(n)[..0] == "";
    }
  }

  lemma {:induction false} DigitRunOf(s: string, rest: string)
    requires AllDigits(s) && (rest == "" || !IsDigit(rest[0]))
    ensures DigitRun(s + rest) == |s|
  {
    if s == "" {
      assert s + rest == rest;
    } else {
      assert (s + rest)[1..] == s[1..] + rest;
      DigitRunOf(s[1..], rest);
    }
  }

  lemma ScanDigitsOfPrint(negative: bool, m: nat, n: int, rest: string)
    requires rest == "" || !IsDigit(rest[0])
    requires IsInt(n) && n == (if negative then 0 - m else m)
    ensures ScanDigits(negative, PrintNat(m) + rest) == Match(n, rest)
  {
    var digits := PrintNat(m);
    DigitRunOf(digits, rest);
    ValueOfPrint(m);
    assert (digits + rest)[..|digits|] == digits && (digits + rest)[|digits|..] == rest;
  }

  lemma NoSpacesToSkip(s: string)
    requires s == "" || !IsSpace(s[0])
    ensures SkipSpaces(s) == s
  {
  }

  lemma ScanAfterMinus(s: string, m: nat, rest: string)
    requires IsInt(0 - m) && (rest == "" || !IsDigit(rest[0]))
    requires s != "" && s[0] == '-' && s[1..] == PrintNat(m) + rest
    ensures ScanInt(s) == Match(0 - m, rest)
  {
    NoSpacesToSkip(s);
    ScanDigitsOfPrint(true, m, 0 - m, rest);
  }

  lemma ScanOfNegative(m: nat, rest: string)
    requires m > 0 && IsInt(0 - m) && (rest == "" || !IsDigit(rest[0]))
    ensures ScanInt("-" + PrintNat(m) + rest) == Match(0 - m, rest)
  {
    var s := "-" + PrintNat(m) + rest;
    assert s[1..] == PrintNat(m) + rest;
    ScanAfterMinus(s, m, rest);
  }

  lemma ScanOfNatural(m: nat, rest: string)
    requires IsInt(m) && (rest == "" || !IsDigit(rest[0]))
    ensures ScanInt(PrintNat(m) + rest) == Match(m, rest)
  {
    var s := PrintNat(m) + rest;
    ScanDigitsOfPrint(false, m, m, rest);
    assert IsDigit(s[0]);
    NoSpacesToSkip(s);
  }

  /** A plus sign is skipped. */
  lemma ScanOfPlus(m: nat, rest: string)
    requires IsInt(m) && (rest == "" || !IsDigit(rest[0]))
    ensures ScanInt("+" + PrintNat(m) + rest) == Match(m, rest)
  {
    var s := "+" + PrintNat(m) + rest;
    assert s[1..] == PrintNat(m) + rest;
    NoSpacesToSkip(s);
    ScanDigitsOfPrint(false, m, m, rest);
  }

  /** Reading back what was printed, when no further digit follows. */
  lemma ScanOfPrint(n: int, rest: string)
    requires IsInt(n) && (rest == "" || !IsDigit(rest[0]))
    ensures ScanInt(PrintInt(n) + rest) == Match(n, rest)
  {
    if n < 0 { ScanOfNegative(-n, rest); } else { ScanOfNatural(n, rest); }
  }

  lemma {:induction false} PrintNatWidth(n: nat, width: nat, bound: nat)
    requires width >= 1 && n < bound && bound == Pow10(width)
    ensures |PrintNat(n)| <= width
    decreases width
  {
    if n >= 10 {
      PrintNatWidth(n / 10, width - 1, Pow10(width - 1));
    }
  }

  function Pow10(n: nat): nat { if n == 0 then 1 else 10 * Pow10(n - 1) }

  lemma PrintIntWidth(n: int)
    requires IsInt(n)
    ensures 1 <= |PrintInt(n)| <= 11 && (n >= 0 ==> |PrintInt(n)| <= 10)
  {
    assert Pow10(10) == 10_000_000_000;
    PrintNatWidth(if n < 0 then -n else n, 10, Pow10(10));
  }

  function IndexFrom(s: string, c: char, i: nat): (k: nat)
    requires i <= |s|
    ensures i <= k <= |s|
    decreases |s| - i
  {
    if i == |s| || s[i] == c then i else IndexFrom(s, c, i + 1)
  }

  /** strchr/memchr: the first position of c, or the length. */
  function IndexOf(s: string, c: char): (k: nat)
    ensures k <= |s|
  {
    IndexFrom(s, c, 0)
  }

  lemma {:induction false} IndexFromSpec(s: string, c: char, i: nat)
    requires i <= |s|
    ensures var k := IndexFrom(s, c, i); (k < |s| ==> s[k] == c) && forall j :: i <= j < k ==> s[j] != c
    decreases |s| - i
  {
    if i < |s| && s[i] != c { IndexFromSpec(s, c, i + 1); }
  }

  lemma IndexSpec(s: string, c: char)
    ensures var k := IndexOf(s, c); (k < |s| ==> s[k] == c) && forall j :: 0 <= j < k ==> s[j] != c
  {
    IndexFromSpec(s, c, 0);
  }

  lemma IndexIs(s: string, c: char, k: nat)
    requires k <= |s| && (k < |s| ==> s[k] == c) && forall j :: 0 <= j < k ==> s[j] != c
    ensures IndexOf(s, c) == k
  {
    IndexSpec(s, c);
  }

  predicate At(s: string, pat: string, j: int) {
    0 <= j && j + |pat| <= |s| && forall i :: 0 <= i < |pat| ==> s[j + i] == pat[i]
  }

  function FindFrom(s: string, pat: string, i: nat): (k: nat)
    requires i <= |s|
    ensures i <= k <= |s| && (k < |s| ==> k + |pat| <= |s|)
    decreases |s| - i
  {
    if i == |s| || At(s, pat, i) then i else FindFrom(s, pat, i + 1)
  }

  /** strstr/memmem: the first position of pat, or the length. */
  function Find(s: string, pat: string): (k: nat)
    ensures k <= |s| && (k < |s| ==> k + |pat| <= |s|)
  {
    FindFrom(s, pat, 0)
  }

  lemma {:induction false} FindFromSpec(s: string, pat: string, i: nat)
    requires i <= |s|
    ensures var k := FindFrom(s, pat, i); (k < |s| ==> At(s, pat, k)) && forall j :: i <= j < k ==> !At(s, pat, j)
    decreases |s| - i
  {
    if i < |s| && !At(s, pat, i) { FindFromSpec(s, pat, i + 1); }
  }

  lemma FindSpec(s: string, pat: string)
    ensures var k := Find(s, pat); (k < |s| ==> At(s, pat, k)) && forall j :: 0 <= j < k ==> !At(s, pat, j)
  {
    FindFromSpec(s, pat, 0);
  }

  lemma FindIs(s: string, pat: string, k: nat)
    requires pat != "" && k <= |s| && (k < |s| ==> At(s, pat, k)) && forall j :: 0 <= j < k ==> !At(s, pat, j)
    ensures Find(s, pat) == k
  {
    FindSpec(s, pat);
  }
}
