/** Counting the elements of a sequence that satisfy a predicate: the slots of a
    pool or table, or the threads of a protocol, that are in a given condition. */
module Counting {
  import opened Options

  function Count<T>(s: seq<T>, p: T -> bool): (n: nat)
    ensures n <= |s|
  {
    if s == [] then 0
    else Count(s[..|s| - 1], p) + (if p(s[|s| - 1]) then 1 else 0)
  }

  /** Overwriting one position moves the count by that position alone. */
  lemma {:induction false} CountUpdate<T>(s: seq<T>, i: nat, v: T, p: T -> bool)
    requires i < |s|
    ensures Count(s[i := v], p) == Count(s, p) - (if p(s[i]) then 1 else 0) + (if p(v) then 1 else 0)
  {
    var n := |s| - 1;
    if i == n {
      assert s[i := v][..n] == s[..n];
    } else {
      assert s[i := v][..n] == s[..n][i := v];
      CountUpdate(s[..n], i, v, p);
    }
  }

  lemma CountPush<T>(s: seq<T>, i: nat, p: T -> bool)
    requires i < |s|
    ensures Count(s[..i + 1], p) == Count(s[..i], p) + (if p(s[i]) then 1 else 0)
  {
    assert s[..i + 1][..i] == s[..i];
  }

  /** A position that satisfies p is counted. */
  lemma {:induction false} CountWitness<T>(s: seq<T>, i: nat, p: T -> bool)
    requires i < |s| && p(s[i])
    ensures Count(s, p) > 0
  {
    if i < |s| - 1 {
      CountWitness(s[..|s| - 1], i, p);
    }
  }

  lemma {:induction false} CountTwo<T>(s: seq<T>, i: nat, j: nat, p: T -> bool)
    requires i < j < |s| && p(s[i]) && p(s[j])
    ensures Count(s, p) >= 2
  {
    if j < |s| - 1 {
      CountTwo(s[..|s| - 1], i, j, p);
    } else {
      CountWitness(s[..|s| - 1], i, p);
    }
  }

  /** A count below the length leaves a position that does not satisfy p. */
  lemma {:induction false} CountGap<T>(s: seq<T>, p: T -> bool) returns (i: nat)
    requires Count(s, p) < |s|
    ensures i < |s| && !p(s[i])
  {
    i := |s| - 1;
    if p(s[i]) {
      i := CountGap(s[..|s| - 1], p);
    }
  }

  lemma {:induction false} CountFull<T>(s: seq<T>, p: T -> bool)
    requires Count(s, p) == |s|
    ensures forall i :: 0 <= i < |s| ==> p(s[i])
  {
    if s != [] {
      CountFull(s[..|s| - 1], p);
    }
  }

  lemma {:induction false} CountNone<T>(s: seq<T>, p: T -> bool)
    requires forall i :: 0 <= i < |s| ==> !p(s[i])
    ensures Count(s, p) == 0
  {
    if s != [] {
      CountNone(s[..|s| - 1], p);
    }
  }

  /** The first position that satisfies p, as a scan from the left finds it. */
  function FirstIndex<T>(s: seq<T>, p: T -> bool): (r: Option<nat>)
    ensures r.Some? ==> r.value < |s| && p(s[r.value]) && forall j :: 0 <= j < r.value ==> !p(s[j])
    ensures r.None? ==> forall j :: 0 <= j < |s| ==> !p(s[j])
  {
    if s == [] then None
    else if p(s[0]) then Some(0)
    else
      match FirstIndex(s[1..], p)
      case None => assert s == [s[0]] + s[1..]; None
      case Some(i) => assert forall j :: 1 <= j < i + 1 ==> s[j] == s[1..][j - 1]; Some(i + 1)
  }
}
