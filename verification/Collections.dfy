/** Facts about lists and sets of numbers that several components share. */
module Collections {

  predicate Distinct(s: seq<nat>) {
    forall i, j :: 0 <= i < j < |s| ==> s[i] != s[j]
  }

  /** The first position of `v`, or the length of the list. */
  function IndexOf(s: seq<nat>, v: nat): (i: nat)
    ensures i <= |s| && (i < |s| ==> s[i] == v) && (i == |s| ==> v !in s)
  {
    if s == [] || s[0] == v then 0 else 1 + IndexOf(s[1..], v)
  }

  function Iota(from: nat, end: nat): (r: seq<nat>)
    requires from <= end
    ensures |r| == end - from && forall i :: 0 <= i < |r| ==> r[i] == from + i
    decreases end - from
  {
    if from == end then [] else [from] + Iota(from + 1, end)
  }

  lemma CardWithout(t: set<nat>, a: nat)
    ensures |t| == |t - {a}| + (if a in t then 1 else 0)
  {}

  function ToSet(s: seq<nat>): set<nat> {
    set c | c in s
  }

  lemma {:induction false} ToSetSize(s: seq<nat>)
    ensures |ToSet(s)| <= |s| && (Distinct(s) ==> |ToSet(s)| == |s|)
  {
    if s != [] {
      ToSetSize(s[1..]);
      assert ToSet(s) == {s[0]} + ToSet(s[1..]);
    }
  }

  lemma SubsetSize(a: set<nat>, b: set<nat>)
    requires a <= b
    ensures |a| <= |b|
  {
    assert b == a + (b - a);
  }

  /** A duplicate-free list is no longer than one that has all its elements. */
  lemma {:induction false} Pigeonhole(a: seq<nat>, b: seq<nat>)
    requires Distinct(a) && forall c :: c in a ==> c in b
    ensures |a| <= |b|
  {
    ToSetSize(a);
    ToSetSize(b);
    SubsetSize(ToSet(a), ToSet(b));
  }
}
