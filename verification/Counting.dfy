/** Finite sets of indices and their sizes. */
module Counting {

  predicate Between(lo: nat, i: nat, hi: nat) {
    lo <= i < hi
  }

  lemma {:induction false} RangeSize(lo: nat, hi: nat)
    requires lo <= hi
    ensures |set i: nat | i < hi && Between(lo, i, hi)| == hi - lo
    decreases hi - lo
  {
    var range := set i: nat | i < hi && Between(lo, i, hi);
    if lo == hi {
      assert range == {};
    } else {
      var next := lo + 1;
      RangeSize(next, hi);
      assert range == {lo} + set i: nat | i < hi && Between(next, i, hi);
    }
  }

  function Range(lo: nat, hi: nat): (range: set<nat>)
    ensures forall i: nat :: i in range <==> lo <= i < hi
    ensures lo <= hi ==> |range| == hi - lo
  {
    if lo <= hi then RangeSize(lo, hi); set i: nat | i < hi && Between(lo, i, hi) else {}
  }

  function Below(n: nat): set<nat> {
    Range(0, n)
  }

  function SetOf<T>(s: seq<T>): set<T> {
    set x | x in s
  }

  ghost predicate Distinct<T>(s: seq<T>) {
    forall a, b :: 0 <= a < b < |s| ==> s[a] != s[b]
  }

  /** The order lists `lo..hi`, each once. */
  ghost predicate Lists(order: seq<nat>, lo: nat, hi: nat) {
    Distinct(order) && lo + |order| == hi && forall i :: i in order ==> lo <= i < hi
  }

  lemma {:induction false} DistinctSize<T>(s: seq<T>)
    requires Distinct(s)
    ensures |SetOf(s)| == |s|
  {
    if s != [] {
      var rest := s[1..];
      assert s == [s[0]] + rest;
      DistinctSize(rest);
      assert SetOf(s) == {s[0]} + SetOf(rest);
    }
  }

  /** A list without repetition fills its range. */
  lemma ListsCoverRange(order: seq<nat>, lo: nat, hi: nat)
    requires Lists(order, lo, hi)
    ensures SetOf(order) == Range(lo, hi)
  {
    DistinctSize(order);
    SubsetOfSameSize(SetOf(order), Range(lo, hi));
  }

  lemma {:induction false} SubsetIsSmaller<T>(a: set<T>, b: set<T>)
    requires a <= b
    ensures |a| <= |b|
  {
    if a != {} {
      var x :| x in a;
      SubsetIsSmaller(a - {x}, b - {x});
    }
  }

  lemma SubsetOfSameSize<T>(a: set<T>, b: set<T>)
    requires a <= b && |a| == |b|
    ensures a == b
  {
    if x :| x in b && x !in a {
      SubsetIsSmaller(a + {x}, b);
    }
  }
}
