/**
 * Sorted sequences of integers: the sorting that numpy and pandas perform on
 * identifier columns (`np.sort(np.unique(..))`, `sorted(..)`, `sort_values`).
 */
module Ordering {

  /** Sorted with no repeated element: the shape of the output of `np.unique`. */
  predicate Increasing(s: seq<int>) {
    forall i, j :: 0 <= i < j < |s| ==> s[i] < s[j]
  }

  /** Sorted, repeats allowed. */
  predicate NonDecreasing(s: seq<int>) {
    forall i, j :: 0 <= i < j < |s| ==> s[i] <= s[j]
  }

  /** No element occurs twice. */
  predicate NoDuplicates<T(==)>(s: seq<T>) {
    forall i, j :: 0 <= i < j < |s| ==> s[i] != s[j]
  }

  /** `np.arange(n)`: the positions 0, 1, ..., n - 1. */
  function Range(n: nat): seq<int> {
    seq(n, k => k)
  }

  /** Inserts `x` into a sorted sequence, keeping every element. */
  function Insert(x: int, s: seq<int>): (r: seq<int>)
    requires NonDecreasing(s)
    ensures NonDecreasing(r)
    ensures multiset(r) == multiset(s) + multiset{x}
  {
    if s == [] || x <= s[0] then
      PrependSorted(x, s);
      [x] + s
    else
      var tail := Insert(x, s[1..]);
      LowerBound(s[0], tail, s[1..] + [x]);
      PrependSorted(s[0], tail);
      assert s == [s[0]] + s[1..];
      [s[0]] + tail
  }

  /** A lower bound of a sorted sequence can be put in front of it. */
  lemma PrependSorted(x: int, s: seq<int>)
    requires NonDecreasing(s)
    requires s == [] || x <= s[0] || forall j :: 0 <= j < |s| ==> x <= s[j]
    ensures NonDecreasing([x] + s)
  {
    var r := [x] + s;
    forall i, j | 0 <= i < j < |r| ensures r[i] <= r[j] {
      assert r[j] == s[j - 1];
      if i > 0 {
        assert r[i] == s[i - 1];
      } else if s != [] && x <= s[0] {
        assert s[0] <= s[j - 1];
      }
    }
  }

  /** A bound on every element of `b` bounds every element of a rearrangement of `b`. */
  lemma LowerBound(lo: int, a: seq<int>, b: seq<int>)
    requires multiset(a) == multiset(b)
    requires forall j :: 0 <= j < |b| ==> lo <= b[j]
    ensures forall j :: 0 <= j < |a| ==> lo <= a[j]
  {
    forall j | 0 <= j < |a| ensures lo <= a[j] {
      assert a[j] in multiset(b);
    }
  }

  /** `sorted(s)`: a sorted rearrangement of `s`. */
  function Sort(s: seq<int>): (r: seq<int>)
    ensures NonDecreasing(r)
    ensures multiset(r) == multiset(s)
    ensures |r| == |s|
  {
    if s == [] then []
    else
      assert s == [s[0]] + s[1..];
      var r := Insert(s[0], Sort(s[1..]));
      assert |r| == |multiset(r)|;
      r
  }

  /** Two sorted sequences with the same elements, counted with multiplicity, are equal. */
  lemma {:induction false} SortedIsDetermined(a: seq<int>, b: seq<int>)
    requires NonDecreasing(a) && NonDecreasing(b)
    requires multiset(a) == multiset(b)
    ensures a == b
  {
    assert |a| == |multiset(a)| == |multiset(b)| == |b|;
    if a != [] {
      assert a[0] in multiset(b);
      assert b[0] in multiset(a);
      assert a[0] == b[0];
      assert a == [a[0]] + a[1..];
      assert b == [b[0]] + b[1..];
      assert multiset(a[1..]) == multiset(a) - multiset{a[0]};
      assert multiset(b[1..]) == multiset(b) - multiset{b[0]};
      SortedIsDetermined(a[1..], b[1..]);
    }
  }

  /** Adds `x` to a strictly increasing sequence unless it is already there. */
  function InsertUnique(x: int, s: seq<int>): (r: seq<int>)
    requires Increasing(s)
    ensures Increasing(r)
    ensures forall y :: y in r <==> y == x || y in s
  {
    if s == [] || x < s[0] then
      PrependIncreasing(x, s);
      [x] + s
    else if x == s[0] then s
    else
      var rest := s[1..];
      var tail := InsertUnique(x, rest);
      forall j | 0 <= j < |tail| ensures s[0] < tail[j] {
        assert tail[j] in tail;
        if tail[j] != x {
          var k :| 0 <= k < |rest| && rest[k] == tail[j];
          assert rest[k] == s[k + 1];
        }
      }
      PrependIncreasing(s[0], tail);
      assert s == [s[0]] + rest;
      [s[0]] + tail
  }

  /** A strict lower bound of an increasing sequence can be put in front of it. */
  lemma PrependIncreasing(x: int, s: seq<int>)
    requires Increasing(s)
    requires s == [] || x < s[0] || forall j :: 0 <= j < |s| ==> x < s[j]
    ensures Increasing([x] + s)
  {
    var r := [x] + s;
    forall i, j | 0 <= i < j < |r| ensures r[i] < r[j] {
      assert r[j] == s[j - 1];
      if i > 0 {
        assert r[i] == s[i - 1];
      } else if s != [] && x < s[0] && j > 1 {
        assert s[0] < s[j - 1];
      }
    }
  }

  /** `np.sort(np.unique(s))`: the distinct elements of `s` in increasing order. */
  function SortedUnique(s: seq<int>): (r: seq<int>)
    ensures Increasing(r)
    ensures forall y :: y in r <==> y in s
  {
    if s == [] then []
    else
      assert s == [s[0]] + s[1..];
      InsertUnique(s[0], SortedUnique(s[1..]))
  }

  /** A strictly increasing sequence is determined by its set of elements. */
  lemma IncreasingIsDetermined(a: seq<int>, b: seq<int>)
    requires Increasing(a) && Increasing(b)
    requires forall y :: y in a <==> y in b
    ensures a == b
  {
    assert NoDuplicates(a) && NoDuplicates(b);
    NoDuplicatesMultiplicity(a);
    NoDuplicatesMultiplicity(b);
    forall y ensures multiset(a)[y] == multiset(b)[y] {
      assert y in a <==> y in multiset(a);
      assert y in b <==> y in multiset(b);
    }
    assert multiset(a) == multiset(b);
    SortedIsDetermined(a, b);
  }

  /** A sequence has no repeats exactly when no element occurs in it more than once. */
  lemma {:induction false} NoDuplicatesMultiplicity<T>(s: seq<T>)
    ensures NoDuplicates(s) <==> forall y :: multiset(s)[y] <= 1
  {
    if s != [] {
      var p, x := s[..|s| - 1], s[|s| - 1];
      assert s == p + [x];
      NoDuplicatesMultiplicity(p);
      if NoDuplicates(s) {
        assert NoDuplicates(p);
        assert x !in p;
        assert multiset(p)[x] == 0;
      } else {
        if NoDuplicates(p) {
          var i, j :| 0 <= i < j < |s| && s[i] == s[j];
          assert j == |s| - 1;
          assert p[i] == x;
          assert p[i] in multiset(p);
          assert multiset(s) == multiset(p) + multiset{x};
          assert multiset(s)[x] >= 2;
        } else {
          var y :| multiset(p)[y] > 1;
          assert multiset(s) == multiset(p) + multiset{x};
          assert multiset(s)[y] > 1;
        }
      }
    }
  }

  /** Every element of `Range(n)` occurs in it once. */
  lemma RangeMultiplicity(n: nat)
    ensures NoDuplicates(Range(n))
    ensures forall y :: y in Range(n) <==> 0 <= y < n
    ensures forall y :: multiset(Range(n))[y] == if 0 <= y < n then 1 else 0
  {
    NoDuplicatesMultiplicity(Range(n));
    forall y | 0 <= y < n ensures y in Range(n) {
      assert Range(n)[y] == y;
    }
    forall y ensures multiset(Range(n))[y] == if 0 <= y < n then 1 else 0 {
      if 0 <= y < n {
        assert Range(n)[y] == y;
        assert y in multiset(Range(n));
      } else {
        assert y !in Range(n);
      }
    }
  }
}
