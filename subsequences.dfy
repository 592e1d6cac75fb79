/**
 * Order-preserving filters: `dropna` and boolean-mask indexing keep the
 * entries that satisfy a test, in their original order.
 */
module Subsequences {
  import opened Ordering

  /** The entries of `s` that pass `keep`, in order. */
  function Filter<T>(s: seq<T>, keep: T -> bool): (r: seq<T>)
    ensures |r| <= |s|
    ensures forall k :: 0 <= k < |r| ==> keep(r[k])
  {
    if s == [] then []
    else
      var n := |s| - 1;
      Filter(s[..n], keep) + (if keep(s[n]) then [s[n]] else [])
  }

  /** The positions of the entries of `s` that pass `keep`, in increasing order. */
  function KeptPositions<T>(s: seq<T>, keep: T -> bool): seq<int>
  {
    if s == [] then []
    else
      var n := |s| - 1;
      KeptPositions(s[..n], keep) + (if keep(s[n]) then [n] else [])
  }

  /**
   * `Filter` is an order-preserving selection: its k-th entry is the entry
   * of `s` at the k-th kept position, the kept positions increase, and a
   * position is kept exactly when its entry passes `keep`.
   */
  lemma {:induction false} FilterSelectsKeptPositions<T>(s: seq<T>, keep: T -> bool)
    ensures |KeptPositions(s, keep)| == |Filter(s, keep)|
    ensures Increasing(KeptPositions(s, keep))
    ensures forall k :: 0 <= k < |Filter(s, keep)| ==>
      0 <= KeptPositions(s, keep)[k] < |s| && Filter(s, keep)[k] == s[KeptPositions(s, keep)[k]]
    ensures forall j :: j in KeptPositions(s, keep) <==> 0 <= j < |s| && keep(s[j])
  {
    if s != [] {
      var n := |s| - 1;
      var p := s[..n];
      FilterSelectsKeptPositions(p, keep);
      assert forall j :: 0 <= j < n ==> p[j] == s[j];
    }
  }

  /** Nothing is dropped from a sequence whose every entry passes. */
  lemma {:induction false} FilterKeepsAll<T>(s: seq<T>, keep: T -> bool)
    requires forall k :: 0 <= k < |s| ==> keep(s[k])
    ensures Filter(s, keep) == s
  {
    if s != [] {
      var n := |s| - 1;
      FilterKeepsAll(s[..n], keep);
      assert s[..n] + [s[n]] == s;
    }
  }
}
