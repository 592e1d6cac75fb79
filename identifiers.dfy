/**
 * The identifier index of a fitted model: the sorted distinct identifiers
 * (`index_to_user`, `index_to_item`) and the reverse lookup from an identifier
 * to its zero-based position (`user_to_index`, `item_to_index`).
 */
module Identifiers {
  import opened Wrappers
  import opened Ordering

  /**
   * The reverse of the position-to-identifier table, as built by
   * `pd.Series(data=ids.index, index=ids.values)`: each identifier is sent
   * to its position (`ReverseMapInverts` states what it is).
   */
  function ReverseMap(ids: seq<int>): (m: map<int, int>)
    ensures |m| <= |ids|
  {
    if ids == [] then map[]
    else
      var n := |ids| - 1;
      ReverseMap(ids[..n])[ids[n] := n]
  }

  /** The keys of the reverse map are the identifiers. */
  lemma {:induction false} ReverseMapKeys(ids: seq<int>)
    ensures forall x :: x in ReverseMap(ids) <==> x in ids
  {
    if ids != [] {
      var n := |ids| - 1;
      ReverseMapKeys(ids[..n]);
      assert ids == ids[..n] + [ids[n]];
    }
  }

  /** For sorted distinct identifiers the reverse map sends each identifier to its position. */
  lemma {:induction false} ReverseMapPositions(ids: seq<int>)
    requires Increasing(ids)
    ensures forall k :: 0 <= k < |ids| ==> ids[k] in ReverseMap(ids) && ReverseMap(ids)[ids[k]] == k
  {
    if ids != [] {
      var n := |ids| - 1;
      var prefix := ids[..n];
      assert forall k :: 0 <= k < n ==> prefix[k] == ids[k] && ids[k] != ids[n];
      ReverseMapPositions(prefix);
    }
  }

  /**
   * For sorted distinct identifiers the reverse map has exactly those
   * identifiers as keys, sends each to its position, and every position
   * it gives holds the identifier looked up.
   */
  lemma ReverseMapInverts(ids: seq<int>)
    requires Increasing(ids)
    ensures forall x :: x in ReverseMap(ids) <==> x in ids
    ensures forall k :: 0 <= k < |ids| ==> ids[k] in ReverseMap(ids) && ReverseMap(ids)[ids[k]] == k
    ensures forall x :: x in ReverseMap(ids) ==> 0 <= ReverseMap(ids)[x] < |ids| && ids[ReverseMap(ids)[x]] == x
  {
    ReverseMapKeys(ids);
    ReverseMapPositions(ids);
    forall x | x in ReverseMap(ids) ensures 0 <= ReverseMap(ids)[x] < |ids| && ids[ReverseMap(ids)[x]] == x {
      var k :| 0 <= k < |ids| && ids[k] == x;
    }
  }

  /** `ids` is an identifier table and `toIndex` its reverse map. */
  ghost predicate IsIndex(ids: seq<int>, toIndex: map<int, int>) {
    Increasing(ids) && toIndex == ReverseMap(ids)
  }

  /** `Series.map(to_index)` on one value: the position, or a missing value for an unknown identifier. */
  function Lookup(toIndex: map<int, int>, x: int): (r: Option<int>)
    ensures r.None? <==> x !in toIndex
    ensures r.Some? ==> x in toIndex && r.value == toIndex[x]
  {
    if x in toIndex then Some(toIndex[x]) else None
  }

  /** `Series.map(index_to_id)` on one value: the identifier at a position, or missing. */
  function IdentifierAt(ids: seq<int>, k: Option<int>): (r: Option<int>)
    ensures r.Some? <==> k.Some? && 0 <= k.value < |ids|
    ensures r.Some? ==> r.value in ids && r.value == ids[k.value]
  {
    if k.Some? && 0 <= k.value < |ids| then Some(ids[k.value]) else None
  }

  /**
   * Looking an identifier up and mapping the position back gives the
   * identifier again, and only unknown identifiers come back missing.
   */
  lemma LookupRoundTrip(ids: seq<int>, toIndex: map<int, int>, x: int)
    requires IsIndex(ids, toIndex)
    ensures Lookup(toIndex, x).None? <==> x !in ids
    ensures x in ids ==> IdentifierAt(ids, Lookup(toIndex, x)) == Some(x)
  {
    ReverseMapInverts(ids);
  }

  /**
   * One side of the identifier index: `index_to_user` (the same object as
   * `user_id`), `user_to_index` and `user_idx`, or their item counterparts.
   */
  datatype Index = Index(ids: seq<int>, toIndex: map<int, int>, positions: seq<int>)

  /** The identifiers are sorted and distinct, `toIndex` is their reverse map and `positions` is `0 .. |ids|-1`. */
  ghost predicate WellFormed(ix: Index) {
    IsIndex(ix.ids, ix.toIndex) && ix.positions == Range(|ix.ids|)
  }

  /** The index of the identifiers in one column of the interactions (`np.sort(np.unique(column))`). */
  function BuildIndex(column: seq<int>): (ix: Index)
    ensures WellFormed(ix)
    ensures forall x :: x in ix.ids <==> x in column
  {
    var ids := SortedUnique(column);
    Index(ids, ReverseMap(ids), Range(|ids|))
  }

  /** A well-formed index over exactly the identifiers of `column` is the one `BuildIndex` builds. */
  lemma IndexIsDetermined(ix: Index, column: seq<int>)
    requires WellFormed(ix)
    requires forall x :: x in ix.ids <==> x in column
    ensures ix == BuildIndex(column)
  {
    var built := BuildIndex(column);
    IncreasingIsDetermined(ix.ids, built.ids);
  }
}
