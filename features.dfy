/**
 * User and item feature tables (`_init_features`): a table is accepted only
 * if its identifier column covers the index exactly, and its rows are then
 * stored in index order; without a table a single all-zero column is used.
 */
module Features {
  import opened Wrappers
  import opened Ordering
  import opened Matrices

  /** A feature table: the identifier column and the feature columns beside it. */
  datatype Table = Table(ids: seq<int>, values: Matrix)

  /** Every table has one identifier per row of feature values. */
  type FeatureTable = t: Table | |t.ids| == t.values.rows witness Table([], Grid(0, 0, []))

  /** Every identifier of the table is in the index (`Index.map` yields no missing value). */
  predicate AllKnown(t: FeatureTable, toIndex: map<int, int>) {
    forall k :: 0 <= k < |t.ids| ==> t.ids[k] in toIndex
  }

  /** The identifier column mapped to index positions. */
  function IndexColumn(t: FeatureTable, toIndex: map<int, int>): (col: seq<int>)
    requires AllKnown(t, toIndex)
    ensures |col| == |t.ids|
  {
    seq(|t.ids|, k requires 0 <= k < |t.ids| && AllKnown(t, toIndex) => toIndex[t.ids[k]])
  }

  /** The acceptance test: the sorted mapped identifiers equal the index positions `idx`. */
  predicate Covers(t: FeatureTable, toIndex: map<int, int>, idx: seq<int>)
    ensures Covers(t, toIndex, idx) ==> AllKnown(t, toIndex) && |idx| == |t.ids|
  {
    AllKnown(t, toIndex) && Sort(IndexColumn(t, toIndex)) == idx
  }

  /**
   * A table is accepted exactly when its identifiers are all known and map
   * one-to-one onto the positions 0 .. n - 1.
   */
  lemma CoversExactly(t: FeatureTable, toIndex: map<int, int>, n: nat)
    ensures Covers(t, toIndex, Range(n)) <==>
      AllKnown(t, toIndex) && NoDuplicates(IndexColumn(t, toIndex))
      && forall k :: k in IndexColumn(t, toIndex) <==> 0 <= k < n
  {
    if AllKnown(t, toIndex) {
      var col := IndexColumn(t, toIndex);
      if Covers(t, toIndex, Range(n)) {
        CoveredColumnIsRange(col, n);
      }
      if NoDuplicates(col) && forall k :: k in col <==> 0 <= k < n {
        RangeColumnIsCovered(col, n);
      }
    }
  }

  /** A column whose sorted form is `Range(n)` has no repeats and holds exactly 0 .. n - 1. */
  lemma CoveredColumnIsRange(col: seq<int>, n: nat)
    requires Sort(col) == Range(n)
    ensures NoDuplicates(col) && forall k :: k in col <==> 0 <= k < n
  {
    var sorted := Sort(col);
    assert multiset(col) == multiset(sorted);
    RangeMultiplicity(n);
    forall y ensures multiset(col)[y] <= 1 {
      assert multiset(col)[y] == multiset(Range(n))[y];
    }
    NoDuplicatesMultiplicity(col);
    forall k ensures k in col <==> 0 <= k < n {
      assert k in col <==> k in multiset(col);
      assert k in multiset(Range(n)) <==> k in Range(n);
    }
  }

  /** A column without repeats that holds exactly 0 .. n - 1 sorts to `Range(n)`. */
  lemma RangeColumnIsCovered(col: seq<int>, n: nat)
    requires NoDuplicates(col) && forall k :: k in col <==> 0 <= k < n
    ensures Sort(col) == Range(n)
  {
    RangeMultiplicity(n);
    NoDuplicatesMultiplicity(col);
    forall y ensures multiset(col)[y] == multiset(Range(n))[y] {
      assert y in col <==> y in multiset(col);
    }
    assert multiset(col) == multiset(Range(n));
    assert NonDecreasing(Range(n));
    SortedIsDetermined(Sort(col), Range(n));
  }

  /** The position of `x` in `s`. */
  function PositionOf(s: seq<int>, x: int): (j: nat)
    requires x in s
    ensures j < |s| && s[j] == x
  {
    if s[0] == x then 0 else 1 + PositionOf(s[1..], x)
  }

  /** `sort_index()` on an accepted table: row k holds the features of the identifier at position k. */
  function OrderRows(t: FeatureTable, toIndex: map<int, int>, n: nat): (m: Matrix)
    requires Covers(t, toIndex, Range(n))
    ensures m.rows == n && m.cols == t.values.cols
    ensures forall j :: 0 <= j < |t.ids| ==> 0 <= toIndex[t.ids[j]] < n && m.cells[toIndex[t.ids[j]]] == t.values.cells[j]
  {
    CoversExactly(t, toIndex, n);
    var col := IndexColumn(t, toIndex);
    var cells := seq(n, k requires 0 <= k < n => t.values.cells[PositionOf(col, k)]);
    var m := Grid(n, t.values.cols, cells);
    forall j | 0 <= j < |t.ids| ensures 0 <= toIndex[t.ids[j]] < n && m.cells[toIndex[t.ids[j]]] == t.values.cells[j] {
      assert col[j] == toIndex[t.ids[j]] && col[j] in col;
      assert col[PositionOf(col, col[j])] == col[j];
    }
    m
  }

  /** The outcome of the acceptance test for an optional table: no table is always accepted. */
  predicate Accepted(table: Option<FeatureTable>, toIndex: map<int, int>, idx: seq<int>) {
    table.None? || Covers(table.value, toIndex, idx)
  }

  /**
   * The stored feature matrix for an optional table over the index positions
   * `idx`, or `None` when the table does not cover the index (a KeyError).
   */
  function BuildFeatures(table: Option<FeatureTable>, toIndex: map<int, int>, idx: seq<int>): (r: Option<Matrix>)
    requires idx == Range(|idx|)
    ensures table.None? ==> r == Some(Zeros(|idx|, 1))
    ensures r.Some? <==> Accepted(table, toIndex, idx)
    ensures r.Some? ==> r.value.rows == |idx|
    ensures r.Some? && table.Some? ==>
      r.value.cols == table.value.values.cols
      && forall j :: 0 <= j < |table.value.ids| ==>
        0 <= toIndex[table.value.ids[j]] < |idx|
        && r.value.cells[toIndex[table.value.ids[j]]] == table.value.values.cells[j]
  {
    match table
    case None => Some(Zeros(|idx|, 1))
    case Some(t) => if Covers(t, toIndex, idx) then Some(OrderRows(t, toIndex, |idx|)) else None
  }
}
