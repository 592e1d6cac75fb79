/** The weight store: item biases, item-feature biases and the four latent-factor matrices. */
module WeightStore {
  import opened Matrices

  datatype Weights = Weights(wI: seq<real>, wIf: seq<real>, vU: Matrix, vI: Matrix, vUf: Matrix, vIf: Matrix)

  /**
   * Shapes for `users` users, `items` items, `userColumns` user-feature and
   * `itemColumns` item-feature columns and `factors` latent factors.
   */
  predicate Shaped(w: Weights, users: nat, items: nat, userColumns: nat, itemColumns: nat, factors: nat) {
    && |w.wI| == items && |w.wIf| == itemColumns
    && w.vU.rows == users && w.vU.cols == factors
    && w.vI.rows == items && w.vI.cols == factors
    && w.vUf.rows == userColumns && w.vUf.cols == factors
    && w.vIf.rows == itemColumns && w.vIf.cols == factors
  }

  /** `a` and `b` have the same shapes: each array of `a` has the dimensions of its counterpart in `b`. */
  predicate SameDims(a: Weights, b: Weights) {
    && |a.wI| == |b.wI| && |a.wIf| == |b.wIf|
    && a.vU.rows == b.vU.rows && a.vU.cols == b.vU.cols
    && a.vI.rows == b.vI.rows && a.vI.cols == b.vI.cols
    && a.vUf.rows == b.vUf.rows && a.vUf.cols == b.vUf.cols
    && a.vIf.rows == b.vIf.rows && a.vIf.cols == b.vIf.cols
  }

  /**
   * `_init_weights`: zero biases; user and item factors drawn from the
   * normal stream in that order; feature factors drawn only when the
   * corresponding feature table was supplied, and otherwise zero.
   */
  function InitialWeights(users: nat, items: nat, userColumns: nat, itemColumns: nat, factors: nat, sigma: real,
                          userDrawn: bool, itemDrawn: bool, stream: NormalStream): (w: Weights)
    ensures Shaped(w, users, items, userColumns, itemColumns, factors)
    ensures forall k :: 0 <= k < items ==> w.wI[k] == 0.0
    ensures forall k :: 0 <= k < itemColumns ==> w.wIf[k] == 0.0
    ensures !userDrawn ==> IsZero(w.vUf)
    ensures !itemDrawn ==> IsZero(w.vIf)
  {
    var itemOffset := users * factors;
    var userFeatureOffset := itemOffset + items * factors;
    var itemFeatureOffset := userFeatureOffset + (if userDrawn then userColumns * factors else 0);
    Weights(
      ZeroVector(items),
      ZeroVector(itemColumns),
      NormalDraws(stream, 0, users, factors, sigma),
      NormalDraws(stream, itemOffset, items, factors, sigma),
      if userDrawn then NormalDraws(stream, userFeatureOffset, userColumns, factors, sigma) else Zeros(userColumns, factors),
      if itemDrawn then NormalDraws(stream, itemFeatureOffset, itemColumns, factors, sigma) else Zeros(itemColumns, factors))
  }
}
