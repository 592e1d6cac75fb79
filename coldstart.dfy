/**
 * The cold-start policy of `predict` and `recommend_for_users`: 'nan' keeps
 * every row, 'drop' keeps the complete rows in order, anything else is a
 * ValueError.
 */
module ColdStart {
  import opened Wrappers
  import opened Exceptions
  import opened Ordering
  import opened Subsequences

  const PolicyMessage := "param [cold_start] must be set to either 'nan' or 'drop'"

  /** Applies `policy` to `results`, where `complete` tells a row without missing values. */
  function ApplyColdStart<T>(results: seq<T>, complete: T -> bool, policy: string): (r: Result<seq<T>, Error>)
    ensures policy == "nan" ==> r == Ok(results)
    ensures policy == "drop" ==> r.Ok? && forall k :: 0 <= k < |r.value| ==> complete(r.value[k])
    ensures policy != "nan" && policy != "drop" ==> r == Err(ValueError(PolicyMessage))
  {
    if policy == "nan" then Ok(results)
    else if policy == "drop" then Ok(Filter(results, complete))
    else Err(ValueError(PolicyMessage))
  }

  /**
   * 'drop' is an order-preserving filter of 'nan': there are increasing
   * positions into the 'nan' result, exactly the complete ones, such that
   * the k-th row of the 'drop' result is the 'nan' row at the k-th position.
   */
  lemma DropIsFilterOfNan<T>(results: seq<T>, complete: T -> bool)
    ensures var nan := ApplyColdStart(results, complete, "nan").value;
      var drop := ApplyColdStart(results, complete, "drop").value;
      var kept := KeptPositions(nan, complete);
      && |nan| == |results|
      && |kept| == |drop|
      && Increasing(kept)
      && (forall k :: 0 <= k < |drop| ==> 0 <= kept[k] < |nan| && drop[k] == nan[kept[k]])
      && (forall j :: j in kept <==> 0 <= j < |nan| && complete(nan[j]))
  {
    FilterSelectsKeptPositions(results, complete);
  }

  /** When no row has a missing value, 'drop' returns the same rows as 'nan'. */
  lemma DropKeepsCompleteResults<T>(results: seq<T>, complete: T -> bool)
    requires forall k :: 0 <= k < |results| ==> complete(results[k])
    ensures ApplyColdStart(results, complete, "drop") == ApplyColdStart(results, complete, "nan")
  {
    FilterKeepsAll(results, complete);
  }
}
