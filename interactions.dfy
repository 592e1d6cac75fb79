/**
 * Interactions mapped to index pairs, and the per-user observed-item lists
 * that the negative sampler consults (`_init_interactions`).
 */
module Interactions {
  import opened Wrappers
  import opened Exceptions
  import opened Ordering
  import opened Identifiers
  import opened Subsequences

  /** One observed interaction: (user, item), as identifiers or as index positions. */
  type Pair = (int, int)

  /** The user column of an interaction table. */
  function UserColumn(pairs: seq<Pair>): seq<int> {
    seq(|pairs|, k requires 0 <= k < |pairs| => pairs[k].0)
  }

  /** The item column of an interaction table. */
  function ItemColumn(pairs: seq<Pair>): seq<int> {
    seq(|pairs|, k requires 0 <= k < |pairs| => pairs[k].1)
  }

  /** Both identifiers of the pair are in the index. */
  function Known(userToIndex: map<int, int>, itemToIndex: map<int, int>): Pair -> bool {
    (p: Pair) => p.0 in userToIndex && p.1 in itemToIndex
  }

  /** Every pair lies in the index range [0, users) x [0, items). */
  predicate InRange(pairs: seq<Pair>, users: nat, items: nat) {
    forall k :: 0 <= k < |pairs| ==> 0 <= pairs[k].0 < users && 0 <= pairs[k].1 < items
  }

  /**
   * The interactions mapped to index positions, with every pair whose user
   * or item is not in the index dropped: the behaviour the mapping code
   * documents, and the one this model uses.
   */
  function MapInteractions(pairs: seq<Pair>, userToIndex: map<int, int>, itemToIndex: map<int, int>): (r: seq<Pair>)
    ensures |r| == |Filter(pairs, Known(userToIndex, itemToIndex))|
    ensures forall k :: 0 <= k < |r| ==>
      var p := Filter(pairs, Known(userToIndex, itemToIndex))[k];
      r[k] == (userToIndex[p.0], itemToIndex[p.1])
  {
    if pairs == [] then []
    else
      var n := |pairs| - 1;
      var (u, i) := pairs[n];
      MapInteractions(pairs[..n], userToIndex, itemToIndex)
        + (if u in userToIndex && i in itemToIndex then [(userToIndex[u], itemToIndex[i])] else [])
  }

  /**
   * The mapping code as written: the cast to int32 runs before `dropna`, so
   * an unknown identifier makes the cast fail instead of being dropped.
   */
  function MapInteractionsAsWritten(pairs: seq<Pair>, userToIndex: map<int, int>, itemToIndex: map<int, int>): (r: Result<seq<Pair>, Error>)
    ensures r.Ok? <==> forall k :: 0 <= k < |pairs| ==> Known(userToIndex, itemToIndex)(pairs[k])
    ensures r.Ok? ==> r.value == MapInteractions(pairs, userToIndex, itemToIndex)
  {
    if !(forall k :: 0 <= k < |pairs| ==> pairs[k].0 in userToIndex) then
      Err(ValueError("Cannot convert non-finite values (NA or inf) to integer"))
    else if !(forall k :: 0 <= k < |pairs| ==> pairs[k].1 in itemToIndex) then
      Err(ValueError("Cannot convert non-finite values (NA or inf) to integer"))
    else
      FilterKeepsAll(pairs, Known(userToIndex, itemToIndex));
      Ok(MapInteractions(pairs, userToIndex, itemToIndex))
  }

  /** A pair with an unknown user is rejected by the code as written, but dropped as its comment says. */
  lemma AsWrittenRejectsUnknownPair()
    ensures MapInteractionsAsWritten([(1, 7), (2, 7)], map[1 := 0], map[7 := 0]).Err?
    ensures MapInteractions([(1, 7), (2, 7)], map[1 := 0], map[7 := 0]) == [(0, 0)]
  {
    var pairs: seq<Pair> := [(1, 7), (2, 7)];
    assert pairs[..1] == [(1, 7)];
    assert pairs[..1][..0] == [];
    assert !Known(map[1 := 0], map[7 := 0])(pairs[1]);
  }

  /**
   * With both indexes in place, every mapped pair is in range and maps back
   * to the identifiers of the kept pair at the same position.
   */
  lemma MappedPairsRoundTrip(pairs: seq<Pair>, users: seq<int>, userToIndex: map<int, int>, items: seq<int>, itemToIndex: map<int, int>)
    requires IsIndex(users, userToIndex) && IsIndex(items, itemToIndex)
    ensures InRange(MapInteractions(pairs, userToIndex, itemToIndex), |users|, |items|)
    ensures forall k :: 0 <= k < |MapInteractions(pairs, userToIndex, itemToIndex)| ==>
      var r := MapInteractions(pairs, userToIndex, itemToIndex)[k];
      (users[r.0], items[r.1]) == Filter(pairs, Known(userToIndex, itemToIndex))[k]
  {
    ReverseMapInverts(users);
    ReverseMapInverts(items);
    var kept := Filter(pairs, Known(userToIndex, itemToIndex));
    forall k | 0 <= k < |kept| ensures kept[k].0 in userToIndex && kept[k].1 in itemToIndex {
      assert Known(userToIndex, itemToIndex)(kept[k]);
    }
  }

  /** When every identifier is known, no row is dropped and each row maps back to its pair. */
  lemma MappingKeepsKnownRows(pairs: seq<Pair>, users: seq<int>, userToIndex: map<int, int>, items: seq<int>, itemToIndex: map<int, int>)
    requires IsIndex(users, userToIndex) && IsIndex(items, itemToIndex)
    requires forall k :: 0 <= k < |pairs| ==> pairs[k].0 in users && pairs[k].1 in items
    ensures |MapInteractions(pairs, userToIndex, itemToIndex)| == |pairs|
    ensures forall k :: 0 <= k < |pairs| ==>
      var r := MapInteractions(pairs, userToIndex, itemToIndex)[k];
      0 <= r.0 < |users| && 0 <= r.1 < |items| && (users[r.0], items[r.1]) == pairs[k]
  {
    ReverseMapInverts(users);
    ReverseMapInverts(items);
    FilterKeepsAll(pairs, Known(userToIndex, itemToIndex));
    MappedPairsRoundTrip(pairs, users, userToIndex, items, itemToIndex);
  }

  /**
   * An index built from the interactions themselves knows every identifier
   * in them, so mapping the interactions through it drops no row.
   */
  lemma OwnIndexKeepsAllRows(pairs: seq<Pair>)
    ensures |MapInteractions(pairs, BuildIndex(UserColumn(pairs)).toIndex, BuildIndex(ItemColumn(pairs)).toIndex)| == |pairs|
  {
    var users, items := BuildIndex(UserColumn(pairs)), BuildIndex(ItemColumn(pairs));
    forall k | 0 <= k < |pairs| ensures pairs[k].0 in users.ids && pairs[k].1 in items.ids {
      assert UserColumn(pairs)[k] == pairs[k].0 && ItemColumn(pairs)[k] == pairs[k].1;
    }
    MappingKeepsKnownRows(pairs, users.ids, users.toIndex, items.ids, items.toIndex);
  }

  /** The items of the rows whose user is `u`, in row order. */
  function ItemsOf(pairs: seq<Pair>, u: int): seq<int> {
    if pairs == [] then []
    else
      var n := |pairs| - 1;
      ItemsOf(pairs[..n], u) + (if pairs[n].0 == u then [pairs[n].1] else [])
  }

  /**
   * `user_items_py`: for each user the sorted items of that user's rows,
   * as built by `sort_values(['user_idx', 'item_idx']).groupby('user_idx')`.
   */
  function UserItems(pairs: seq<Pair>): (m: map<int, seq<int>>)
    ensures forall u :: u in m <==> u in UserColumn(pairs)
    ensures forall u :: u in m ==> NonDecreasing(m[u]) && multiset(m[u]) == multiset(ItemsOf(pairs, u))
  {
    map u | u in UserColumn(pairs) :: Sort(ItemsOf(pairs, u))
  }

  /**
   * The fill loop of `_init_interactions`: each user's items are stored in
   * the typed dictionary one key at a time, in the order `keys` lists them
   * (the plain dictionary comes out of `groupby`, so its keys are sorted).
   */
  method CopyToTyped(source: map<int, seq<int>>, keys: seq<int>) returns (typed: map<int, seq<int>>)
    requires forall u :: u in source <==> u in keys
    ensures typed == source
  {
    typed := map[];
    var k := 0;
    while k < |keys|
      invariant 0 <= k <= |keys|
      invariant forall u :: u in typed <==> u in keys[..k]
      invariant forall u :: u in typed ==> typed[u] == source[u]
    {
      var u := keys[k];
      assert u in keys;
      assert keys[..k + 1] == keys[..k] + [u];
      typed := typed[u := source[u]];
      k := k + 1;
    }
    assert keys[..k] == keys;
    forall u ensures u in typed <==> u in source {
      assert u in typed <==> u in keys;
    }
    assert typed.Keys == source.Keys;
    assert forall u :: u in source ==> typed[u] == source[u];
  }

  /** The items of user `u` are exactly the items of the pairs whose user is `u`. */
  lemma {:induction false} ItemsOfExact(pairs: seq<Pair>, u: int, i: int)
    ensures i in ItemsOf(pairs, u) <==> (u, i) in pairs
  {
    if pairs != [] {
      var n := |pairs| - 1;
      ItemsOfExact(pairs[..n], u, i);
      assert pairs == pairs[..n] + [pairs[n]];
    }
  }

  /**
   * The observed lists hold exactly the interactions: a user has an entry
   * with item `i` in it if and only if the pair (u, i) was observed.
   */
  lemma ObservedIsExact(pairs: seq<Pair>, u: int, i: int)
    ensures (u in UserItems(pairs) && i in UserItems(pairs)[u]) <==> (u, i) in pairs
  {
    ItemsOfExact(pairs, u, i);
    var m := UserItems(pairs);
    if (u, i) in pairs {
      var k :| 0 <= k < |pairs| && pairs[k] == (u, i);
      assert UserColumn(pairs)[k] == u;
      assert i in multiset(m[u]);
    }
    if u in m && i in m[u] {
      assert i in multiset(ItemsOf(pairs, u));
    }
  }

  /** Every interaction's item is in its user's observed list. */
  lemma InteractionIsObserved(pairs: seq<Pair>, k: nat)
    requires k < |pairs|
    ensures pairs[k].0 in UserItems(pairs) && pairs[k].1 in UserItems(pairs)[pairs[k].0]
  {
    assert pairs[k] in pairs;
    ObservedIsExact(pairs, pairs[k].0, pairs[k].1);
  }

  /** The sum of the list lengths for the users in `keys`. */
  function TotalLength(m: map<int, seq<int>>, keys: seq<int>): nat
    requires forall j :: 0 <= j < |keys| ==> keys[j] in m
  {
    if keys == [] then 0
    else
      var n := |keys| - 1;
      TotalLength(m, keys[..n]) + |m[keys[n]]|
  }

  /** The number of rows of the users in `keys`. */
  function CountRows(pairs: seq<Pair>, keys: seq<int>): nat {
    if keys == [] then 0
    else
      var n := |keys| - 1;
      CountRows(pairs, keys[..n]) + |ItemsOf(pairs, keys[n])|
  }

  /** How often `x` occurs in `s`. */
  function Occurrences(s: seq<int>, x: int): nat {
    if s == [] then 0
    else
      var n := |s| - 1;
      Occurrences(s[..n], x) + (if s[n] == x then 1 else 0)
  }

  /** In a sequence without repeats, an element occurs once if it is there at all. */
  lemma {:induction false} OccurrencesOfDistinct(s: seq<int>, x: int)
    requires NoDuplicates(s)
    ensures Occurrences(s, x) == if x in s then 1 else 0
  {
    if s != [] {
      var n := |s| - 1;
      OccurrencesOfDistinct(s[..n], x);
      assert s == s[..n] + [s[n]];
      assert s[n] !in s[..n];
    }
  }

  /** Appending one pair adds one row for each listing of its user among `keys`. */
  lemma {:induction false} CountRowsAppend(pairs: seq<Pair>, p: Pair, keys: seq<int>)
    ensures CountRows(pairs + [p], keys) == CountRows(pairs, keys) + Occurrences(keys, p.0)
  {
    if keys != [] {
      var n := |keys| - 1;
      CountRowsAppend(pairs, p, keys[..n]);
      assert (pairs + [p])[..|pairs|] == pairs;
    }
  }

  /** When `keys` lists every user of the pairs once, the users' row counts add up to the number of pairs. */
  lemma {:induction false} CountRowsCoversAll(pairs: seq<Pair>, keys: seq<int>)
    requires NoDuplicates(keys)
    requires forall k :: 0 <= k < |pairs| ==> pairs[k].0 in keys
    ensures CountRows(pairs, keys) == |pairs|
  {
    if pairs == [] {
      CountRowsOfNothing(keys);
    } else {
      var n := |pairs| - 1;
      CountRowsCoversAll(pairs[..n], keys);
      assert pairs == pairs[..n] + [pairs[n]];
      CountRowsAppend(pairs[..n], pairs[n], keys);
      OccurrencesOfDistinct(keys, pairs[n].0);
    }
  }

  /** No pairs means no rows for any user. */
  lemma {:induction false} CountRowsOfNothing(keys: seq<int>)
    ensures CountRows([], keys) == 0
  {
    if keys != [] {
      CountRowsOfNothing(keys[..|keys| - 1]);
    }
  }

  /** Each observed list is as long as its user's row count, so the two sums agree. */
  lemma {:induction false} TotalLengthIsCountRows(pairs: seq<Pair>, keys: seq<int>)
    requires forall j :: 0 <= j < |keys| ==> keys[j] in UserItems(pairs)
    ensures TotalLength(UserItems(pairs), keys) == CountRows(pairs, keys)
  {
    if keys != [] {
      var n := |keys| - 1;
      TotalLengthIsCountRows(pairs, keys[..n]);
      var m := UserItems(pairs);
      assert |m[keys[n]]| == |multiset(m[keys[n]])| == |multiset(ItemsOf(pairs, keys[n]))| == |ItemsOf(pairs, keys[n])|;
    }
  }

  /**
   * Duplicates are kept: summed over the users of the observed lists, the
   * list lengths add up to the number of interactions.
   */
  lemma ObservedLengthsSumToRows(pairs: seq<Pair>, keys: seq<int>)
    requires NoDuplicates(keys)
    requires forall j :: 0 <= j < |keys| ==> keys[j] in UserItems(pairs)
    requires forall u :: u in UserItems(pairs) ==> u in keys
    ensures TotalLength(UserItems(pairs), keys) == |pairs|
  {
    forall k | 0 <= k < |pairs| ensures pairs[k].0 in keys {
      assert UserColumn(pairs)[k] == pairs[k].0;
    }
    TotalLengthIsCountRows(pairs, keys);
    CountRowsCoversAll(pairs, keys);
  }
}
