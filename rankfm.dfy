/**
 * The RankFM model object: its hyperparameters, the identifier index, the
 * mapped interactions and observed-item lists, the feature matrices and the
 * weight store, and the fit / fit_partial / predict / recommend_for_users
 * lifecycle around the training and scoring kernels.
 *
 * The kernels `_fit`, `_predict` and `_recommend_for_users` are not part of
 * this model; each is a parameter of the method that calls it.
 */
module Model {
  import opened Wrappers
  import opened Exceptions
  import opened Ordering
  import opened Identifiers
  import opened Subsequences
  import opened Interactions
  import opened Matrices
  import opened Features
  import opened WeightStore
  import opened ColdStart
  import opened Configuration

  /** What `fit_partial` hands to the training kernel. */
  datatype TrainingInput = TrainingInput(
    interactions: seq<Pair>,
    userItems: map<int, seq<int>>,
    itemIdx: seq<int>,
    regularization: real,
    learningRate: real,
    learningSchedule: string,
    learningExponent: real,
    epochs: int,
    verbose: bool,
    xUf: Matrix,
    xIf: Matrix,
    weights: Weights)

  /** The training kernel: it returns the updated weights. */
  type TrainKernel = TrainingInput -> Weights

  /** The training kernel returns weights of the shapes it was given. */
  ghost predicate PreservesShapes(train: TrainKernel) {
    forall a :: SameDims(train(a), a.weights)
  }

  /** Shape preservation can be met: a kernel that returns the weights it was given has it. */
  lemma UnchangedWeightsPreserveShapes()
    ensures PreservesShapes((a: TrainingInput) => a.weights)
  {
  }

  /** What `predict` hands to the scoring kernel: index pairs, missing where an identifier is unknown. */
  datatype PredictionInput = PredictionInput(
    pairs: seq<(Option<int>, Option<int>)>,
    xUf: Matrix,
    xIf: Matrix,
    weights: Weights)

  /** The scoring kernel: a score per pair, missing (NaN) where it has none. */
  type PredictKernel = PredictionInput -> seq<Option<real>>

  /** What `recommend_for_users` hands to the ranking kernel. */
  datatype RecommendationInput = RecommendationInput(
    users: seq<Option<int>>,
    userItems: map<int, seq<int>>,
    nItems: int,
    filterPrevious: bool,
    xUf: Matrix,
    xIf: Matrix,
    weights: Weights)

  /** The ranking kernel: a row of item positions per user, missing where it has none. */
  type RecommendKernel = RecommendationInput -> seq<seq<Option<int>>>

  /** One row of the recommendation table: the user identifier and its item identifiers. */
  datatype Recommendation = Recommendation(user: int, items: seq<Option<int>>)

  /** A score that is not NaN. */
  predicate IsScore(s: Option<real>) {
    s.Some?
  }

  /** A recommendation row with no missing item (`dropna(how='any')` keeps it). */
  predicate IsComplete(r: Recommendation)
    ensures IsComplete(r) <==> None !in r.items
  {
    forall k :: 0 <= k < |r.items| ==> r.items[k].Some?
  }

  const UserFeaturesMismatch := "the users in [user_features] do not match the users in [interactions]"
  const ItemFeaturesMismatch := "the items in [item_features] do not match the items in [interactions]"
  const NotFitForPredictions := "you must fit the model prior to generating predictions"
  const NotFitForRecommendations := "you must fit the model prior to generating recommendations"
  const RowCountMismatch := "Shape of passed values does not match the shape implied by the index"

  /** The pairs to score, each identifier replaced by its index position or a missing value. */
  function PredictionPairs(pairs: seq<Pair>, userToIndex: map<int, int>, itemToIndex: map<int, int>): (r: seq<(Option<int>, Option<int>)>)
    ensures |r| == |pairs|
    ensures forall k :: 0 <= k < |pairs| ==>
      && (r[k].0.Some? <==> pairs[k].0 in userToIndex) && (r[k].1.Some? <==> pairs[k].1 in itemToIndex)
      && (r[k].0.Some? ==> r[k].0.value == userToIndex[pairs[k].0])
      && (r[k].1.Some? ==> r[k].1.value == itemToIndex[pairs[k].1])
  {
    seq(|pairs|, k requires 0 <= k < |pairs| => (Lookup(userToIndex, pairs[k].0), Lookup(itemToIndex, pairs[k].1)))
  }

  /**
   * One mapped pair per input pair; a side is missing exactly when its
   * identifier is unknown, and otherwise maps back to that identifier.
   */
  lemma PredictionPairsRoundTrip(pairs: seq<Pair>, users: seq<int>, userToIndex: map<int, int>, items: seq<int>, itemToIndex: map<int, int>)
    requires IsIndex(users, userToIndex) && IsIndex(items, itemToIndex)
    ensures |PredictionPairs(pairs, userToIndex, itemToIndex)| == |pairs|
    ensures forall k :: 0 <= k < |pairs| ==>
      var (u, i) := PredictionPairs(pairs, userToIndex, itemToIndex)[k];
      && (u.None? <==> pairs[k].0 !in users)
      && (i.None? <==> pairs[k].1 !in items)
      && (u.Some? ==> IdentifierAt(users, u) == Some(pairs[k].0))
      && (i.Some? ==> IdentifierAt(items, i) == Some(pairs[k].1))
  {
    ReverseMapInverts(users);
    ReverseMapInverts(items);
  }

  /** The users to rank, each identifier replaced by its index position or a missing value. */
  function Positions(ids: seq<int>, toIndex: map<int, int>): (r: seq<Option<int>>)
    ensures |r| == |ids|
    ensures forall k :: 0 <= k < |ids| ==> (r[k].Some? <==> ids[k] in toIndex) && (r[k].Some? ==> r[k].value == toIndex[ids[k]])
  {
    seq(|ids|, k requires 0 <= k < |ids| => Lookup(toIndex, ids[k]))
  }

  /** The recommendation table: each user with its row of positions mapped back to item identifiers. */
  function RecommendationRows(users: seq<int>, rows: seq<seq<Option<int>>>, items: seq<int>): (r: seq<Recommendation>)
    requires |rows| == |users|
    ensures |r| == |users|
    ensures forall k :: 0 <= k < |users| ==> r[k].user == users[k] && |r[k].items| == |rows[k]|
    ensures forall k, j :: 0 <= k < |users| && 0 <= j < |rows[k]| ==>
      (r[k].items[j].Some? <==> rows[k][j].Some? && 0 <= rows[k][j].value < |items|)
      && (r[k].items[j].Some? ==> r[k].items[j].value in items && r[k].items[j] == Some(items[rows[k][j].value]))
  {
    seq(|users|, k requires 0 <= k < |users| =>
      Recommendation(users[k], seq(|rows[k]|, j requires 0 <= j < |rows[k]| => IdentifierAt(items, rows[k][j]))))
  }

  class RankFM {
    const factors: nat
    const regularization: real
    const sigma: real
    const learningRate: real
    const learningSchedule: string
    const learningExponent: real

    // the user and item identifier index (`user_id`, `index_to_user`, `user_to_index`, `user_idx`, and for items)
    var users: Option<Index>
    var items: Option<Index>

    // interactions and the observed items of each user (plain and typed dictionaries)
    var interactions: Option<seq<Pair>>
    var userItemsPy: Option<map<int, seq<int>>>
    var userItemsNb: Option<map<int, seq<int>>>

    // user and item feature matrices
    var xUf: Option<Matrix>
    var xIf: Option<Matrix>

    // the weight store (`w_i`, `w_if`, `v_u`, `v_i`, `v_uf`, `v_if`)
    var weights: Option<Weights>

    var isFit: bool

    /** The hyperparameters the model was built with. */
    function Hyper(): Hyperparameters {
      Hyperparameters(factors, regularization, sigma, learningRate, learningSchedule, learningExponent)
    }

    /** The state `_reset_state` leaves: every table and weight cleared, not fit. */
    ghost predicate Cleared()
      reads this
    {
      && users.None? && items.None?
      && interactions.None? && userItemsPy.None? && userItemsNb.None?
      && xUf.None? && xIf.None?
      && weights.None?
      && !isFit
    }

    /** The identifier index is built for both users and items. */
    ghost predicate Indexed()
      reads this`users, this`items
    {
      users.Some? && items.Some? && WellFormed(users.value) && WellFormed(items.value)
    }

    /** The interactions are index pairs in range, and both observed-item dictionaries are built from them. */
    ghost predicate Observed()
      reads this`users, this`items, this`interactions, this`userItemsPy, this`userItemsNb
    {
      && Indexed()
      && interactions.Some?
      && InRange(interactions.value, |users.value.ids|, |items.value.ids|)
      && userItemsPy == Some(UserItems(interactions.value))
      && userItemsNb == userItemsPy
    }

    /** A feature matrix with one row per user and one per item. */
    ghost predicate Featured()
      reads this`users, this`items, this`xUf, this`xIf
    {
      && Indexed()
      && xUf.Some? && xIf.Some?
      && xUf.value.rows == |users.value.ids|
      && xIf.value.rows == |items.value.ids|
    }

    /** The object invariant: valid hyperparameters, and a fit model has all its state. */
    ghost predicate Valid()
      reads this
    {
      AllAcceptable(Hyper()) && (isFit ==> Observed() && Featured() && weights.Some?)
    }

    /** All of the state is present and the weight shapes agree with the index, the features and the rank. */
    ghost predicate Consistent()
      reads this
    {
      && Observed() && Featured() && weights.Some?
      && Shaped(weights.value, |users.value.ids|, |items.value.ids|, xUf.value.cols, xIf.value.cols, factors)
    }

    /** The initial weights `_init_weights` draws for the present index and features. */
    function FreshWeights(userDrawn: bool, itemDrawn: bool, stream: NormalStream): Weights
      reads this`users, this`items, this`xUf, this`xIf
      requires Featured()
    {
      InitialWeights(|users.value.positions|, |items.value.positions|, xUf.value.cols, xIf.value.cols, factors, sigma, userDrawn, itemDrawn, stream)
    }

    /** The arguments of the training kernel, built from the present state and weights `w`. */
    function TrainingInputFor(w: Weights, epochs: int, verbose: bool): TrainingInput
      reads this`users, this`items, this`interactions, this`userItemsPy, this`userItemsNb, this`xUf, this`xIf
      requires Observed() && Featured()
    {
      TrainingInput(interactions.value, userItemsNb.value, items.value.positions, regularization, learningRate,
                    learningSchedule, learningExponent, epochs, verbose, xUf.value, xIf.value, w)
    }

    /** Stores valid hyperparameters and clears the state; `Create` is the checked entry point. */
    constructor (h: Hyperparameters)
      requires AllAcceptable(h)
      ensures Hyper() == h && Cleared() && Valid()
    {
      factors := h.factors;
      regularization := h.regularization;
      sigma := h.sigma;
      learningRate := h.learningRate;
      learningSchedule := h.learningSchedule;
      learningExponent := h.learningExponent;
      new;
      ResetState();
    }

    /**
     * `RankFM(...)`: the AssertionError of the first hyperparameter check
     * that fails, or a fresh model with cleared state.
     */
    static method Create(h: Hyperparameters) returns (r: Result<RankFM, Error>)
      ensures Validate(h).Some? ==> r == Err(Validate(h).value)
      ensures Validate(h).None? ==> r.Ok? && fresh(r.value) && r.value.Hyper() == h && r.value.Cleared() && r.value.Valid()
    {
      var failure := Validate(h);
      if failure.Some? {
        return Err(failure.value);
      }
      var model := new RankFM(h);
      return Ok(model);
    }

    /** `_reset_state`. */
    method ResetState()
      modifies this
      ensures Cleared()
    {
      users := None;
      items := None;
      interactions := None;
      userItemsPy := None;
      userItemsNb := None;
      xUf := None;
      xIf := None;
      weights := None;
      isFit := false;
    }

    /**
     * `_init_interactions`: maps the interactions to index pairs (unknown
     * pairs dropped), builds the observed items of each user and copies
     * them into the typed dictionary one user at a time.
     */
    method InitInteractions(pairs: seq<Pair>)
      requires Indexed()
      modifies this`interactions, this`userItemsPy, this`userItemsNb
      ensures interactions == Some(MapInteractions(pairs, users.value.toIndex, items.value.toIndex))
      ensures Observed()
    {
      MappedPairsRoundTrip(pairs, users.value.ids, users.value.toIndex, items.value.ids, items.value.toIndex);
      var mapped := MapInteractions(pairs, users.value.toIndex, items.value.toIndex);
      var observed := UserItems(mapped);
      var typed := CopyToTyped(observed, SortedUnique(UserColumn(mapped)));
      interactions := Some(mapped);
      userItemsPy := Some(observed);
      userItemsNb := Some(typed);
    }

    /**
     * `_init_features`: the user table is checked and stored first, then the
     * item table; a table that does not cover its index raises KeyError and
     * leaves its matrix, and everything after it, as it was.
     */
    method InitFeatures(userFeatures: Option<FeatureTable>, itemFeatures: Option<FeatureTable>) returns (outcome: Result<(), Error>)
      requires Indexed()
      modifies this`xUf, this`xIf
      ensures outcome.Ok? <==>
        Accepted(userFeatures, users.value.toIndex, users.value.positions) && Accepted(itemFeatures, items.value.toIndex, items.value.positions)
      ensures !Accepted(userFeatures, users.value.toIndex, users.value.positions) ==>
        outcome == Err(KeyError(UserFeaturesMismatch)) && xUf == old(xUf) && xIf == old(xIf)
      ensures Accepted(userFeatures, users.value.toIndex, users.value.positions) ==>
        xUf == BuildFeatures(userFeatures, users.value.toIndex, users.value.positions)
      ensures Accepted(userFeatures, users.value.toIndex, users.value.positions) && !Accepted(itemFeatures, items.value.toIndex, items.value.positions) ==>
        outcome == Err(KeyError(ItemFeaturesMismatch)) && xIf == old(xIf)
      ensures outcome.Ok? ==> xIf == BuildFeatures(itemFeatures, items.value.toIndex, items.value.positions) && Featured()
      ensures old(Featured()) ==> Featured()
    {
      var userMatrix := BuildFeatures(userFeatures, users.value.toIndex, users.value.positions);
      if userMatrix.None? {
        return Err(KeyError(UserFeaturesMismatch));
      }
      xUf := userMatrix;
      var itemMatrix := BuildFeatures(itemFeatures, items.value.toIndex, items.value.positions);
      if itemMatrix.None? {
        return Err(KeyError(ItemFeaturesMismatch));
      }
      xIf := itemMatrix;
      return Ok(());
    }

    /** `_init_weights`: zero biases, drawn latent factors, zero feature factors for absent tables. */
    method InitWeights(userDrawn: bool, itemDrawn: bool, stream: NormalStream)
      requires Featured()
      modifies this`weights
      ensures weights == Some(FreshWeights(userDrawn, itemDrawn, stream))
    {
      weights := Some(FreshWeights(userDrawn, itemDrawn, stream));
    }

    /**
     * `_init_interactions` followed by `_init_features`: the interactions and
     * features are mapped onto the index in place (the branch of
     * `fit_partial` taken by a fit model, and the middle of `_init_all`).
     */
    method Refresh(pairs: seq<Pair>, userFeatures: Option<FeatureTable>, itemFeatures: Option<FeatureTable>)
      returns (outcome: Result<(), Error>)
      requires Indexed()
      modifies this`interactions, this`userItemsPy, this`userItemsNb, this`xUf, this`xIf
      ensures Observed()
      ensures interactions == Some(MapInteractions(pairs, users.value.toIndex, items.value.toIndex))
      ensures outcome.Ok? <==>
        Accepted(userFeatures, users.value.toIndex, users.value.positions) && Accepted(itemFeatures, items.value.toIndex, items.value.positions)
      ensures !Accepted(userFeatures, users.value.toIndex, users.value.positions) ==> outcome == Err(KeyError(UserFeaturesMismatch))
      ensures Accepted(userFeatures, users.value.toIndex, users.value.positions) && !Accepted(itemFeatures, items.value.toIndex, items.value.positions) ==>
        outcome == Err(KeyError(ItemFeaturesMismatch))
      ensures outcome.Ok? ==>
        && Featured()
        && xUf == BuildFeatures(userFeatures, users.value.toIndex, users.value.positions)
        && xIf == BuildFeatures(itemFeatures, items.value.toIndex, items.value.positions)
      ensures !Accepted(userFeatures, users.value.toIndex, users.value.positions) ==> xUf == old(xUf) && xIf == old(xIf)
      ensures Accepted(userFeatures, users.value.toIndex, users.value.positions) ==> xUf == BuildFeatures(userFeatures, users.value.toIndex, users.value.positions)
      ensures !Accepted(itemFeatures, items.value.toIndex, items.value.positions) ==> xIf == old(xIf)
      ensures old(Featured()) ==> Featured()
    {
      InitInteractions(pairs);
      outcome := InitFeatures(userFeatures, itemFeatures);
    }

    /**
     * The first step of `_init_all`: the sorted distinct users and items of
     * the interactions, their reverse maps and their position ranges.
     */
    method InitIndex(pairs: seq<Pair>)
      modifies this`users, this`items
      ensures users == Some(BuildIndex(UserColumn(pairs))) && items == Some(BuildIndex(ItemColumn(pairs)))
      ensures Indexed()
    {
      users := Some(BuildIndex(UserColumn(pairs)));
      items := Some(BuildIndex(ItemColumn(pairs)));
    }

    /**
     * `_init_all`: builds the index from the identifiers in the interactions,
     * then the interactions, the features and, if the features were
     * accepted, the initial weights.
     */
    method InitAll(pairs: seq<Pair>, userFeatures: Option<FeatureTable>, itemFeatures: Option<FeatureTable>, stream: NormalStream)
      returns (outcome: Result<(), Error>)
      modifies this`users, this`items, this`interactions, this`userItemsPy, this`userItemsNb, this`xUf, this`xIf, this`weights
      ensures users == Some(BuildIndex(UserColumn(pairs))) && items == Some(BuildIndex(ItemColumn(pairs)))
      ensures Observed()
      ensures interactions == Some(MapInteractions(pairs, users.value.toIndex, items.value.toIndex))
      ensures |interactions.value| == |pairs|
      ensures outcome.Ok? <==>
        Accepted(userFeatures, users.value.toIndex, users.value.positions) && Accepted(itemFeatures, items.value.toIndex, items.value.positions)
      ensures !Accepted(userFeatures, users.value.toIndex, users.value.positions) ==> outcome == Err(KeyError(UserFeaturesMismatch))
      ensures Accepted(userFeatures, users.value.toIndex, users.value.positions) && !Accepted(itemFeatures, items.value.toIndex, items.value.positions) ==>
        outcome == Err(KeyError(ItemFeaturesMismatch))
      ensures outcome.Err? ==> weights == old(weights)
      ensures outcome.Ok? ==> Featured() && weights == Some(FreshWeights(userFeatures.Some?, itemFeatures.Some?, stream))
      ensures outcome.Ok? ==>
        xUf == BuildFeatures(userFeatures, users.value.toIndex, users.value.positions) && xIf == BuildFeatures(itemFeatures, items.value.toIndex, items.value.positions)
    {
      OwnIndexKeepsAllRows(pairs);
      InitIndex(pairs);
      outcome := Refresh(pairs, userFeatures, itemFeatures);
      if outcome.Err? {
        return;
      }
      InitWeights(userFeatures.Some?, itemFeatures.Some?, stream);
    }

    /** The training step of `fit_partial`: the kernel's weights replace the current ones and the model is fit. */
    method Train(epochs: int, verbose: bool, train: TrainKernel)
      requires Observed() && Featured() && weights.Some?
      modifies this`weights, this`isFit
      ensures isFit && weights == Some(train(TrainingInputFor(old(weights.value), epochs, verbose)))
      ensures Observed() && Featured() && (AllAcceptable(Hyper()) ==> Valid())
      ensures PreservesShapes(train) && Shaped(old(weights.value), |users.value.ids|, |items.value.ids|, xUf.value.cols, xIf.value.cols, factors) ==>
        Consistent()
    {
      weights := Some(train(TrainingInputFor(weights.value, epochs, verbose)));
      isFit := true;
    }

    /** `fit_partial` on a fit model: the interactions and features are rebuilt on the kept index, then training continues. */
    method ContinueFit(pairs: seq<Pair>, userFeatures: Option<FeatureTable>, itemFeatures: Option<FeatureTable>,
                       epochs: int, verbose: bool, train: TrainKernel)
      returns (outcome: Result<(), Error>)
      requires Valid() && isFit
      modifies this`interactions, this`userItemsPy, this`userItemsNb, this`xUf, this`xIf, this`weights, this`isFit
      ensures Valid() && Observed() && isFit
      ensures interactions == Some(MapInteractions(pairs, users.value.toIndex, items.value.toIndex))
      ensures outcome.Ok? <==>
        Accepted(userFeatures, users.value.toIndex, users.value.positions) && Accepted(itemFeatures, items.value.toIndex, items.value.positions)
      ensures !Accepted(userFeatures, users.value.toIndex, users.value.positions) ==> outcome == Err(KeyError(UserFeaturesMismatch))
      ensures Accepted(userFeatures, users.value.toIndex, users.value.positions) && !Accepted(itemFeatures, items.value.toIndex, items.value.positions) ==>
        outcome == Err(KeyError(ItemFeaturesMismatch))
      ensures outcome.Err? ==> weights == old(weights)
      ensures !Accepted(userFeatures, users.value.toIndex, users.value.positions) ==> xUf == old(xUf) && xIf == old(xIf)
      ensures Accepted(userFeatures, users.value.toIndex, users.value.positions) ==> xUf == BuildFeatures(userFeatures, users.value.toIndex, users.value.positions)
      ensures !Accepted(itemFeatures, items.value.toIndex, items.value.positions) ==> xIf == old(xIf)
      ensures outcome.Ok? ==> Featured() && weights == Some(train(TrainingInputFor(old(weights.value), epochs, verbose)))
      ensures outcome.Ok? ==>
        xUf == BuildFeatures(userFeatures, users.value.toIndex, users.value.positions) && xIf == BuildFeatures(itemFeatures, items.value.toIndex, items.value.positions)
      ensures outcome.Ok? && PreservesShapes(train) && old(Consistent()) ==>
        (xUf.value.cols == old(xUf.value.cols) && xIf.value.cols == old(xIf.value.cols) ==> Consistent())
    {
      outcome := Refresh(pairs, userFeatures, itemFeatures);
      if outcome.Err? {
        return;
      }
      Train(epochs, verbose, train);
      assert Accepted(userFeatures, users.value.toIndex, users.value.positions);
      assert Accepted(itemFeatures, items.value.toIndex, items.value.positions);
    }

    /** `fit_partial` on a model that is not fit: index, interactions, features and weights are built, then trained. */
    method StartFit(pairs: seq<Pair>, userFeatures: Option<FeatureTable>, itemFeatures: Option<FeatureTable>,
                    epochs: int, verbose: bool, stream: NormalStream, train: TrainKernel)
      returns (outcome: Result<(), Error>)
      requires Valid() && !isFit
      modifies this`users, this`items, this`interactions, this`userItemsPy, this`userItemsNb, this`xUf, this`xIf, this`weights, this`isFit
      ensures Valid() && Observed()
      ensures users == Some(BuildIndex(UserColumn(pairs))) && items == Some(BuildIndex(ItemColumn(pairs)))
      ensures interactions == Some(MapInteractions(pairs, users.value.toIndex, items.value.toIndex))
      ensures |interactions.value| == |pairs|
      ensures outcome.Ok? <==>
        Accepted(userFeatures, users.value.toIndex, users.value.positions) && Accepted(itemFeatures, items.value.toIndex, items.value.positions)
      ensures !Accepted(userFeatures, users.value.toIndex, users.value.positions) ==> outcome == Err(KeyError(UserFeaturesMismatch))
      ensures Accepted(userFeatures, users.value.toIndex, users.value.positions) && !Accepted(itemFeatures, items.value.toIndex, items.value.positions) ==>
        outcome == Err(KeyError(ItemFeaturesMismatch))
      ensures outcome.Err? ==> !isFit && weights == old(weights)
      ensures outcome.Ok? ==>
        isFit && Featured() && weights == Some(train(TrainingInputFor(FreshWeights(userFeatures.Some?, itemFeatures.Some?, stream), epochs, verbose)))
      ensures outcome.Ok? ==>
        xUf == BuildFeatures(userFeatures, users.value.toIndex, users.value.positions) && xIf == BuildFeatures(itemFeatures, items.value.toIndex, items.value.positions)
      ensures outcome.Ok? && PreservesShapes(train) ==> Consistent()
    {
      outcome := InitAll(pairs, userFeatures, itemFeatures, stream);
      if outcome.Err? {
        return;
      }
      Train(epochs, verbose, train);
    }

    /**
     * `fit_partial`: a fit model keeps its index and weights and rebuilds only
     * its interactions and features; a model that is not fit is built from
     * scratch. A rejected feature table raises before training, leaving the
     * weights and the fit flag untouched; otherwise the training kernel's
     * weights are stored and the model is fit.
     */
    method FitPartial(pairs: seq<Pair>, userFeatures: Option<FeatureTable>, itemFeatures: Option<FeatureTable>,
                      epochs: int, verbose: bool, stream: NormalStream, train: TrainKernel)
      returns (outcome: Result<(), Error>)
      requires Valid()
      modifies this
      ensures Valid() && Observed()
      ensures old(isFit) ==> users == old(users) && items == old(items)
      ensures !old(isFit) ==> users == Some(BuildIndex(UserColumn(pairs))) && items == Some(BuildIndex(ItemColumn(pairs)))
      ensures !old(isFit) ==> |interactions.value| == |pairs|
      ensures interactions == Some(MapInteractions(pairs, users.value.toIndex, items.value.toIndex))
      ensures outcome.Ok? <==>
        Accepted(userFeatures, users.value.toIndex, users.value.positions) && Accepted(itemFeatures, items.value.toIndex, items.value.positions)
      ensures !Accepted(userFeatures, users.value.toIndex, users.value.positions) ==> outcome == Err(KeyError(UserFeaturesMismatch))
      ensures Accepted(userFeatures, users.value.toIndex, users.value.positions) && !Accepted(itemFeatures, items.value.toIndex, items.value.positions) ==>
        outcome == Err(KeyError(ItemFeaturesMismatch))
      ensures outcome.Err? ==> isFit == old(isFit) && weights == old(weights)
      ensures old(isFit) && !Accepted(userFeatures, users.value.toIndex, users.value.positions) ==> xUf == old(xUf) && xIf == old(xIf)
      ensures old(isFit) && Accepted(userFeatures, users.value.toIndex, users.value.positions) ==>
        xUf == BuildFeatures(userFeatures, users.value.toIndex, users.value.positions)
      ensures old(isFit) && !Accepted(itemFeatures, items.value.toIndex, items.value.positions) ==> xIf == old(xIf)
      ensures outcome.Ok? ==> isFit && Featured() && weights.Some?
      ensures outcome.Ok? ==>
        xUf == BuildFeatures(userFeatures, users.value.toIndex, users.value.positions) && xIf == BuildFeatures(itemFeatures, items.value.toIndex, items.value.positions)
      ensures outcome.Ok? && old(isFit) ==>
        weights == Some(train(TrainingInputFor(old(weights.value), epochs, verbose)))
      ensures outcome.Ok? && !old(isFit) ==>
        weights == Some(train(TrainingInputFor(FreshWeights(userFeatures.Some?, itemFeatures.Some?, stream), epochs, verbose)))
      ensures outcome.Ok? && PreservesShapes(train) && !old(isFit) ==> Consistent()
      ensures outcome.Ok? && PreservesShapes(train) && old(isFit) && old(Consistent()) ==>
        (xUf.value.cols == old(xUf.value.cols) && xIf.value.cols == old(xIf.value.cols) ==> Consistent())
    {
      if isFit {
        outcome := ContinueFit(pairs, userFeatures, itemFeatures, epochs, verbose, train);
      } else {
        outcome := StartFit(pairs, userFeatures, itemFeatures, epochs, verbose, stream, train);
      }
    }

    /** `fit`: clears the state, then runs `fit_partial` from scratch. */
    method Fit(pairs: seq<Pair>, userFeatures: Option<FeatureTable>, itemFeatures: Option<FeatureTable>,
               epochs: int, verbose: bool, stream: NormalStream, train: TrainKernel)
      returns (outcome: Result<(), Error>)
      requires Valid()
      modifies this
      ensures Valid() && Observed()
      ensures users == Some(BuildIndex(UserColumn(pairs))) && items == Some(BuildIndex(ItemColumn(pairs)))
      ensures interactions == Some(MapInteractions(pairs, users.value.toIndex, items.value.toIndex))
      ensures |interactions.value| == |pairs|
      ensures outcome.Ok? <==>
        Accepted(userFeatures, users.value.toIndex, users.value.positions) && Accepted(itemFeatures, items.value.toIndex, items.value.positions)
      ensures !Accepted(userFeatures, users.value.toIndex, users.value.positions) ==> outcome == Err(KeyError(UserFeaturesMismatch))
      ensures Accepted(userFeatures, users.value.toIndex, users.value.positions) && !Accepted(itemFeatures, items.value.toIndex, items.value.positions) ==>
        outcome == Err(KeyError(ItemFeaturesMismatch))
      ensures outcome.Err? ==> !isFit && weights.None?
      ensures outcome.Ok? ==>
        isFit && Featured() && weights == Some(train(TrainingInputFor(FreshWeights(userFeatures.Some?, itemFeatures.Some?, stream), epochs, verbose)))
      ensures outcome.Ok? ==>
        xUf == BuildFeatures(userFeatures, users.value.toIndex, users.value.positions) && xIf == BuildFeatures(itemFeatures, items.value.toIndex, items.value.positions)
      ensures outcome.Ok? && PreservesShapes(train) ==> Consistent()
    {
      ResetState();
      outcome := FitPartial(pairs, userFeatures, itemFeatures, epochs, verbose, stream, train);
    }

    /**
     * `predict`: requires a fit model; scores the pairs with the scoring
     * kernel, then applies the cold-start policy to the scores.
     */
    method Predict(pairs: seq<Pair>, coldStart: string, kernel: PredictKernel) returns (r: Result<seq<Option<real>>, Error>)
      requires Valid()
      ensures !isFit ==> r == Err(AssertionError(NotFitForPredictions))
      ensures isFit ==>
        var scores := kernel(PredictionInput(PredictionPairs(pairs, users.value.toIndex, items.value.toIndex), xUf.value, xIf.value, weights.value));
        r == ApplyColdStart(scores, IsScore, coldStart)
    {
      if !isFit {
        return Err(AssertionError(NotFitForPredictions));
      }
      var predPairs := PredictionPairs(pairs, users.value.toIndex, items.value.toIndex);
      var scores := kernel(PredictionInput(predPairs, xUf.value, xIf.value, weights.value));
      r := ApplyColdStart(scores, IsScore, coldStart);
    }

    /**
     * `recommend_for_users`: requires a fit model; ranks items for the users
     * with the ranking kernel, maps the positions back to item identifiers
     * and applies the cold-start policy to the rows.
     */
    method RecommendForUsers(targets: seq<int>, nItems: int, filterPrevious: bool, coldStart: string, kernel: RecommendKernel)
      returns (r: Result<seq<Recommendation>, Error>)
      requires Valid()
      ensures !isFit ==> r == Err(AssertionError(NotFitForRecommendations))
      ensures isFit ==>
        var rows := kernel(RecommendationInput(Positions(targets, users.value.toIndex), userItemsNb.value, nItems, filterPrevious, xUf.value, xIf.value, weights.value));
        && (|rows| != |targets| ==> r == Err(ValueError(RowCountMismatch)))
        && (|rows| == |targets| ==> r == ApplyColdStart(RecommendationRows(targets, rows, items.value.ids), IsComplete, coldStart))
    {
      if !isFit {
        return Err(AssertionError(NotFitForRecommendations));
      }
      var rows := kernel(RecommendationInput(Positions(targets, users.value.toIndex), userItemsNb.value, nItems, filterPrevious, xUf.value, xIf.value, weights.value));
      if |rows| != |targets| {
        return Err(ValueError(RowCountMismatch));
      }
      r := ApplyColdStart(RecommendationRows(targets, rows, items.value.ids), IsComplete, coldStart);
    }
  }
}
