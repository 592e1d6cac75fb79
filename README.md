# RankFM bookkeeping, modelled in Dafny

RankFM is a factorization machine for ranking from implicit feedback. The
`RankFM` class in `rankfm/rankfm.py` is a stateful object that does the
bookkeeping around a training and scoring engine. It:

- validates its hyperparameters;
- builds a sorted identifier index for the users and items of the interactions, together with its reverse maps;
- maps the interactions onto that index;
- builds the per-user lists of observed items that the negative sampler consults;
- checks that feature tables cover the index;
- shapes and initialises the weight arrays;
- runs the `fit` / `fit_partial` lifecycle around the training kernel;
- applies a cold-start policy to the outputs of `predict` and `recommend_for_users`.

This project models that bookkeeping and proves what it promises.

The modules follow the structure of the class:

| module | file | models |
|---|---|---|
| `Configuration` | `hyperparameters.dfy` | the constructor's six assertions, in order |
| `Ordering` | `ordering.dfy` | `sorted`, `np.sort(np.unique(..))` and `np.arange` as functions on sequences |
| `Identifiers` | `identifiers.dfy` | one side of the index: `index_to_user`, `user_to_index` and `user_idx` (or the item counterparts), grouped in an `Index` record |
| `Interactions` | `interactions.dfy` | the mapping of interactions to index pairs, the observed-item dictionary, and the loop that fills the typed dictionary |
| `Features` | `features.dfy` | the coverage test on feature tables, and the matrix stored in index order |
| `WeightStore`, `Matrices` | `weights.dfy`, `matrices.dfy` | the shapes and initial values of `w_i`, `w_if`, `v_u`, `v_i`, `v_uf` and `v_if` |
| `ColdStart`, `Subsequences` | `coldstart.dfy`, `subsequences.dfy` | the 'nan' / 'drop' / error policy, with 'drop' as an order-preserving filter |
| `Model` | `rankfm.dfy` | the class `RankFM`: its fields, the `_reset_state` / `_init_*` / `fit` / `fit_partial` methods, and `predict` and `recommend_for_users` around their kernels |

The class keeps the source's state as fields. Related fields are grouped:

- `users` and `items` are each an `Option<Index>`;
- `weights` is one `Option<Weights>` holding the six arrays.

Each helper method has a `modifies` clause naming exactly the fields it
assigns. `ResetState`, `FitPartial` and `Fit` replace the whole state, so
they are framed by `modifies this`. The
object invariant `Valid()` says two things:

- the hyperparameters pass validation;
- a fit model has its index, interactions, features and weights.

Every public method preserves it.

The three numba kernels `_fit`, `_predict` and `_recommend_for_users` are
not part of this model. Each is a function-typed parameter of the method
that calls it, so nothing is claimed about training or scoring. The
process-wide normal random source is a parameter too: `stream(k)` is the
k-th standard normal draw.

## Model

| member | source | states |
|---|---|---|
| Configuration.FirstViolation | rankfm/rankfm.py:33-38 | the first of the six assertions, in the constructor's order, that fails; none exactly when all hold |
| Configuration.Validate | rankfm/rankfm.py:33-38 | no error exactly when all six conditions hold; otherwise an AssertionError carrying the message of the first failing condition in the constructor's order, which is itself a failing condition |
| Configuration.DefaultsAreValid | rankfm/rankfm.py:20-38 | the default keyword arguments pass validation |
| Model.RankFM.Create | rankfm/rankfm.py:20-49 | construction raises the first failing assertion; otherwise a fresh model holds the given hyperparameters, has every field cleared and is not fit |
| Model.RankFM.constructor | rankfm/rankfm.py:41-49 | stores the hyperparameters and leaves the cleared state |
| Model.RankFM.ResetState | rankfm/rankfm.py:57-92 | every index, interaction, feature and weight field is cleared and `is_fit` is false |
| Ordering.Sort | rankfm/rankfm.py:171 | `sorted` returns a non-decreasing rearrangement of its input: same elements with the same multiplicities |
| Ordering.SortedUnique | rankfm/rankfm.py:106-107 | `np.sort(np.unique(column))` is strictly increasing and holds exactly the elements of the column |
| Ordering.IncreasingIsDetermined | rankfm/rankfm.py:106-107 | a strictly increasing sequence is determined by its set of elements, so the sorted unique identifiers are the only strictly increasing list of them |
| Ordering.SortedIsDetermined | rankfm/rankfm.py:171 | two sorted sequences with the same multiset of elements are equal |
| Ordering.RangeMultiplicity | rankfm/rankfm.py:118-119 | `np.arange(n)` holds each of 0 .. n-1 exactly once and nothing else |
| Identifiers.ReverseMap | rankfm/rankfm.py:114-115 | the reverse map `pd.Series(data=ids.index, index=ids.values)` has at most one key per identifier; its meaning is given by the three lemmas below |
| Identifiers.ReverseMapKeys | rankfm/rankfm.py:114-115 | the reverse map has exactly the identifiers as keys |
| Identifiers.ReverseMapPositions | rankfm/rankfm.py:114-115 | for sorted distinct identifiers, `user_to_index[index_to_user[k]] == k` for every position k |
| Identifiers.ReverseMapInverts | rankfm/rankfm.py:114-115 | the reverse map is the inverse of the identifier table in both directions: `to_index[ids[k]] == k` for every k, and `ids[to_index[x]] == x` with the position in range for every key x |
| Identifiers.Lookup | rankfm/rankfm.py:292-293 | `Series.map(to_index)` on one identifier: missing exactly when the identifier is not a key, otherwise its position |
| Identifiers.IdentifierAt | rankfm/rankfm.py:344 | `map(index_to_item)` on one position: present exactly for an in-range position, and then the identifier stored there |
| Identifiers.LookupRoundTrip | rankfm/rankfm.py:292-293 | mapping an identifier through the index gives a missing value exactly for an unknown identifier; otherwise mapping the position back gives the identifier |
| Identifiers.BuildIndex | rankfm/rankfm.py:106-119 | the index of a column: strictly increasing distinct identifiers, exactly those of the column, with their reverse map and the position range `0 .. n-1` |
| Identifiers.IndexIsDetermined | rankfm/rankfm.py:106-119 | any well-formed index over exactly the identifiers of a column is the one `BuildIndex` builds |
| Interactions.MapInteractions | rankfm/rankfm.py:139-144 | the kept pairs are those whose user and item are both known, in order; each is replaced by its pair of index positions |
| Interactions.MapInteractionsAsWritten | rankfm/rankfm.py:142-144 | as written, the mapping succeeds exactly when every identifier is known, and then equals `MapInteractions` |
| Interactions.AsWrittenRejectsUnknownPair | rankfm/rankfm.py:139-144 | a pair with an unknown user makes the code as written fail, while the documented behaviour drops that pair |
| Interactions.MappedPairsRoundTrip | rankfm/rankfm.py:141-144 | every mapped row lies in [0, U) x [0, I) and maps back to the identifiers of the kept pair at the same position |
| Interactions.MappingKeepsKnownRows | rankfm/rankfm.py:141-144 | when every identifier is known, no row is dropped and row k maps back to input pair k |
| Interactions.OwnIndexKeepsAllRows | rankfm/rankfm.py:106-144 | mapping the interactions through the index built from them keeps every row |
| Interactions.UserItems | rankfm/rankfm.py:151 | the observed-items dictionary has exactly the users of the interactions as keys; each value is sorted and is a rearrangement of that user's items, duplicates kept |
| Interactions.CopyToTyped | rankfm/rankfm.py:154-155 | the loop that fills the typed dictionary ends with the same key-to-items entries as the plain dictionary |
| Interactions.ItemsOfExact | rankfm/rankfm.py:151 | an item is in a user's collected items exactly when that (user, item) pair was observed |
| Interactions.ObservedIsExact | rankfm/rankfm.py:151 | a user has an entry containing item i exactly when the interaction (u, i) was observed |
| Interactions.InteractionIsObserved | rankfm/rankfm.py:151 | every interaction's item is in its user's observed list |
| Interactions.ObservedLengthsSumToRows | rankfm/rankfm.py:151 | summed over all users, the observed-list lengths equal the number of interactions (duplicates kept) |
| Subsequences.Filter | rankfm/rankfm.py:311 | boolean-mask selection keeps only passing entries and never grows |
| Subsequences.FilterSelectsKeptPositions | rankfm/rankfm.py:311 | the selection is order preserving: its k-th entry is the input entry at the k-th kept position, the kept positions increase, and a position is kept exactly when its entry passes |
| Subsequences.FilterKeepsAll | rankfm/rankfm.py:349 | nothing is dropped when every entry passes |
| Features.Covers | rankfm/rankfm.py:169-171 | the acceptance test: an accepted table has only known identifiers and as many rows as index positions (`CoversExactly` gives the one-to-one correspondence) |
| Features.CoversExactly | rankfm/rankfm.py:171 | a table is accepted exactly when all its identifiers are known and map one-to-one onto the positions 0 .. n-1 |
| Features.CoveredColumnIsRange | rankfm/rankfm.py:171 | a mapped column that sorts to `np.arange(n)` has no repeats and holds exactly 0 .. n-1 |
| Features.RangeColumnIsCovered | rankfm/rankfm.py:171 | a mapped column with no repeats holding exactly 0 .. n-1 sorts to `np.arange(n)` |
| Features.OrderRows | rankfm/rankfm.py:172 | `sort_index()` on an accepted table has one row per position; the row at an identifier's position holds that identifier's features |
| Features.BuildFeatures | rankfm/rankfm.py:166-188 | with no table, an n x 1 zero matrix; with a table, a matrix exactly when the table is accepted, with one row per index position ordered by index and as many columns as the table |
| Matrices.Zeros | rankfm/rankfm.py:176 | `np.zeros([rows, cols])` has that shape and only zeros |
| Matrices.ZeroVector | rankfm/rankfm.py:195-196 | `np.zeros(n)` has length n and only zeros |
| Matrices.NormalDraws | rankfm/rankfm.py:199-200 | the drawn factor matrix has the requested shape |
| WeightStore.InitialWeights | rankfm/rankfm.py:191-214 | `w_i` is I zeros and `w_if` is Q zeros; `v_u` is U x F, `v_i` is I x F, `v_uf` is P x F and `v_if` is Q x F; `v_uf` / `v_if` are all zero when no user / item features were supplied |
| Model.RankFM.InitIndex | rankfm/rankfm.py:104-119 | the user and item indexes are those built from the two columns of the interactions, and both are well formed |
| Model.RankFM.InitInteractions | rankfm/rankfm.py:131-155 | the interactions become the mapped pairs; both dictionaries equal the observed-items dictionary of those pairs; every pair is in range |
| Model.RankFM.InitFeatures | rankfm/rankfm.py:158-188 | success exactly when both tables are accepted; a rejected user table raises its KeyError and changes nothing; a rejected item table raises its KeyError after the user matrix is stored; on success both matrices are the index-ordered tables |
| Model.RankFM.InitWeights | rankfm/rankfm.py:191-214 | the weights are the initial weights for the present index, feature widths, rank and draws |
| Model.RankFM.Refresh | rankfm/rankfm.py:248-250 | interactions rebuilt on the kept index; success exactly when both tables are accepted; a rejected user table raises its KeyError and leaves both matrices as they were; a rejected item table raises its KeyError after the user matrix is stored, leaving the item matrix as it was; on success both matrices are the index-ordered tables |
| Model.RankFM.InitAll | rankfm/rankfm.py:95-128 | the index is built from the interactions and no row is dropped; a rejected user table raises the user KeyError, a rejected item table the item KeyError, and either leaves the weights as they were; on success both feature matrices are the index-ordered tables and the weights are the fresh initial weights for them |
| Model.RankFM.Train | rankfm/rankfm.py:254-275 | the training kernel receives the current state and weights, its result replaces the weights and the model is fit, with the object invariant kept; a kernel that keeps the dimensions of the weights it is given leaves the weights consistent with the index and features |
| Model.RankFM.ContinueFit | rankfm/rankfm.py:248-275 | on a fit model: the index is kept, interactions and features are rebuilt; a rejected user table raises the user KeyError and leaves both matrices as they were, a rejected item table raises the item KeyError after the new user matrix is stored, leaving the item matrix as it was, and either leaves the weights untouched; otherwise both feature matrices are the new index-ordered tables and the kernel is given the previous weights |
| Model.RankFM.StartFit | rankfm/rankfm.py:251-275 | on a model that is not fit: everything is built from the interactions; a rejected user table raises the user KeyError, a rejected item table the item KeyError, and either leaves the model unfit with its weights untouched; otherwise both feature matrices are the index-ordered tables and the kernel trains the fresh weights; a dimension-keeping kernel leaves the state consistent |
| Model.RankFM.FitPartial | rankfm/rankfm.py:237-276 | keeps the object invariant; keeps the index of a fit model and otherwise builds it; a rejected user table raises the user KeyError and a rejected item table the item KeyError, either leaving `is_fit` and all weights unchanged; on a fit model a rejected table's matrix is left as it was, and the user matrix is stored before the item KeyError; success stores the index-ordered feature matrices, trains the previous (or fresh) weights and sets `is_fit` |
| Model.RankFM.Fit | rankfm/rankfm.py:222-234 | resets, then fits from scratch: index built from the interactions, every row kept; a rejected user table raises the user KeyError, a rejected item table the item KeyError, and either leaves the model unfit with no weights; on success the feature matrices are the index-ordered tables and a dimension-keeping kernel leaves the state consistent |
| Model.PredictionPairs | rankfm/rankfm.py:291-293 | one pair per input pair; each side is missing exactly when its identifier is unknown, and otherwise is that identifier's position |
| Model.PredictionPairsRoundTrip | rankfm/rankfm.py:290-293 | one mapped pair per input pair; a side is missing exactly when its identifier is unknown, and otherwise maps back to it |
| Model.RankFM.Predict | rankfm/rankfm.py:279-313 | an unfit model raises the AssertionError; otherwise the kernel's scores go through the cold-start policy |
| Model.Positions | rankfm/rankfm.py:329 | one entry per requested user; missing exactly for an unknown user, otherwise that user's position |
| Model.RecommendationRows | rankfm/rankfm.py:344 | one row per requested user, in order; an item entry is present exactly when the kernel gave an in-range position, and then it is the item identifier at that position |
| Model.RankFM.RecommendForUsers | rankfm/rankfm.py:316-351 | an unfit model raises the AssertionError; otherwise the kernel's rows, mapped back to item identifiers, go through the cold-start policy |
| Model.IsComplete | rankfm/rankfm.py:349 | `dropna(how='any')` keeps a row exactly when no item entry in it is missing |
| Model.UnchangedWeightsPreserveShapes | rankfm/rankfm.py:254-273 | the shape-preservation assumption on the training kernel can be met: a kernel returning the weights it was given meets it |
| ColdStart.ApplyColdStart | rankfm/rankfm.py:308-313 | 'nan' returns the results unchanged; 'drop' returns only complete rows; any other policy raises the ValueError |
| ColdStart.DropIsFilterOfNan | rankfm/rankfm.py:308-313 | 'drop' is an order-preserving subsequence of 'nan': its k-th row is the 'nan' row at the k-th kept position, and the kept positions are exactly the complete rows |
| ColdStart.DropKeepsCompleteResults | rankfm/rankfm.py:346-349 | with no missing entry, 'drop' returns the same rows as 'nan' |

## Left out

- The kernels `_fit`, `_predict` and `_recommend_for_users` (`rankfm/rankfm.py:13`): their source, `rankfm/numba_methods.py`, is not part of this model. Each is a function-typed parameter, and the model claims nothing about training, scoring or ranking.
- Model.RankFM.Train: weight-shape consistency after training is claimed only for kernels that return weights with the dimensions of the weights they were given (`PreservesShapes`; `UnchangedWeightsPreserveShapes` shows such kernels exist). What `_fit` returns is not part of this model.
- Model.RankFM.FitPartial: after a refit, weight-shape consistency is claimed only when the new feature tables have the old widths. The source does not check widths, so a refit with a wider feature table leaves `v_uf` / `v_if` out of step with `x_uf` / `x_if`.
- Default arguments: `epochs=1`, `verbose=False` (`fit`, `fit_partial`), `cold_start='nan'` (`predict`, `recommend_for_users`), `n_items=10` and `filter_previous=False` (`recommend_for_users`) are ordinary parameters of the methods. Dafny methods have no default arguments; `Configuration.Defaults` records those of the constructor.
- Model.RankFM.Predict: the number of scores is what the kernel returns. This cannot be stated without the kernel's source.
- Model.RankFM.RecommendForUsers: when the kernel returns a row count different from the number of users, the model returns a ValueError whose message paraphrases pandas' shape error. The DataFrame construction itself is not modelled.
- The learning-rate schedule formula: it is described only in the docstring and is applied inside `_fit`. `learning_schedule` and `learning_exponent` are validated and passed to the kernel, nothing more.
- `similar_items` and `similar_users`: these are floating-point ranking over the factor vectors, outside the modelled bookkeeping.
- Random initialisation: the normal draws are an abstract stream `stream(k)`, and `_init_weights` reads it in a fixed order. The model states only shapes, and zero-ness where the code guarantees it.
- Floating point: scores and weights are `real`, and the float32 / int32 casts are not modelled. NaN is a missing value (`None`).
- pandas and numpy mechanics: DataFrame construction, `isinstance` checks (the hyperparameters have typed fields), dtypes and index alignment are not modelled. Feature tables are sequences of identifiers and rows.
- Aliasing: `user_id` and `index_to_user` are the same object in the source. The model keeps one `ids` sequence per side.
- Iteration order: the typed dictionary is filled in increasing user order, the order `groupby` gives. Dictionaries are maps, so their order is not part of the model.
- Printing, warnings and the returned `self` are not modelled.
- Model.RankFM.constructor requires valid hyperparameters. `Create` is the entry point that checks them and returns the AssertionError otherwise.

## Findings

| source | as written | input that shows it | evidently intended | confidence | as-written member | corrected member |
|---|---|---|---|---|---|---|
| rankfm/rankfm.py:139-144 | the index positions are cast to int32 (lines 142-143) before `dropna` (line 144), so an identifier unknown to the index makes the cast raise a ValueError | a fit model whose index knows user 1 and item 7, refit with interactions [(1, 7), (2, 7)] | the comment at line 139: pairs not found in the index are dropped, leaving [(0, 0)] | not executed | Interactions.AsWrittenRejectsUnknownPair | Interactions.MapInteractions |

The class uses the documented behaviour. Interactions with an unknown user
or item are dropped (`MapInteractions`), and `MappedPairsRoundTrip` states what
remains. `MapInteractionsAsWritten` models the code as written, and
`AsWrittenRejectsUnknownPair` exhibits the input above.
