# haus: a verified model of the ranking backend, listing queries, front-end helpers and scraper configuration

This project models, in Dafny, the parts of the haus real-estate browser that carry logic rather than
rendering:

- **The linear preference learner** of `backend/rankings/feature_ranker.py` (module `FeatureRanking`).
  - A listing becomes a feature vector. Its score is a linear sum over six numeric features, minus a
    quadratic over-budget penalty, plus a neighbourhood bonus, plus a weighted distance to the nearest
    hotspot.
  - A vote first records a hotspot and ratchets the budget cap. Only then is the error of the prediction
    computed. The numeric weights and the two neighbourhood weights are then nudged by that error.
  - The ORM tables are the map and sequence fields of the class `FeatureRanker`, and `update_weights`
    and `recompute_all_scores` are methods on it.
- **The Elo update** of `backend/rankings/elo.py` (module `Elo`).
- **The ranking endpoints** of `backend/rankings/views.py` (module `RankingViews`):
  - the ten-bin score histogram, filled by nested loops over an array;
  - vote submission against a class holding the listing ids, the score rows and the comparison ledger;
  - the random pair draw, as a nondeterministic choice.
- **The listing endpoints** of `backend/listings/views.py` and `backend/listings/filters.py` (modules
  `ListingQuery` and `ListingFilters`).
  - A queryset is a sequence of rows plus the ordering requested so far.
  - The polygon, bbox, custom-sort and ranking-sort steps are each a function from queryset to queryset.
  - The filter set is a predicate over a listing record. The four `Meta.fields` filters are `CharFilter`s: their
    value is stripped before the exact match, and a value that strips to nothing applies no filter.
- **The front-end helpers**:
  - the sort comparator, the toggles, the heatmap mapping and the request parameters of `App.jsx`
    (`AppView`);
  - `layerToWKT` and the heat-layer point filter of `MapComponent.jsx` (`MapWkt`). The polygon is written
    as an OGC Well-Known Text polygon, as in section 7 of OGC 06-103r4 (Simple Features Access, Part 1),
    with the ring closed;
  - `safeNumber` and `safePriceSqft` of `ListingDetailModal.jsx` (`DetailModal`);
  - the `haus_`-prefixed store of `storage.js` (`WebStorage`), over the string map that section 12 "Web
    storage" of the WHATWG HTML Standard describes.
- **The scraper configuration logic** of `scraper/main.py` and `scraper/scheduler.py` (modules
  `ScraperConfig`, `ScraperMain` and `Scheduler`):
  - location-list resolution;
  - the `postgis://` rewrite;
  - the success and failure counters of a batch;
  - the location column;
  - the "database empty?" decision.

Shared helpers:

- `Wrappers`: Option and Result.
- `Text`: Python's `split`, `join`, `strip` and `replace`. `strip` removes exactly the characters `str.isspace`
  accepts, the Unicode spaces and separators included.
- `Seqs`: filtering.
- `Sorting`: a stable insertion sort by a key in the extended reals.
- `JsValues`: JavaScript values, truthiness, `Number()`, division and `Math.round`.
- `ListingModel`: the listing record, with nullable columns as `Option`s.

Python and JavaScript numbers are exact `real`s. Functions the model cannot compute become parameters
constrained by stated predicates:

- `10 ** x` is `pow10`, constrained by `Elo.PowerOfTen`: positive, `10^0 = 1`, `10^x · 10^-x = 1`,
  strictly increasing.
- `math.sqrt` is `sqrt`. Lemmas that need its values assume `FeatureRanking.SqrtAxioms`: `sqrt(0) = 0`,
  `sqrt(1) = 1`, never negative on non-negative input (`SqrtNonNegative`, all that
  the sign lemmas need), strictly increasing.
- Number-to-text formatting is `fmt`.
- JavaScript's text-to-number conversion is `parseNumber`.
- Python's `float()` and Django's decimal parsing are `parseFloat` and `parseDecimal`.
- GEOS parsing and `location__within` are `Geos`.
- JSON is a `stringify`/`parse` pair.
- The scraper's SQL probe is `probe`.

Where the code and its own comments or tests disagree, the model follows the code:

- `os.getenv("SCRAPE_LOCATION", "Boston, MA")` returns `""` when that variable is set but empty. The
  fallback list is then `[""]`, not `["Boston, MA"]` (`ScraperConfig.EnvLocations`).
- `str.replace` in the `postgis://` rewrite replaces every occurrence, not only the leading one
  (`ScraperConfig.RewriteDbUrl`).
- The learner records the winner's hotspot before it computes the error.
  - With the coordinates of `backend/rankings/tests.py:39-49`, the error is `1 - 10·sqrt(2) < 0`, and the
    beds weight ends up positive, not negative (`FeatureRanking.HotspotFlipsBedsWeight`).
  - The test's expectation holds only when the winner records no hotspot
    (`FeatureRanking.LocationFreeVoteForA`).
- `submit_comparison` does not reject a self-comparison. The score row then ends as the later-written
  `new_b` (`RankingViews.RankingDb.SubmitComparison`).

## Model

| member | source | states |
|---|---|---|
| `FeatureRanking.GetFeatureVector` | backend/rankings/feature_ranker.py:8-27 | every numeric feature is present; a None column reads as 0.0, any other as its value; the price is 0.0 when missing or zero; position and neighbourhood are passed through |
| `FeatureRanking.LinearScore` | backend/rankings/feature_ranker.py:41-42 | the weighted sum over the numeric features, a missing weight counting 0.0; specified by `LinearScoreWithoutWeights`, `LinearScoreOneWeight` and `LinearScoreSingleRow` |
| `FeatureRanking.PenaltyWeight` | backend/rankings/feature_ranker.py:50-52 | the `penalty_weight` preference, 1.0 when absent; used by `BudgetPenalty` |
| `FeatureRanking.DistanceWeight` | backend/rankings/feature_ranker.py:75-77 | the `distance_to_hotspot` weight, −10.0 when absent; see `OneHotspotScore` and `HotspotTermNeverPositive` |
| `FeatureRanking.NeighborhoodBonus` | backend/rankings/feature_ranker.py:58-62 | a truthy neighbourhood with a weight row adds that weight, otherwise nothing; see `NeighborhoodNudge` and `ZeroScoreWithoutWeights` |
| `FeatureRanking.HotspotTerm` | backend/rankings/feature_ranker.py:64-79 | the nearest-hotspot distance times the distance weight, only for a located listing when hotspots exist; specified by `OneHotspotScore`, `HotspotTermNeverPositive` and `OnHotspotTermIsZero` |
| `FeatureRanking.Score` | backend/rankings/feature_ranker.py:29-81 | the sum of the four terms; specified by `NeutralScoreIsZero`, `ScoreIsLinear`, `BudgetPenaltyNeverRaisesScore`, `BedsOnlyScore` and `MoreBedsOutscore` |
| `FeatureRanking.DistanceNonNegative` | backend/rankings/feature_ranker.py:71 | for any square root that is never negative (`SqrtNonNegative`), the distance from a listing to a hotspot is never negative |
| `FeatureRanking.HotspotTermNeverPositive` | backend/rankings/feature_ranker.py:64-79 | for any square root that is never negative (`SqrtNonNegative`) and a non-positive distance weight (the default −10.0), the hotspot term never raises a score |
| `FeatureRanking.OnHotspotTermIsZero` | backend/rankings/feature_ranker.py:64-79 | under `SqrtAxioms`, a located listing that stands on a recorded hotspot gets hotspot term 0 |
| `FeatureRanking.Name` | backend/rankings/feature_ranker.py:5 | each numeric feature's weight row is keyed by its column name, never by 'distance_to_hotspot' |
| `FeatureRanking.NameInjective` | backend/rankings/feature_ranker.py:5 | distinct features are stored under distinct weight rows |
| `FeatureRanking.BudgetPenalty` | backend/rankings/feature_ranker.py:49-56 | the penalty is non-zero only when a truthy cap is set and the price strictly exceeds it, and it is never negative for a non-negative penalty weight |
| `FeatureRanking.MinDistance` | backend/rankings/feature_ranker.py:68-73 | the loop's minimum is the distance to some hotspot and is no larger than the distance to any hotspot |
| `FeatureRanking.NeutralScoreIsZero` | backend/rankings/feature_ranker.py:41-81 | with no weights, no budget cap, no neighbourhood weights and no hotspots, every listing scores 0 |
| `FeatureRanking.ZeroScoreWithoutWeights` | backend/rankings/feature_ranker.py:41-81 | with no weights, neighbourhood weights or hotspots, and no price above the cap, the score is 0 |
| `FeatureRanking.LinearScoreWithoutWeights` | backend/rankings/feature_ranker.py:41-42 | features without a weight row contribute nothing to the linear sum |
| `FeatureRanking.LinearScoreSingleRow` | backend/rankings/feature_ranker.py:41-42 | when only one feature of the list has a weight row, the linear sum is that feature's value times its weight (0.0 if it is not in the list) |
| `FeatureRanking.ScoreIsLinear` | backend/rankings/feature_ranker.py:41-81 | with no budget cap, neighbourhood weights or hotspots, the score is the linear sum alone |
| `FeatureRanking.BudgetPenaltyNeverRaisesScore` | backend/rankings/feature_ranker.py:44-56 | the score never exceeds its unpenalised value, and equals it unless a truthy cap is set and exceeded |
| `FeatureRanking.BudgetCapRatchets` | backend/rankings/feature_ranker.py:98-112 | a decisive vote for the strictly pricier listing sets the cap to its price if no cap existed, else to the larger of the two; otherwise the cap is unchanged; the cap never decreases; other preferences are untouched |
| `FeatureRanking.NonDecisiveVoteRecordsNothing` | backend/rankings/feature_ranker.py:113-121 | a vote other than 'A' or 'B' adds no hotspot, leaves the preferences alone, and has error `score(b) - score(a)` |
| `FeatureRanking.RaiseBudgetCap` | backend/rankings/feature_ranker.py:99-103 | the `get_or_create` of the cap and its raise; specified by `BudgetCapRatchets` |
| `FeatureRanking.TargetDiff` | backend/rankings/feature_ranker.py:93-118 | 1 for 'A', −1 for 'B', 0 otherwise; see `NonDecisiveVoteRecordsNothing` and `LocationFreeVoteForA` |
| `FeatureRanking.VoteRecorded` | backend/rankings/feature_ranker.py:93-118 | the state after the hotspot and cap writes; specified by `BudgetCapRatchets`, `NonDecisiveVoteRecordsNothing` and `HotspotVoteError` |
| `FeatureRanking.VoteError` | backend/rankings/feature_ranker.py:120-121 | the target difference minus the score difference under the recorded state; specified by `HotspotVoteError`, `TestVoteErrorNegative` and `NonDecisiveVoteRecordsNothing` |
| `FeatureRanking.WeightDelta` | backend/rankings/feature_ranker.py:125 | `0.01·error·(f_a − f_b)`; specified by `DeltaSign` and `SharedFeatureKeepsWeight` |
| `FeatureRanking.NudgeWeights` | backend/rankings/feature_ranker.py:124-128 | the loop over features as a fold; specified by `NudgeWeightsAt`, `NudgeWeightsElsewhere` and `NudgeOneRows` |
| `FeatureRanking.NudgeNeighborhoods` | backend/rankings/feature_ranker.py:130-138 | A's row gains `0.005·error`, then B's row loses it; specified by `NeighborhoodNudge` |
| `FeatureRanking.AfterVote` | backend/rankings/feature_ranker.py:83-138 | the whole vote on the learned tables; specified by `VoteMovesEachWeight`, `VoteKeepsOtherWeights`, `NeighborhoodNudge` and `HotspotFlipsBedsWeight` |
| `FeatureRanking.VoteMovesEachWeight` | backend/rankings/feature_ranker.py:120-128 | after a vote, each numeric weight has moved by exactly `0.01·error·(f_a − f_b)` from its old value (0.0 if it had no row), with the error taken after the hotspot and cap writes |
| `FeatureRanking.NudgeWeightsAt` | backend/rankings/feature_ranker.py:124-128 | in the loop over distinct features, each feature's row ends at its old value plus its own delta |
| `FeatureRanking.NudgeWeightsElsewhere` | backend/rankings/feature_ranker.py:124-128 | the loop leaves every row no feature is stored under unchanged |
| `FeatureRanking.NudgeOneRows` | backend/rankings/feature_ranker.py:125-128 | one step of the loop creates or moves only its own feature's row |
| `FeatureRanking.NudgeOne` | backend/rankings/feature_ranker.py:125-128 | one `get_or_create` and `+= delta`; specified by `NudgeOneRows` |
| `FeatureRanking.VoteHotspots` | backend/rankings/feature_ranker.py:93-108 | a vote records at most one hotspot, exactly when the winner is 'A' or 'B' and its latitude and longitude are both truthy, and that hotspot is the winner's coordinates |
| `FeatureRanking.VoteBudgetCap` | backend/rankings/feature_ranker.py:98-112 | the budget-cap writes of a vote; specified by `BudgetCapRatchets` |
| `FeatureRanking.VoteKeepsOtherWeights` | backend/rankings/feature_ranker.py:123-128 | a vote never changes a weight row outside the six numeric features, such as 'distance_to_hotspot' |
| `FeatureRanking.DeltaSign` | backend/rankings/feature_ranker.py:125 | a delta is zero for a shared feature value, and positive when error and feature difference have the same strict sign |
| `FeatureRanking.SharedFeatureKeepsWeight` | backend/rankings/feature_ranker.py:123-128 | a feature equal in both listings keeps its weight |
| `FeatureRanking.NeighborhoodNudge` | backend/rankings/feature_ranker.py:130-138 | for every combination of truthy and falsy neighbourhoods: a shared neighbourhood ends with its weight unchanged; otherwise a truthy A's row gains `0.005·error` and a truthy B's row loses it, each starting from 0.0 when it had no row; with neither truthy the table is unchanged; other neighbourhoods are untouched |
| `FeatureRanking.LinearScoreOneWeight` | backend/rankings/feature_ranker.py:41-42 | with a single weight row, the linear sum is that feature's value times its weight |
| `FeatureRanking.BedsOnlyScore` | backend/rankings/tests.py:78-85 | with only a beds weight set, a listing scores its beds count times that weight |
| `FeatureRanking.MoreBedsOutscore` | backend/rankings/tests.py:69-85 | with only a positive beds weight set, a listing with more beds scores strictly higher |
| `FeatureRanking.LocationFreeVoteForA` | backend/rankings/tests.py:39-49 | from the neutral state, when the winner A records no hotspot, the error is 1 and the beds weight becomes `0.01·(beds_a − beds_b)`, which is negative when A has fewer beds |
| `FeatureRanking.HotspotVoteError` | backend/rankings/feature_ranker.py:93-121 | from the neutral state, a vote for a located A records A's position as the only hotspot before the error is taken, so the error includes the distance terms |
| `FeatureRanking.OneHotspotScore` | backend/rankings/feature_ranker.py:64-79 | with one hotspot and nothing else learned, a located listing scores −10 times its distance to that hotspot |
| `FeatureRanking.NegativeErrorRaisesWeight` | backend/rankings/feature_ranker.py:121-128 | with a negative error, a feature on which A is lower than B gains a positive weight from a zero start |
| `FeatureRanking.TestVoteErrorNegative` | backend/rankings/tests.py:39-49 | for any square root with the properties of `SqrtAxioms`, the vote's error with the test's coordinates is `1 − 10·sqrt(2)`, which is negative |
| `FeatureRanking.TestDistances` | backend/rankings/tests.py:39-49 | the test's winner lies at distance sqrt(0) from its own hotspot and the loser at sqrt(2) |
| `FeatureRanking.HotspotFlipsBedsWeight` | backend/rankings/tests.py:39-49 | for any square root with the properties of `SqrtAxioms`, the beds weight after a vote for A with the test's listings and coordinates is positive, so the test's assertion does not hold under the code |
| `FeatureRanking.FeatureRanker.RecordVote` | backend/rankings/feature_ranker.py:92-118 | the hotspot and budget-cap writes of a vote, and the target difference 1, −1 or 0 |
| `FeatureRanking.FeatureRanker.NudgeFeatureWeights` | backend/rankings/feature_ranker.py:123-128 | the loop leaves the weight table equal to the specification of nudging all six features in order; the other tables are unchanged |
| `FeatureRanking.FeatureRanker.NudgeNeighborhoodWeights` | backend/rankings/feature_ranker.py:130-138 | A's row is written first, then B's row is re-read and written; the other tables are unchanged |
| `FeatureRanking.FeatureRanker.UpdateWeights` | backend/rankings/feature_ranker.py:83-138 | the new tables are exactly `AfterVote` of the old ones, and the score rows are unchanged |
| `FeatureRanking.FeatureRanker.RecomputeAllScores` | backend/rankings/feature_ranker.py:140-167 | the learned tables are unchanged; each listing's score row is written, in order, with its score under those tables |
| `FeatureRanking.Rescored` | backend/rankings/feature_ranker.py:157-167 | the score rows after the loop; specified by `RescoredCovers`, `RescoredKeys` and `RescoredKeepsOthers` |
| `FeatureRanking.RescoredCovers` | backend/rankings/feature_ranker.py:157-167 | after recomputing, every listing's stored score equals its score under the same tables |
| `FeatureRanking.RescoredKeys` | backend/rankings/feature_ranker.py:157-158 | a score row exists afterwards exactly when it existed before or belongs to one of the listings |
| `FeatureRanking.RescoredKeepsOthers` | backend/rankings/feature_ranker.py:157-167 | a score row of no listing keeps its old value |
| `Elo.ExpectedBounds` | backend/rankings/elo.py:11-12 | each expected score lies strictly between 0 and 1 |
| `Elo.ExpectedComplement` | backend/rankings/elo.py:11-12 | the two expected scores add up to 1 |
| `Elo.ActualScores` | backend/rankings/elo.py:14-22 | the two actual scores add up to 1; A scores 1 exactly on 'A', B scores 1 exactly on 'B', and any other result splits evenly |
| `Elo.Expected` | backend/rankings/elo.py:11-12 | `1 / (1 + 10^((theirs − mine)/400))`; specified by `ExpectedBounds` and `ExpectedComplement` |
| `Elo.NewRatings` | backend/rankings/elo.py:5-27 | the pair of updated ratings; specified by `ZeroSum`, `WinnerGainsLoserLoses`, `ChangeBoundedByK`, `OtherResultIsTie`, `TieMovesTowardsEquality` and `SwapSymmetric` |
| `Elo.ZeroSum` | backend/rankings/elo.py:11-25 | the sum of the two ratings is preserved |
| `Elo.WinnerGainsLoserLoses` | backend/rankings/elo.py:14-25 | on 'A', A strictly gains and B strictly loses; on 'B', the reverse |
| `Elo.ChangeBoundedByK` | backend/rankings/elo.py:2-25 | each rating moves by strictly less than K = 32 |
| `Elo.OtherResultIsTie` | backend/rankings/elo.py:20-22 | any result other than 'A' and 'B' is scored as a tie |
| `Elo.TieMovesTowardsEquality` | backend/rankings/elo.py:11-25 | on a tie, equal ratings are unchanged, and otherwise the higher-rated side loses points and the lower-rated side gains |
| `Elo.SwapSymmetric` | backend/rankings/elo.py:5-27 | swapping the inputs and the result swaps the outputs |
| `RankingViews.GetRankingDistribution` | backend/rankings/views.py:75-110 | no scores gives empty bins and counts; all scores equal to m gives bins [m, m+1] and counts [n]; otherwise the bins are the 11 edges from min to max, every count is the number of scores whose first matching bin it is, and the counts sum to the number of scores |
| `RankingViews.CountIntoBins` | backend/rankings/views.py:99-105 | the nested loops with `break` count each score in the first bin that holds it |
| `RankingViews.SeqMin` | backend/rankings/views.py:87 | the minimum is a score and no score is smaller |
| `RankingViews.SeqMax` | backend/rankings/views.py:88 | the maximum is a score and no score is larger |
| `RankingViews.BinEdges` | backend/rankings/views.py:96-98 | `min + i·(max − min)/10` for i in 0..10; specified by `EdgesAscending` |
| `RankingViews.InBin` | backend/rankings/views.py:103 | the bin test, closed on the right only for the last bin; specified by `EveryScoreHasABin` and `BinsDisjoint` |
| `RankingViews.FirstBin` | backend/rankings/views.py:102-105 | the inner loop breaks at the first bin that holds the score, or runs to the end when none does |
| `RankingViews.CountsAddUp` | backend/rankings/views.py:96-105 | with edges from the least to the greatest score, every score is counted and the counts sum to the number of scores |
| `RankingViews.EdgesAscending` | backend/rankings/views.py:96-98 | the 11 edges rise strictly from min to max, and the last edge is exactly max |
| `RankingViews.EveryScoreHasABin` | backend/rankings/views.py:102-105 | a score between min and max always finds a bin, the last being closed on the right |
| `RankingViews.BinsDisjoint` | backend/rankings/views.py:103 | no score lies in two bins |
| `RankingViews.TotalIsLength` | backend/rankings/views.py:101-105 | when every score has a bin, the per-bin counts add up to the number of scores |
| `RankingViews.RankingDb.SubmitComparison` | backend/rankings/views.py:29-73 | a winner outside {A, B, TIE} is rejected before any write; otherwise the lookup of the two ids decides: a missing or unknown id gives 'not found' and an id that is not an integer escapes as a server error (only `DoesNotExist` is caught), both with nothing persisted; on success exactly one comparison is appended and only the two score rows change, to the Elo outputs of their old (or default) scores; a self-comparison ends with the later-written `new_b`; for two distinct listings the total is preserved |
| `RankingViews.GetListing` | backend/rankings/views.py:43-44 | `MlsHistory.objects.get(id=…)`: a missing id or an integer with no row raises `DoesNotExist`, a non-integer id raises `ValueError`; specified by `LookupPair` |
| `RankingViews.LookupPair` | backend/rankings/views.py:42-46 | succeeds exactly when both ids are integers of stored listings, with those ids; otherwise fails with 'not found' or with a server error, the latter exactly when the first lookup raises `ValueError` or the first succeeds and the second raises it |
| `RankingViews.MissingAHidesMalformedB` | backend/rankings/views.py:42-46 | when A is missing or unknown, B is never looked up, so even a malformed B gives 'not found' |
| `RankingViews.ValidWinner` | backend/rankings/views.py:39 | the winner is one of 'A', 'B' and 'TIE'; used by `SubmitComparison`'s rejection clause |
| `RankingViews.GetComparisonPair` | backend/rankings/views.py:11-27 | fails exactly when fewer than 2 listings are in the first 100; otherwise returns two rows at different positions of that pool, with different ids when ids are unique |
| `ListingQuery.FilterWithin` | backend/listings/views.py:28 | the rows kept are exactly those whose location lies within the geometry, in their order, with the ordering kept |
| `ListingQuery.ApplyPolygon` | backend/listings/views.py:22-31 | a polygon WKT is applied only when it is set and GEOS accepts it; otherwise the queryset is unchanged |
| `ListingQuery.InvalidPolygonIgnored` | backend/listings/views.py:23-31 | a WKT that GEOS refuses leaves the queryset as it was |
| `ListingQuery.ParseFloats` | backend/listings/views.py:37 | the list comprehension fails exactly when some part is not a float, and otherwise yields each part's value |
| `ListingQuery.BboxOf` | backend/listings/views.py:37-39 | a bbox describes a box exactly when it splits into 4 parts that all parse as floats |
| `ListingQuery.ApplyBbox` | backend/listings/views.py:33-43 | a bbox is applied only when it parses into exactly 4 floats; any other value leaves the queryset unchanged |
| `ListingQuery.BboxNeedsFourFloats` | backend/listings/views.py:34-43 | a bbox that is not 4 comma-separated floats is ignored; 4 floats keep exactly the rows within that box |
| `ListingQuery.ApplyCustomSort` | backend/listings/views.py:45-66 | the custom sort never drops rows, and when it does anything it sets a custom-metric ordering |
| `ListingQuery.CustomSortNeedsTwoKnownFields` | backend/listings/views.py:47-66 | a custom sort that takes effect was `num/denom` with exactly one '/' and two valid field names, and it is descending exactly when `direction` is "desc" |
| `ListingQuery.CustomSortHonoured` | backend/listings/views.py:53-63 | two valid field names joined by '/' order the queryset by their quotient |
| `ListingQuery.ApplyRankingSort` | backend/listings/views.py:68-86 | "ranking_score" orders ascending and "-ranking_score" descending; any other value leaves the queryset unchanged |
| `ListingQuery.RankingSortComesLast` | backend/listings/views.py:63-86 | a ranking sort replaces any custom-sort ordering |
| `ListingQuery.OtherSortIgnored` | backend/listings/views.py:69-70 | `sort` values other than the two ranking sorts are ignored |
| `ListingQuery.GetQueryset` | backend/listings/views.py:19-88 | polygon, bbox, custom sort and ranking sort applied in that order; specified by `GetQuerysetRowsFromAll`, `InvalidPolygonIgnored`, `BboxNeedsFourFloats` and `RankingSortComesLast` |
| `ListingQuery.FinalRankingScore` | backend/listings/views.py:75-83 | the `Coalesce` of a listing's score row with 1000.0; specified by `RankingOrder` |
| `ListingQuery.RankingKey` | backend/listings/views.py:75-83 | a listing's score row, or 1000.0 when it has none; specified by `RankingOrder` |
| `ListingQuery.GetQuerysetRowsFromAll` | backend/listings/views.py:19-88 | `get_queryset` only drops rows, so its rows are a sub-multiset of all listings |
| `ListingQuery.EvaluatedRowsFromAll` | backend/listings/views.py:19-88 | every listing the list endpoint returns is a stored listing |
| `ListingQuery.Evaluate` | backend/listings/views.py:63-86 | the rows come back as a permutation of the queryset's rows, ordered by the requested key, or in stored order when there is no ordering |
| `ListingQuery.RankingOrder` | backend/listings/views.py:75-86 | under a ranking sort, listings come in order of their score, with a missing score counting as 1000.0 |
| `ListingQuery.Metrics` | backend/listings/views.py:98 | at most 2000 rows, the first ones of the queryset, each holding only latitude, longitude, list_price and sqft |
| `ListingQuery.MetricOf` | backend/listings/views.py:98 | the row reduced to latitude, longitude, list_price and sqft; used by `Metrics`, `MetricsEndpoint` and `MetricsFromRows` |
| `ListingQuery.MetricsEndpoint` | backend/listings/views.py:90-99 | `metrics` fails exactly on a non-numeric filter value; otherwise its rows are, in order, the projections of the first min(n, 2000) listings of `get_queryset`'s evaluated rows that pass the filter set, so each comes from a stored, matching row of that queryset |
| `ListingQuery.MetricsBounded` | backend/listings/views.py:98 | metrics never returns more than 2000 rows |
| `ListingQuery.MetricsFromRows` | backend/listings/views.py:98 | every metrics row is the projection of one of the queryset's rows |
| `ListingQuery.History` | backend/listings/views.py:101-116 | empty when `listing_id` is blank; otherwise exactly the history rows with that `listing_id`, each as often as stored, in ascending `scrape_timestamp` order |
| `ListingQuery.HistoryMembership` | backend/listings/views.py:114 | a history row is returned exactly when it shares the listing's `listing_id` |
| `ListingQuery.GetObject` | backend/listings/views.py:106 | `get_object` on the filtered queryset: an invalid filter is an error, and exactly then; a missing primary key, or one that no filtered row carries, is a 404 exactly then; a found object is a row of the queryset that passes the filter and has that key; with unique ids there is never more than one, so a key some filtered row carries is found |
| `ListingQuery.FindById` | backend/listings/views.py:106 | the `pk=pk` lookup on the filtered rows: 404 exactly when no row carries the key, otherwise a row with that key, and never 'several' when ids are unique |
| `ListingQuery.HistoryEndpoint` | backend/listings/views.py:101-116 | the endpoint fails exactly when `get_object` does, with the same error; otherwise it returns nothing for a blank `listing_id` and else exactly the history rows sharing the object's `listing_id`, each as often as stored, in ascending `scrape_timestamp` order |
| `ListingFilters.ApplyFilter` | backend/listings/filters.py:5-23 | filtering fails exactly when a supplied numeric value is not a number; otherwise the result is the rows that match, in order, each as often as it occurs in the input; an exact-field value is matched after stripping and skipped when it strips to nothing |
| `ListingFilters.WellFormed` | backend/listings/filters.py:6-19 | every non-empty numeric parameter parses as a decimal; `ApplyFilter` fails exactly when it does not hold |
| `ListingFilters.PassesParam` | backend/listings/filters.py:6-23 | the test of one supplied parameter: its declared bound when its value parses, its exact column match against the stripped value for a `Meta.fields` name, no test when that value strips to nothing, and nothing for an unknown name; specified by `OneNumberFilter`, `ExactFieldMatch`, `Conjunction` and `UnknownParametersIgnored` |
| `ListingFilters.Matches` | backend/listings/filters.py:5-23 | the conjunction of the supplied filters; specified by `NoParametersMatchAll`, `OneNumberFilter`, the four `…BoundsInclusive` lemmas, `ExactFieldMatch`, `Conjunction` and `UnknownParametersIgnored` |
| `ListingFilters.MatchesParams` | backend/listings/filters.py:5-23 | `Matches` as the test handed to the filter; `ApplyFilter` keeps exactly the rows it accepts |
| `ListingFilters.NumberFilterFor` | backend/listings/filters.py:6-19 | the field and lookup each numeric parameter declares; specified by `OneNumberFilter` and `ExactParamDeclared` |
| `ListingFilters.ExactFieldFor` | backend/listings/filters.py:21-23 | the column each `Meta.fields` parameter matches; specified by `ExactFieldMatch` and `ExactParam` |
| `ListingFilters.Compare` | backend/listings/filters.py:6-19 | `gte` and `lte` against a present value, and a missing value fails; specified by `OneNumberFilter` and `PricePerSqftUsesStoredColumn` |
| `ListingFilters.NoParametersMatchAll` | backend/listings/filters.py:5-23 | omitted parameters impose no constraint |
| `ListingFilters.OneNumberFilter` | backend/listings/filters.py:6-19 | a single numeric parameter is the inclusive bound that its declaration names |
| `ListingFilters.PriceBoundsInclusive` | backend/listings/filters.py:6-7 | `price_min` and `price_max` are inclusive lower and upper bounds on `list_price` |
| `ListingFilters.SqftBoundsInclusive` | backend/listings/filters.py:8-9 | `sqft_min` and `sqft_max` are inclusive bounds on `sqft` |
| `ListingFilters.BedsBoundsInclusive` | backend/listings/filters.py:10-11 | `beds_min` and `beds_max` are inclusive bounds on `beds` |
| `ListingFilters.BathsBoundsInclusive` | backend/listings/filters.py:12-13 | `baths_min` and `baths_max` are inclusive bounds on `full_baths` |
| `ListingFilters.PricePerSqftUsesStoredColumn` | backend/listings/filters.py:18-19 | `pps_min` and `pps_max` compare the stored `price_per_sqft` column, so a listing without one fails them |
| `ListingFilters.ExactParamDeclared` | backend/listings/filters.py:21-23 | each exact-match parameter names its own field and no numeric filter |
| `ListingFilters.ExactFieldMatch` | backend/listings/filters.py:23 | `status`, `city`, `zip_code` and `state` match their column exactly against the stripped value, and a value that is whitespace only imposes no constraint |
| `ListingFilters.ExactParam` | backend/listings/filters.py:21-23 | the exact-match parameters are exactly `status`, `city`, `zip_code` and `state` |
| `ListingFilters.Conjunction` | backend/listings/filters.py:5-23 | supplied parameters combine by conjunction |
| `ListingFilters.UnknownParametersIgnored` | backend/listings/filters.py:5-23 | parameters that name no filter do not change the result |
| `AppView.Compare` | frontend/src/App.jsx:70-76 | the comparator returns −1, 0 or 1, and returns 0 exactly when the two keys are equal |
| `AppView.SortedListings` | frontend/src/App.jsx:51-79 | the result is a permutation of `listings`, which is left as it was, and the comparator puts no later element before an earlier one |
| `AppView.SortedListingsStable` | frontend/src/App.jsx:51-79 | listings whose keys tie keep their input order, as `Array.prototype.sort` guarantees |
| `Sorting.SortByStable` | frontend/src/App.jsx:52-77 | the sort is stable: for every key value, the elements with that key come out in the order they went in |
| `AppView.PricePerSqft` | frontend/src/App.jsx:57-59 | `list_price / sqft` when both are truthy, else 0; specified by `PricePerSqftMissingIsZero` |
| `AppView.SortKey` | frontend/src/App.jsx:53-72 | the compared value, NaN replaced by −∞; specified by `MissingFieldSortsFirst`, `NullSortsAsZero` and `PricePerSqftMissingIsZero` |
| `AppView.CompareFollowsOrder` | frontend/src/App.jsx:74-76 | the comparator puts a first exactly when a's key may precede b's in the chosen direction |
| `AppView.CompareAntisymmetric` | frontend/src/App.jsx:74-76 | swapping the arguments negates the comparison |
| `AppView.SortDirection` | frontend/src/App.jsx:74-76 | 'asc' orders keys ascending; any other sort order orders them descending |
| `AppView.PricePerSqftMissingIsZero` | frontend/src/App.jsx:57-59 | without a truthy price and area, the `price_per_sqft` key is 0, not −∞ |
| `AppView.MissingFieldSortsFirst` | frontend/src/App.jsx:64-72 | a missing or non-numeric field sorts as −∞, first ascending and last descending |
| `AppView.NullSortsAsZero` | frontend/src/App.jsx:64-72 | a JSON null converts to 0 and sorts as 0 |
| `AppView.ToggledSortOrder` | frontend/src/App.jsx:47-49 | the new sort order is always 'asc' or 'desc' |
| `AppView.ToggleSortOrderInvolution` | frontend/src/App.jsx:47-49 | the toggle swaps 'asc' and 'desc', applying it twice is the identity, and any other value becomes 'asc' |
| `AppView.ToggledAttribute` | frontend/src/App.jsx:81-86 | `toggleAttribute(k)` sets k to the negation of its truthiness and leaves every other flag unchanged |
| `AppView.ToggleAttributeTwice` | frontend/src/App.jsx:81-86 | toggling a boolean flag twice restores it |
| `AppView.AppState.ToggleSortOrder` | frontend/src/App.jsx:47-49 | the sort-order state is replaced by its toggle, and the flags are unchanged |
| `AppView.AppState.ToggleAttribute` | frontend/src/App.jsx:81-86 | the flags state is replaced by its toggle at the key, and the sort order is unchanged |
| `AppView.HeatmapData` | frontend/src/App.jsx:125-131 | the heat points are, index by index, the heat points of the metrics rows with truthy latitude and longitude, in their order, so exactly those rows contribute |
| `AppView.HeatmapIntensity` | frontend/src/App.jsx:125-131 | every heat point is built from one row with truthy coordinates; it carries that row's latitude and longitude, and as intensity that row's `price/1,000,000`, or 0.5 when that row has no truthy price |
| `AppView.Intensity` | frontend/src/App.jsx:130 | `Number(list_price) / 1000000`, or 0.5 for a falsy price; specified by `HeatmapIntensity` |
| `AppView.HeatPoints` | frontend/src/App.jsx:127-131 | the `map` step gives one heat point per kept row, index by index, and nothing else |
| `AppView.HeatPoint` | frontend/src/App.jsx:127-131 | the object built for a row; specified by `HeatmapData` and `HeatmapIntensity` |
| `AppView.RequestParams` | frontend/src/App.jsx:113-116 | the params carry `polygon` only when a polygon WKT is set, and otherwise equal the filters |
| `MapWkt.ClosedCoords` | frontend/src/components/MapComponent.jsx:96-98 | n vertices give n+1 coordinate texts, each written as `lng lat`, with the last equal to the first |
| `MapWkt.LayerToWkt` | frontend/src/components/MapComponent.jsx:87-101 | the result is null exactly for a layer without `getLatLngs` or with an empty ring; otherwise it starts with `POLYGON((` |
| `MapWkt.WktRoundTrip` | frontend/src/components/MapComponent.jsx:87-101 | reading the text back gives the outer ring's (lng, lat) pairs in order, plus the first one again at the end, even for an already closed ring |
| `MapWkt.NestedUsesOuterRing` | frontend/src/components/MapComponent.jsx:92 | for a nested array, only the first (outer) ring is written |
| `MapWkt.OuterRing` | frontend/src/components/MapComponent.jsx:92 | the first ring of a nested array, else the array itself; specified by `NestedUsesOuterRing` |
| `MapWkt.CoordText` | frontend/src/components/MapComponent.jsx:97 | `lng lat` with one space; specified by `ClosedCoords` and `WktRoundTrip` |
| `MapWkt.HeatLayerPoints` | frontend/src/components/MapComponent.jsx:58-65 | no layer is added exactly when no datum has truthy, numeric coordinates; otherwise the points are, index by index, the conversions of the valid data in their order, so every valid datum gives a point and every point comes from a valid datum, with non-NaN coordinates |
| `MapWkt.HeatPoints` | frontend/src/components/MapComponent.jsx:63 | the `map` step gives one point per kept datum, index by index, and nothing else |
| `MapWkt.ValidDatumHasNumbers` | frontend/src/components/MapComponent.jsx:62-63 | a datum that passes the filter converts to non-NaN coordinates |
| `MapWkt.ValidHeatDatum` | frontend/src/components/MapComponent.jsx:62 | truthy latitude and longitude that are not NaN; specified by `HeatLayerPoints` and `ValidDatumHasNumbers` |
| `MapWkt.ToHeatPoint` | frontend/src/components/MapComponent.jsx:63 | `[Number(lat), Number(lng), Number(intensity || 1.0)]`; specified by `HeatIntensityDefault` and `ValidDatumHasNumbers` |
| `MapWkt.HeatIntensityDefault` | frontend/src/components/MapComponent.jsx:63 | a falsy intensity becomes 1.0, and a truthy numeric one is kept |
| `DetailModal.SafeNumber` | frontend/src/components/ListingDetailModal.jsx:13-16 | the result is never NaN: 0 for an input that converts to NaN, otherwise the converted number |
| `DetailModal.SafePriceSqft` | frontend/src/components/ListingDetailModal.jsx:18-23 | 0 unless price and area both convert to truthy numbers, else their rounded quotient; specified by `SafePriceSqftZeroCases`, `SafePriceSqftRounds` and `SafePriceSqftNaNOnlyForInfinities` |
| `JsValues.ToNumber` | frontend/src/components/ListingDetailModal.jsx:14 | JavaScript's `Number()`: null is 0, booleans 0 or 1, text through `parseNumber`; specified by `SafeNumber` and `NullSortsAsZero` |
| `JsValues.Truthy` | frontend/src/App.jsx:126 | JavaScript truthiness: null, undefined, false, 0, NaN and "" are falsy; used by `HeatmapData`, `HeatLayerPoints` and `SafePriceSqftZeroCases` |
| `JsValues.Div` | frontend/src/components/ListingDetailModal.jsx:22 | division of two finite numbers with a non-zero divisor is their quotient, and NaN in gives NaN out |
| `JsValues.Round` | frontend/src/components/ListingDetailModal.jsx:22 | `Math.round` keeps NaN and the infinities, and maps a finite number to the integer within ½ of it, halves rounded up |
| `DetailModal.SafePriceSqftZeroCases` | frontend/src/components/ListingDetailModal.jsx:18-21 | a price or area that converts to 0 or NaN gives 0, so the helper never divides by zero |
| `DetailModal.SafePriceSqftRounds` | frontend/src/components/ListingDetailModal.jsx:22 | with a finite non-zero price and area, the result is an integer within ½ of their quotient, with halves rounded up |
| `DetailModal.SafePriceSqftNaNOnlyForInfinities` | frontend/src/components/ListingDetailModal.jsx:18-23 | the result is NaN exactly when price and area both convert to infinities |
| `WebStorage.StorageKey` | frontend/src/utils/storage.js:3-9 | the stored key is `"haus_"` followed by the key |
| `WebStorage.StorageKeyInjective` | frontend/src/utils/storage.js:3-9 | distinct keys have distinct storage keys |
| `WebStorage.Saved` | frontend/src/utils/storage.js:6-13 | the area after `save`; specified by `LoadAfterSave`, `FailedSaveKeepsOldValue`, `SaveTouchesOnlyItsKey` and `UnrepresentableLoadsDefault` |
| `WebStorage.Loaded` | frontend/src/utils/storage.js:14-23 | what `load` returns; specified by `Storage.Load`, `LoadAfterSave`, `LoadAfterRemove` and `ThrowingLoadGivesDefault` |
| `WebStorage.Removed` | frontend/src/utils/storage.js:24-30 | the area after `remove`; specified by `LoadAfterRemove`, `RemoveTouchesOnlyItsKey` and `FailedRemoveKeepsItems` |
| `WebStorage.Storage.Save` | frontend/src/utils/storage.js:6-13 | the storage area becomes `Saved` of the old one: the JSON text under `"haus_" + key`, or no change when `stringify` or `setItem` throws |
| `WebStorage.Storage.Load` | frontend/src/utils/storage.js:14-23 | returns `Loaded` of the storage area: the default when `getItem` throws, when nothing is stored or when the text fails to parse, and the parsed value otherwise; the area is unchanged |
| `WebStorage.Storage.Remove` | frontend/src/utils/storage.js:24-30 | the storage area becomes `Removed` of the old one: it loses exactly the key `"haus_" + key`, or stays as it was when `removeItem` throws |
| `WebStorage.LoadAfterSave` | frontend/src/utils/storage.js:6-23 | `save(k, v)` then `load(k, d)` returns v for a JSON-round-trippable v |
| `WebStorage.FailedSaveKeepsOldValue` | frontend/src/utils/storage.js:7-12 | a save whose `setItem` throws is swallowed and loading still gives what was stored before |
| `WebStorage.LoadAfterRemove` | frontend/src/utils/storage.js:14-30 | `remove(k)` then `load(k, d)` returns d |
| `WebStorage.ThrowingLoadGivesDefault` | frontend/src/utils/storage.js:15-22 | a `getItem` that throws is caught and `load` returns the default |
| `WebStorage.FailedRemoveKeepsItems` | frontend/src/utils/storage.js:24-30 | a `removeItem` that throws is caught and leaves the area, and so every load, as it was |
| `WebStorage.UnrepresentableLoadsDefault` | frontend/src/utils/storage.js:6-23 | a value JSON cannot represent is stored as "undefined", and loading it gives the default |
| `WebStorage.SaveTouchesOnlyItsKey` | frontend/src/utils/storage.js:8-9 | save writes only the key `"haus_" + k` |
| `WebStorage.RemoveTouchesOnlyItsKey` | frontend/src/utils/storage.js:24-30 | remove drops the key `"haus_" + k` unless `removeItem` throws, and never touches another key |
| `WebStorage.OtherKeysUnaffected` | frontend/src/utils/storage.js:6-30 | saving or removing one key, whether or not the call throws, does not change what loading another key returns |
| `ScraperConfig.StrippedNonEmpty` | scraper/main.py:183 | the comprehension keeps only stripped, non-empty pieces |
| `ScraperConfig.ParseLocationList` | scraper/main.py:183 | every parsed location is non-empty, stripped of all of Python's whitespace, Unicode spaces included, and free of ';' |
| `ScraperConfig.EnvLocations` | scraper/scheduler.py:17-23 | a set, non-empty `SCRAPE_LOCATIONS` is parsed, so every location is non-empty, stripped and free of ';'; otherwise the list is the single location `SCRAPE_LOCATION`, or `"Boston, MA"` when that is unset |
| `ScraperConfig.OnlySeparatorsGiveNoLocations` | scraper/main.py:181-183 | a `SCRAPE_LOCATIONS` made only of separators and whitespace gives an empty list, with no fallback |
| `ScraperConfig.ParseJoinedLocations` | scraper/main.py:183 | clean names joined by ';' parse back to themselves |
| `ScraperConfig.RewritePostgis` | scraper/main.py:25-26 | a `postgis://` URL with no other occurrence of the scheme is rewritten to `postgresql://` plus the same rest |
| `ScraperConfig.RewriteStartsWithPostgresql` | scraper/main.py:25-26 | a URL starting with `postgis://` ends up starting with `postgresql://` |
| `ScraperConfig.OtherUrlsUnchanged` | scraper/main.py:25 | any other URL is left unchanged |
| `ScraperConfig.RewriteDbUrl` | scraper/main.py:25-26 | the `postgis://` rewrite; specified by `RewritePostgis`, `RewriteStartsWithPostgresql` and `OtherUrlsUnchanged` |
| `ScraperConfig.StripIdempotent` | scraper/main.py:183 | stripping twice is stripping once |
| `ScraperMain.EngineUrl` | scraper/main.py:19-28 | the run exits with status 1 exactly when `DATABASE_URL` is unset or empty; otherwise the engine URL is the rewritten one |
| `ScraperMain.ResolveLocations` | scraper/main.py:173-187 | command-line arguments, when present, are the location list verbatim; otherwise the environment decides |
| `ScraperMain.RunScraperForLocations` | scraper/main.py:150-171 | every location is attempted in order, each through `run_scraper` on its own scrape outcome; successful + failed equals the number of locations; failed counts the locations whose run raises, which is none, so failed is 0 and successful is the number of locations |
| `ScraperMain.FailureCount` | scraper/main.py:162-168 | the number of failed locations never exceeds the number of locations |
| `ScraperMain.FailureCountAppend` | scraper/main.py:162-168 | failures over two batches add up |
| `ScraperMain.FailureCountExtremes` | scraper/main.py:162-168 | no raising location gives no failures, and all raising gives all failures |
| `ScraperMain.RunScraper` | scraper/main.py:30-148 | `run_scraper` never raises: an empty scrape is reported as such, an insert reports its row count, and an error is logged with its message |
| `ScraperMain.RunRaises` | scraper/main.py:162-168 | whether running one location raises, as the batch loop tests it; specified by `SwallowedErrorsNeverFail` |
| `ScraperMain.SwallowedErrorsNeverFail` | scraper/main.py:147-168 | since `run_scraper` swallows its exceptions, no location of any batch, whatever its scrape outcome, counts as failed |
| `ScraperMain.GetCol` | scraper/main.py:58-59 | a column absent from the frame maps to None, and a present one to itself |
| `ScraperMain.ToNumeric` | scraper/main.py:77-78 | a numeric cell keeps its value and a missing cell stays missing |
| `ScraperMain.LocationColumn` | scraper/main.py:85-88 | a row gets `POINT(lon lat)` exactly when both coordinates are non-null, and None otherwise |
| `ScraperMain.Coordinates` | scraper/main.py:75-88 | the coordinate columns exist exactly when the frame has latitude and longitude; they are coerced to numbers and give the location column |
| `ScraperMain.PointRoundTrip` | scraper/main.py:86 | a point text reads back as the longitude, then the latitude |
| `ScraperMain.PointWkt` | scraper/main.py:86 | `POINT(x y)`; specified by `PointRoundTrip` and `LocationColumn` |
| `ScraperMain.UnparsableCoordinateGivesNoLocation` | scraper/main.py:77-88 | a row whose latitude is missing or not a number gets no location |
| `Scheduler.JobCommand` | scraper/scheduler.py:30-31 | the command is exactly `["python", "main.py"]` followed by the locations |
| `Scheduler.IsDatabaseEmpty` | scraper/scheduler.py:49-77 | with no `DATABASE_URL` the database is not empty; otherwise it is empty exactly when the probe of the rewritten URL finds the table missing or 0 rows, and a probe error means not empty |
| `Scheduler.InitialJobs` | scraper/scheduler.py:82-87 | the initial job runs exactly when the database is judged empty |
| `Scheduler.ProbeErrorOrRowsNotEmpty` | scraper/scheduler.py:66-77 | a probe error or a non-zero row count means no initial job |
| `Scheduler.PostgisProbedAsPostgresql` | scraper/scheduler.py:54-55 | the probe connects with the `postgresql://` form of a `postgis://` URL |
| `Scheduler.JobLocationsReachMain` | scraper/scheduler.py:17-31 | the locations the job passes to main.py resolve there to the same list |

## Left out

- The Django ORM, DRF serialisation and HTTP status codes. Tables are maps and sequences, and responses
  are result datatypes. `status.HTTP_400_BAD_VALUE` is not a real DRF constant, so a rejection is modelled
  only as "rejected, nothing written".
- The models `FeatureWeight`, `NeighborhoodWeight`, `LearnedPreference`, `FavoriteLocation`,
  `RankingScore` and `RankingComparison` are not defined in backend/rankings/models.py.
  - Their rows are map entries.
  - A freshly created weight row is taken to hold 0.0.
  - The default score of a new `RankingScore` row is the constructor parameter `defaultScore`.
- backend/rankings/signals.py, which creates a score row for each new listing, is not part of this model.
- Floating-point rounding in Python and JavaScript. All arithmetic is exact, so the zero-sum Elo property
  and the histogram's "counts sum to n" hold only in exact arithmetic.
- Signed zero and IEEE edge cases beyond NaN and the infinities (`JsValues`).
- `10 ** x`, `math.sqrt`, number formatting, text-to-number parsing, GEOS (`GEOSGeometry`,
  `location__within`, `Polygon.from_bbox`) and JSON. Each is a parameter. Only the properties stated for
  it are assumed.
- `random.sample` in `get_comparison_pair`. It is a nondeterministic choice of two different positions,
  and the draw's uniformity is not modelled.
- ListingQuery.Evaluate: the SQL value of the custom `num / denom` expression is a parameter `metric`.
  The arithmetic on database columns, including division by zero or NULL, is not modelled.
- The custom-sort field list `ValidFields` holds the concrete columns of `CurrentListing` and `id`. Reverse relations
  that `_meta.get_fields()` might also report are not modelled.
- The filter set takes effect only when `DjangoFilterBackend` is the configured default filter backend.
  backend/listings/views.py:16 sets only `filterset_class`, and the Django settings are not part of this
  model; the model applies the filter set.
- The order of rows the database returns for an unordered queryset. The model keeps the stored order.
- AppView.SortedListings: models only the sort fields the sort menu offers (frontend/src/App.jsx:162-167).
  A text field would be compared without `Number()`, and such fields are not modelled.
- The persistence effects of App.jsx (frontend/src/App.jsx:88-107). Each is one `storage.save`, modelled by
  `WebStorage.Storage.Save`. React's effect scheduling is not modelled.
- React rendering and styling, Leaflet and Geoman plugin loading and event wiring, and axios calls.
- Scraper I/O: `scrape_property`, the construction of the rest of the frame, `to_sql`, logging,
  `subprocess.run`, the schedule loop and `sleep`. The outcome of a scrape and of the SQL probe are
  parameters.
- The schema files backend/listings/models.py and backend/rankings/models.py are used only as the field
  list of `ListingModel.Listing`.
- backend/verify_ranking.py, serializers and URL configuration are not part of this model.
- RunScraperForLocations: `except Exception` in `run_scraper` and in the batch loop does not catch `KeyboardInterrupt` or
  `SystemExit`. Such an interruption ends the whole run and is not modelled.
- SubmitComparison: a request id is modelled as absent, an integer, or malformed. `IntId(n)` stands for any value Django's
  integer key converts to `n`, such as the text "5".
- GetObject: permission checks are not modelled. `get_object_or_404` also turns a `ValueError` from a malformed key into a
  404, so the primary key reaches the model already converted, or absent.
