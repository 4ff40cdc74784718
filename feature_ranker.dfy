/**
 * The linear preference learner of backend/rankings/feature_ranker.py.
 *
 * The ORM tables it reads and writes are fields of the class FeatureRanker:
 * `FeatureWeight` (feature name to weight), `NeighborhoodWeight`
 * (neighbourhood to weight), `LearnedPreference` (key to value, used for
 * 'budget_cap' and 'penalty_weight'), `FavoriteLocation` (the hotspots) and
 * `RankingScore` (listing id to score). A freshly created weight row is taken
 * to hold 0.0. `math.sqrt` is the parameter `sqrt`.
 */
module FeatureRanking {
  import opened Wrappers
  import opened ListingModel

  /** The names of `FeatureRanker.NUMERIC_FEATURES`, in their order. */
  datatype Feature = Beds | FullBaths | Sqft | YearBuilt | LotSqft | ParkingGarage

  const NumericFeatures: seq<Feature> := [Beds, FullBaths, Sqft, YearBuilt, LotSqft, ParkingGarage]
  const LearningRate: real := 0.01
  const BudgetCapKey: string := "budget_cap"
  const PenaltyWeightKey: string := "penalty_weight"
  const DistanceWeightKey: string := "distance_to_hotspot"
  const DefaultPenaltyWeight: real := 1.0
  const DefaultDistanceWeight: real := -10.0
  const PenaltyScale: real := 1000.0

  /** The `feature_name` a numeric feature's weight row is stored under. */
  function Name(f: Feature): (n: string)
    ensures n != DistanceWeightKey
  {
    match f
    case Beds => "beds"
    case FullBaths => "full_baths"
    case Sqft => "sqft"
    case YearBuilt => "year_built"
    case LotSqft => "lot_sqft"
    case ParkingGarage => "parking_garage"
  }

  /** Distinct features are stored under distinct names. */
  lemma NameInjective(f: Feature, g: Feature)
    ensures Name(f) == Name(g) ==> f == g
  {
    if f != g {
      assert Name(f)[..2] != Name(g)[..2] || |Name(f)| != |Name(g)| || Name(f)[|Name(f)| - 1] != Name(g)[|Name(g)| - 1];
    }
  }

  // ---------------------------------------------------------------------
  // Feature extraction

  /** The listing column the feature reads; None is a null column. */
  function NumericAttribute(l: Listing, f: Feature): Option<real>
  {
    match f
    case Beds => l.beds
    case FullBaths => l.fullBaths
    case Sqft => l.sqft
    case YearBuilt => if l.yearBuilt.Some? then Some(l.yearBuilt.value as real) else None
    case LotSqft => l.lotSqft
    case ParkingGarage => l.parkingGarage
  }

  datatype FeatureVector = FeatureVector(
    numeric: map<Feature, real>,
    listPrice: real,
    latitude: Option<real>,
    longitude: Option<real>,
    neighborhood: Option<string>)
  {
    /** `features[f]`; GetFeatureVector fills every feature. */
    function Numeric(f: Feature): real
    {
      if f in numeric then numeric[f] else 0.0
    }
  }

  /** `features['list_price']`: the price, or 0.0 when it is missing or zero. */
  function PriceFeature(l: Listing): real
  {
    if TruthyNumber(l.listPrice) then l.listPrice.value else 0.0
  }

  /** `FeatureRanker.get_feature_vector(listing)`. */
  function GetFeatureVector(l: Listing): (fv: FeatureVector)
    ensures forall f :: f in fv.numeric
    ensures forall f :: NumericAttribute(l, f).None? ==> fv.Numeric(f) == 0.0
    ensures forall f :: NumericAttribute(l, f).Some? ==> fv.Numeric(f) == NumericAttribute(l, f).value
    ensures fv.listPrice == if TruthyNumber(l.listPrice) then l.listPrice.value else 0.0
    ensures fv.latitude == l.latitude && fv.longitude == l.longitude && fv.neighborhood == l.neighborhoods
  {
    var numeric := map[Beds := NumericAttribute(l, Beds).GetOr(0.0),
                       FullBaths := NumericAttribute(l, FullBaths).GetOr(0.0),
                       Sqft := NumericAttribute(l, Sqft).GetOr(0.0),
                       YearBuilt := NumericAttribute(l, YearBuilt).GetOr(0.0),
                       LotSqft := NumericAttribute(l, LotSqft).GetOr(0.0),
                       ParkingGarage := NumericAttribute(l, ParkingGarage).GetOr(0.0)];
    assert forall f: Feature :: f in numeric by {
      forall f: Feature ensures f in numeric {
        assert f.Beds? || f.FullBaths? || f.Sqft? || f.YearBuilt? || f.LotSqft? || f.ParkingGarage?;
      }
    }
    FeatureVector(numeric, PriceFeature(l), l.latitude, l.longitude, l.neighborhoods)
  }

  // ---------------------------------------------------------------------
  // Scoring

  datatype Hotspot = Hotspot(latitude: real, longitude: real)

  /** The contents of the tables the score depends on. */
  datatype RankerState = RankerState(
    weights: map<string, real>,
    neighborhoodWeights: map<string, real>,
    preferences: map<string, real>,
    hotspots: seq<Hotspot>)

  const EmptyState: RankerState := RankerState(map[], map[], map[], [])

  /** `sum(features[f] * weights.get(f, 0.0) for f in fs)`, accumulated left to right. */
  function LinearScore(fv: FeatureVector, weights: map<string, real>, fs: seq<Feature>): real
  {
    if |fs| == 0 then 0.0
    else
      var f := fs[|fs| - 1];
      LinearScore(fv, weights, fs[..|fs| - 1]) + fv.Numeric(f) * GetOrDefault(weights, Name(f), 0.0)
  }

  function BudgetCap(st: RankerState): Option<real>
  {
    if BudgetCapKey in st.preferences then Some(st.preferences[BudgetCapKey]) else None
  }

  function PenaltyWeight(st: RankerState): real
  {
    GetOrDefault(st.preferences, PenaltyWeightKey, DefaultPenaltyWeight)
  }

  function DistanceWeight(st: RankerState): real
  {
    GetOrDefault(st.weights, DistanceWeightKey, DefaultDistanceWeight)
  }

  /** The amount subtracted for a price above the budget cap. */
  function BudgetPenalty(price: real, cap: Option<real>, penaltyWeight: real): (p: real)
    ensures p != 0.0 ==> TruthyNumber(cap) && price > cap.value
    ensures penaltyWeight >= 0.0 ==> p >= 0.0
  {
    if TruthyNumber(cap) && price > cap.value then
      var excess := (price - cap.value) / cap.value;
      assert excess * excess >= 0.0;
      excess * excess * penaltyWeight * PenaltyScale
    else 0.0
  }

  function NeighborhoodBonus(neighborhood: Option<string>, neighborhoodWeights: map<string, real>): real
  {
    if TruthyText(neighborhood) && neighborhood.value in neighborhoodWeights
    then neighborhoodWeights[neighborhood.value] else 0.0
  }

  /** What the model assumes of `math.sqrt`: 0 and 1 are fixed points, results are non-negative, and it is strictly increasing. */
  ghost predicate SqrtAxioms(sqrt: real -> real)
  {
    && sqrt(0.0) == 0.0 && sqrt(1.0) == 1.0
    && SqrtNonNegative(sqrt)
    && (forall x, y :: 0.0 <= x < y ==> sqrt(x) < sqrt(y))
  }

  /** The part of `SqrtAxioms` the sign lemmas need: a square root is never negative. */
  ghost predicate SqrtNonNegative(sqrt: real -> real)
  {
    forall x :: x >= 0.0 ==> sqrt(x) >= 0.0
  }

  /** The Euclidean distance in degrees between a position and a hotspot. */
  function Distance(latitude: real, longitude: real, spot: Hotspot, sqrt: real -> real): real
  {
    sqrt((latitude - spot.latitude) * (latitude - spot.latitude)
       + (longitude - spot.longitude) * (longitude - spot.longitude))
  }

  /** The loop keeping the smallest distance to a hotspot, starting from infinity. */
  function MinDistance(latitude: real, longitude: real, spots: seq<Hotspot>, sqrt: real -> real): (d: real)
    requires |spots| > 0
    ensures exists i :: 0 <= i < |spots| && d == Distance(latitude, longitude, spots[i], sqrt)
    ensures forall i :: 0 <= i < |spots| ==> d <= Distance(latitude, longitude, spots[i], sqrt)
  {
    if |spots| == 1 then Distance(latitude, longitude, spots[0], sqrt)
    else
      var m := MinDistance(latitude, longitude, spots[..|spots| - 1], sqrt);
      var last := Distance(latitude, longitude, spots[|spots| - 1], sqrt);
      assert forall i :: 0 <= i < |spots| - 1 ==> spots[..|spots| - 1][i] == spots[i];
      if last < m then last else m
  }

  function HotspotTerm(fv: FeatureVector, st: RankerState, sqrt: real -> real): real
  {
    if |st.hotspots| > 0 && TruthyNumber(fv.latitude) && TruthyNumber(fv.longitude)
    then MinDistance(fv.latitude.value, fv.longitude.value, st.hotspots, sqrt) * DistanceWeight(st)
    else 0.0
  }

  /** `FeatureRanker.get_score(listing)` against the tables `st`. */
  function Score(l: Listing, st: RankerState, sqrt: real -> real): real
  {
    var fv := GetFeatureVector(l);
    LinearScore(fv, st.weights, NumericFeatures)
      - BudgetPenalty(fv.listPrice, BudgetCap(st), PenaltyWeight(st))
      + NeighborhoodBonus(fv.neighborhood, st.neighborhoodWeights)
      + HotspotTerm(fv, st, sqrt)
  }

  // ---------------------------------------------------------------------
  // Learning from a vote

  /** The hotspot a vote records: the winner's coordinates, when both are truthy. */
  function VoteHotspots(a: Listing, b: Listing, winner: string): (r: seq<Hotspot>)
    ensures |r| <= 1
    ensures |r| == 1 <==>
      || (winner == "A" && TruthyNumber(a.latitude) && TruthyNumber(a.longitude))
      || (winner == "B" && TruthyNumber(b.latitude) && TruthyNumber(b.longitude))
    ensures |r| == 1 ==> var w := if winner == "A" then a else b;
      r[0] == Hotspot(w.latitude.value, w.longitude.value)
  {
    if winner == "A" && TruthyNumber(a.latitude) && TruthyNumber(a.longitude) then
      [Hotspot(a.latitude.value, a.longitude.value)]
    else if winner == "B" && TruthyNumber(b.latitude) && TruthyNumber(b.longitude) then
      [Hotspot(b.latitude.value, b.longitude.value)]
    else []
  }

  /** `get_or_create(key='budget_cap', defaults={'value': price})`, raised to `price` when below it. */
  function RaiseBudgetCap(preferences: map<string, real>, price: real): map<string, real>
  {
    if BudgetCapKey !in preferences || price > preferences[BudgetCapKey]
    then preferences[BudgetCapKey := price]
    else preferences
  }

  /** The budget cap update of a vote: only a winner strictly pricier than the loser raises it. */
  function VoteBudgetCap(preferences: map<string, real>, priceA: real, priceB: real, winner: string): map<string, real>
  {
    if winner == "A" && priceA > priceB then RaiseBudgetCap(preferences, priceA)
    else if winner == "B" && priceB > priceA then RaiseBudgetCap(preferences, priceB)
    else preferences
  }

  function TargetDiff(winner: string): real
  {
    if winner == "A" then 1.0 else if winner == "B" then -1.0 else 0.0
  }

  /** `LEARNING_RATE * error * (features_a[f] - features_b[f])`. */
  function WeightDelta(fa: FeatureVector, fb: FeatureVector, error: real, f: Feature): real
  {
    LearningRate * error * (fa.Numeric(f) - fb.Numeric(f))
  }

  /** One step of the weight loop: the row of `f` moves by its delta, created at 0.0 if missing. */
  function NudgeOne(weights: map<string, real>, fa: FeatureVector, fb: FeatureVector, error: real, f: Feature): map<string, real>
  {
    weights[Name(f) := GetOrDefault(weights, Name(f), 0.0) + WeightDelta(fa, fb, error, f)]
  }

  /** The loop nudging each weight of `fs`, in order. */
  function NudgeWeights(weights: map<string, real>, fa: FeatureVector, fb: FeatureVector, error: real, fs: seq<Feature>): map<string, real>
  {
    if |fs| == 0 then weights
    else NudgeOne(NudgeWeights(weights, fa, fb, error, fs[..|fs| - 1]), fa, fb, error, fs[|fs| - 1])
  }

  /** Nudging `fs + [f]` is nudging `fs`, then the weight of `f`. */
  lemma NudgeWeightsSnoc(weights: map<string, real>, fa: FeatureVector, fb: FeatureVector, error: real, fs: seq<Feature>, f: Feature)
    ensures NudgeWeights(weights, fa, fb, error, fs + [f]) == NudgeOne(NudgeWeights(weights, fa, fb, error, fs), fa, fb, error, f)
  {
    var s := fs + [f];
    assert s[|s| - 1] == f && s[..|s| - 1] == fs;
  }

  /** Nudging the first `i + 1` features of `fs` is nudging the first `i`, then feature `i`. */
  lemma NudgeWeightsStep(weights: map<string, real>, fa: FeatureVector, fb: FeatureVector, error: real, fs: seq<Feature>, i: int)
    requires 0 <= i < |fs|
    ensures NudgeWeights(weights, fa, fb, error, fs[..i + 1]) == NudgeOne(NudgeWeights(weights, fa, fb, error, fs[..i]), fa, fb, error, fs[i])
  {
    assert fs[..i + 1] == fs[..i] + [fs[i]];
    NudgeWeightsSnoc(weights, fa, fb, error, fs[..i], fs[i]);
  }

  /** A's neighbourhood gains `0.005 * error`, then B's (re-read) loses it. */
  function NudgeNeighborhoods(weights: map<string, real>, nbA: Option<string>, nbB: Option<string>, error: real): map<string, real>
  {
    var afterA := if TruthyText(nbA) then
      weights[nbA.value := GetOrDefault(weights, nbA.value, 0.0) + LearningRate * error * 0.5]
    else weights;
    if TruthyText(nbB) then
      afterA[nbB.value := GetOrDefault(afterA, nbB.value, 0.0) - LearningRate * error * 0.5]
    else afterA
  }

  /** The tables after the hotspot and budget-cap writes, before any weight moves. */
  function VoteRecorded(st: RankerState, a: Listing, b: Listing, winner: string): RankerState
  {
    st.(preferences := VoteBudgetCap(st.preferences, PriceFeature(a), PriceFeature(b), winner),
        hotspots := st.hotspots + VoteHotspots(a, b, winner))
  }

  /** The error of the prediction, computed on the tables after the vote was recorded. */
  function VoteError(st: RankerState, a: Listing, b: Listing, winner: string, sqrt: real -> real): real
  {
    var mid := VoteRecorded(st, a, b, winner);
    TargetDiff(winner) - (Score(a, mid, sqrt) - Score(b, mid, sqrt))
  }

  /** The tables after `FeatureRanker.update_weights(listing_a, listing_b, winner)`. */
  function AfterVote(st: RankerState, a: Listing, b: Listing, winner: string, sqrt: real -> real): RankerState
  {
    var fa, fb := GetFeatureVector(a), GetFeatureVector(b);
    var mid := VoteRecorded(st, a, b, winner);
    var error := VoteError(st, a, b, winner, sqrt);
    mid.(weights := NudgeWeights(mid.weights, fa, fb, error, NumericFeatures),
         neighborhoodWeights := NudgeNeighborhoods(mid.neighborhoodWeights, fa.neighborhood, fb.neighborhood, error))
  }

  // ---------------------------------------------------------------------
  // The tables as mutable state

  class FeatureRanker {
    var featureWeights: map<string, real>
    var neighborhoodWeights: map<string, real>
    var preferences: map<string, real>
    var hotspots: seq<Hotspot>
    var rankingScores: map<int, real>
    const sqrt: real -> real

    constructor (sqrt: real -> real)
      ensures State() == EmptyState && rankingScores == map[] && this.sqrt == sqrt
    {
      featureWeights, neighborhoodWeights, preferences := map[], map[], map[];
      hotspots, rankingScores := [], map[];
      this.sqrt := sqrt;
    }

    function State(): RankerState
      reads this
    {
      RankerState(featureWeights, neighborhoodWeights, preferences, hotspots)
    }

    /**
     * The first half of `update_weights`: records the winner's position as a
     * hotspot, raises the budget cap, and returns the target difference.
     */
    method RecordVote(a: Listing, b: Listing, winner: string) returns (target: real)
      modifies this
      ensures State() == VoteRecorded(old(State()), a, b, winner)
      ensures target == TargetDiff(winner)
      ensures rankingScores == old(rankingScores)
    {
      var priceA := PriceFeature(a);
      var priceB := PriceFeature(b);
      if winner == "A" {
        target := 1.0;
        if TruthyNumber(a.latitude) && TruthyNumber(a.longitude) {
          hotspots := hotspots + [Hotspot(a.latitude.value, a.longitude.value)];
        }
        if priceA > priceB {
          if BudgetCapKey !in preferences {
            preferences := preferences[BudgetCapKey := priceA];
          } else if priceA > preferences[BudgetCapKey] {
            preferences := preferences[BudgetCapKey := priceA];
          }
        }
      } else if winner == "B" {
        target := -1.0;
        if TruthyNumber(b.latitude) && TruthyNumber(b.longitude) {
          hotspots := hotspots + [Hotspot(b.latitude.value, b.longitude.value)];
        }
        if priceB > priceA {
          if BudgetCapKey !in preferences {
            preferences := preferences[BudgetCapKey := priceB];
          } else if priceB > preferences[BudgetCapKey] {
            preferences := preferences[BudgetCapKey := priceB];
          }
        }
      } else {
        target := 0.0;
      }
    }

    /** The loop over the numeric features of `update_weights`. */
    method NudgeFeatureWeights(fa: FeatureVector, fb: FeatureVector, error: real)
      modifies this
      ensures featureWeights == NudgeWeights(old(featureWeights), fa, fb, error, NumericFeatures)
      ensures neighborhoodWeights == old(neighborhoodWeights) && preferences == old(preferences)
      ensures hotspots == old(hotspots) && rankingScores == old(rankingScores)
    {
      for i := 0 to |NumericFeatures|
        invariant featureWeights == NudgeWeights(old(featureWeights), fa, fb, error, NumericFeatures[..i])
        invariant neighborhoodWeights == old(neighborhoodWeights) && preferences == old(preferences)
        invariant hotspots == old(hotspots) && rankingScores == old(rankingScores)
      {
        var f := NumericFeatures[i];
        ghost var before := featureWeights;
        var delta := WeightDelta(fa, fb, error, f);
        var w := GetOrDefault(featureWeights, Name(f), 0.0);
        featureWeights := featureWeights[Name(f) := w + delta];
        assert featureWeights == NudgeOne(before, fa, fb, error, f);
        NudgeWeightsStep(old(featureWeights), fa, fb, error, NumericFeatures, i);
      }
      assert NumericFeatures[..|NumericFeatures|] == NumericFeatures;
    }

    /** The neighbourhood part of `update_weights`: A's row first, then B's. */
    method NudgeNeighborhoodWeights(nbA: Option<string>, nbB: Option<string>, error: real)
      modifies this
      ensures neighborhoodWeights == NudgeNeighborhoods(old(neighborhoodWeights), nbA, nbB, error)
      ensures featureWeights == old(featureWeights) && preferences == old(preferences)
      ensures hotspots == old(hotspots) && rankingScores == old(rankingScores)
    {
      if TruthyText(nbA) {
        var w := GetOrDefault(neighborhoodWeights, nbA.value, 0.0);
        neighborhoodWeights := neighborhoodWeights[nbA.value := w + LearningRate * error * 0.5];
      }
      if TruthyText(nbB) {
        var w := GetOrDefault(neighborhoodWeights, nbB.value, 0.0);
        neighborhoodWeights := neighborhoodWeights[nbB.value := w - LearningRate * error * 0.5];
      }
    }

    /** `FeatureRanker.update_weights(listing_a, listing_b, winner)`. */
    method UpdateWeights(a: Listing, b: Listing, winner: string)
      modifies this
      ensures State() == AfterVote(old(State()), a, b, winner, sqrt)
      ensures rankingScores == old(rankingScores)
    {
      var fa := GetFeatureVector(a);
      var fb := GetFeatureVector(b);
      var target := RecordVote(a, b, winner);
      var currentDiff := Score(a, State(), sqrt) - Score(b, State(), sqrt);
      var error := target - currentDiff;
      assert error == VoteError(old(State()), a, b, winner, sqrt);
      NudgeFeatureWeights(fa, fb, error);
      NudgeNeighborhoodWeights(fa.neighborhood, fb.neighborhood, error);
    }

    /** `FeatureRanker.recompute_all_scores()` over the rows of `MlsHistory`, in order. */
    method RecomputeAllScores(listings: seq<Listing>)
      modifies this
      ensures State() == old(State())
      ensures rankingScores == Rescored(old(rankingScores), listings, ScoreUnder(State(), sqrt))
    {
      var score := ScoreUnder(State(), sqrt);
      for n := 0 to |listings|
        invariant State() == old(State())
        invariant rankingScores == Rescored(old(rankingScores), listings[..n], score)
      {
        assert listings[..n + 1][..n] == listings[..n];
        rankingScores := rankingScores[listings[n].id := Score(listings[n], State(), sqrt)];
      }
      assert listings[..|listings|] == listings;
    }
  }

  /** The score of each listing under fixed tables. */
  function ScoreUnder(st: RankerState, sqrt: real -> real): Listing -> real
  {
    (l: Listing) => Score(l, st, sqrt)
  }

  /** The score rows after writing `score(l)` for each of `listings`, in order. */
  function Rescored(scores: map<int, real>, listings: seq<Listing>, score: Listing -> real): map<int, real>
  {
    if |listings| == 0 then scores
    else
      var last := listings[|listings| - 1];
      Rescored(scores, listings[..|listings| - 1], score)[last.id := score(last)]
  }

  /** A row exists afterwards exactly when it existed before or belongs to one of the listings. */
  lemma {:induction false} RescoredKeys(scores: map<int, real>, listings: seq<Listing>, score: Listing -> real, id: int)
    ensures id in Rescored(scores, listings, score) <==>
      id in scores || exists i :: 0 <= i < |listings| && listings[i].id == id
  {
    if |listings| > 0 {
      var front := listings[..|listings| - 1];
      RescoredKeys(scores, front, score, id);
      if exists i :: 0 <= i < |front| && front[i].id == id {
        var i :| 0 <= i < |front| && front[i].id == id;
        assert listings[i].id == id;
      }
      if exists i :: 0 <= i < |listings| && listings[i].id == id {
        var i :| 0 <= i < |listings| && listings[i].id == id;
        if i < |front| {
          assert front[i].id == id;
        }
      }
    }
  }

  /** With one row per listing id, every listing's row holds its score. */
  lemma {:induction false} RescoredCovers(scores: map<int, real>, listings: seq<Listing>, score: Listing -> real, i: int)
    requires UniqueIds(listings)
    requires 0 <= i < |listings|
    ensures listings[i].id in Rescored(scores, listings, score)
    ensures Rescored(scores, listings, score)[listings[i].id] == score(listings[i])
    decreases |listings|
  {
    var front := listings[..|listings| - 1];
    if i < |listings| - 1 {
      assert front[i] == listings[i];
      assert listings[i].id != listings[|listings| - 1].id;
      RescoredCovers(scores, front, score, i);
    }
  }

  /** A row of no listing keeps its old score. */
  lemma {:induction false} RescoredKeepsOthers(scores: map<int, real>, listings: seq<Listing>, score: Listing -> real, id: int)
    requires id in scores
    requires forall i :: 0 <= i < |listings| ==> listings[i].id != id
    ensures id in Rescored(scores, listings, score) && Rescored(scores, listings, score)[id] == scores[id]
  {
    if |listings| > 0 {
      var front := listings[..|listings| - 1];
      assert forall i :: 0 <= i < |front| ==> front[i] == listings[i];
      RescoredKeepsOthers(scores, front, score, id);
    }
  }


  // ---------------------------------------------------------------------
  // Properties

  /** No feature appears twice in the feature list. */
  lemma NumericFeaturesDistinct()
    ensures forall i, j :: 0 <= i < j < |NumericFeatures| ==> NumericFeatures[i] != NumericFeatures[j]
  {
  }

  /** With no weight row for the features of `fs`, their linear part is 0. */
  lemma {:induction false} LinearScoreWithoutWeights(fv: FeatureVector, weights: map<string, real>, fs: seq<Feature>)
    requires forall f :: f in fs ==> Name(f) !in weights
    ensures LinearScore(fv, weights, fs) == 0.0
  {
    if |fs| > 0 {
      LinearScoreWithoutWeights(fv, weights, fs[..|fs| - 1]);
    }
  }

  /** With no weights, cap, neighbourhood weights or hotspots, every listing scores 0. */
  lemma NeutralScoreIsZero(l: Listing, sqrt: real -> real)
    ensures Score(l, EmptyState, sqrt) == 0.0
  {
    LinearScoreWithoutWeights(GetFeatureVector(l), map[], NumericFeatures);
  }

  /** The over-budget penalty applies only above a truthy cap and never raises the score. */
  lemma BudgetPenaltyNeverRaisesScore(l: Listing, st: RankerState, sqrt: real -> real)
    requires PenaltyWeight(st) >= 0.0
    ensures var fv := GetFeatureVector(l);
      Score(l, st, sqrt) <= LinearScore(fv, st.weights, NumericFeatures)
        + NeighborhoodBonus(fv.neighborhood, st.neighborhoodWeights) + HotspotTerm(fv, st, sqrt)
    ensures var fv := GetFeatureVector(l);
      !(TruthyNumber(BudgetCap(st)) && fv.listPrice > BudgetCap(st).value) ==>
        Score(l, st, sqrt) == LinearScore(fv, st.weights, NumericFeatures)
          + NeighborhoodBonus(fv.neighborhood, st.neighborhoodWeights) + HotspotTerm(fv, st, sqrt)
  {
  }

  /** The budget cap never decreases, and only a decisive vote for the pricier listing moves it. */
  lemma BudgetCapRatchets(preferences: map<string, real>, priceA: real, priceB: real, winner: string)
    ensures var p := VoteBudgetCap(preferences, priceA, priceB, winner);
      && (BudgetCapKey in preferences ==> BudgetCapKey in p && p[BudgetCapKey] >= preferences[BudgetCapKey])
      && (forall k :: k != BudgetCapKey ==> (k in p <==> k in preferences) && (k in p ==> p[k] == preferences[k]))
    ensures var p := VoteBudgetCap(preferences, priceA, priceB, winner);
      var winnerPrice := if winner == "A" then priceA else priceB;
      var loserPrice := if winner == "A" then priceB else priceA;
      if (winner == "A" || winner == "B") && winnerPrice > loserPrice then
        && BudgetCapKey in p
        && p[BudgetCapKey] == (if BudgetCapKey in preferences && preferences[BudgetCapKey] > winnerPrice
                               then preferences[BudgetCapKey] else winnerPrice)
      else p == preferences
  {
  }

  /** A vote other than 'A' or 'B' records no hotspot, leaves the budget cap alone and aims at a zero difference. */
  lemma NonDecisiveVoteRecordsNothing(st: RankerState, a: Listing, b: Listing, winner: string, sqrt: real -> real)
    requires winner != "A" && winner != "B"
    ensures AfterVote(st, a, b, winner, sqrt).hotspots == st.hotspots
    ensures AfterVote(st, a, b, winner, sqrt).preferences == st.preferences
    ensures VoteError(st, a, b, winner, sqrt) == Score(b, st, sqrt) - Score(a, st, sqrt)
  {
  }

  /** A weight row that no feature of `fs` is stored under survives the nudge unchanged. */
  lemma {:induction false} NudgeWeightsElsewhere(weights: map<string, real>, fa: FeatureVector, fb: FeatureVector, error: real, fs: seq<Feature>, k: string)
    requires forall f :: f in fs ==> Name(f) != k
    ensures var w := NudgeWeights(weights, fa, fb, error, fs);
      (k in w <==> k in weights) && (k in w ==> w[k] == weights[k])
  {
    if |fs| > 0 {
      NudgeWeightsElsewhere(weights, fa, fb, error, fs[..|fs| - 1], k);
    }
  }

  /** One step moves the row of its feature by the delta and leaves every other row alone. */
  lemma NudgeOneRows(weights: map<string, real>, fa: FeatureVector, fb: FeatureVector, error: real, f: Feature, k: string)
    ensures var w := NudgeOne(weights, fa, fb, error, f);
      && Name(f) in w && w[Name(f)] == GetOrDefault(weights, Name(f), 0.0) + WeightDelta(fa, fb, error, f)
      && (k != Name(f) ==> (k in w <==> k in weights) && (k in w ==> w[k] == weights[k]))
  {
  }

  /** The weight of a feature of `fs` moves by exactly `0.01 * error * (f_a - f_b)`. */
  lemma {:induction false} NudgeWeightsAt(weights: map<string, real>, fa: FeatureVector, fb: FeatureVector, error: real, fs: seq<Feature>, f: Feature)
    requires forall i, j :: 0 <= i < j < |fs| ==> fs[i] != fs[j]
    requires f in fs
    ensures var w := NudgeWeights(weights, fa, fb, error, fs);
      Name(f) in w && w[Name(f)] == GetOrDefault(weights, Name(f), 0.0) + WeightDelta(fa, fb, error, f)
  {
    var prefix, last := fs[..|fs| - 1], fs[|fs| - 1];
    var before := NudgeWeights(weights, fa, fb, error, prefix);
    assert NudgeWeights(weights, fa, fb, error, fs) == NudgeOne(before, fa, fb, error, last);
    NudgeOneRows(before, fa, fb, error, last, Name(f));
    if f == last {
      forall g | g in prefix ensures Name(g) != Name(f) {
        var i :| 0 <= i < |prefix| && prefix[i] == g;
        assert fs[i] == g && fs[|fs| - 1] == f;
        NameInjective(g, f);
      }
      NudgeWeightsElsewhere(weights, fa, fb, error, prefix, Name(f));
    } else {
      NameInjective(last, f);
      var m :| 0 <= m < |fs| && fs[m] == f;
      assert m < |prefix| && prefix[m] == f;
      NudgeWeightsAt(weights, fa, fb, error, prefix, f);
    }
  }

  /** After a vote, each numeric weight has moved by `0.01 * error * (f_a - f_b)`, the error taken after the vote was recorded. */
  lemma VoteMovesEachWeight(st: RankerState, a: Listing, b: Listing, winner: string, sqrt: real -> real, f: Feature)
    ensures var after := AfterVote(st, a, b, winner, sqrt);
      var error := VoteError(st, a, b, winner, sqrt);
      Name(f) in after.weights &&
      after.weights[Name(f)] == GetOrDefault(st.weights, Name(f), 0.0)
        + WeightDelta(GetFeatureVector(a), GetFeatureVector(b), error, f)
  {
    NumericFeaturesDistinct();
    NudgeWeightsAt(st.weights, GetFeatureVector(a), GetFeatureVector(b), VoteError(st, a, b, winner, sqrt), NumericFeatures, f);
  }

  /** A vote changes no weight row outside the numeric features, such as 'distance_to_hotspot'. */
  lemma VoteKeepsOtherWeights(st: RankerState, a: Listing, b: Listing, winner: string, sqrt: real -> real, k: string)
    requires forall f: Feature :: Name(f) != k
    ensures var after := AfterVote(st, a, b, winner, sqrt);
      (k in after.weights <==> k in st.weights) && (k in after.weights ==> after.weights[k] == st.weights[k])
  {
    NudgeWeightsElsewhere(st.weights, GetFeatureVector(a), GetFeatureVector(b), VoteError(st, a, b, winner, sqrt), NumericFeatures, k);
  }

  /** The sign of a weight's delta: zero for a shared value, positive for a negative error where A is lower. */
  lemma DeltaSign(fa: FeatureVector, fb: FeatureVector, error: real, f: Feature)
    ensures fa.Numeric(f) == fb.Numeric(f) ==> WeightDelta(fa, fb, error, f) == 0.0
    ensures error < 0.0 && fa.Numeric(f) < fb.Numeric(f) ==> WeightDelta(fa, fb, error, f) > 0.0
    ensures error > 0.0 && fa.Numeric(f) > fb.Numeric(f) ==> WeightDelta(fa, fb, error, f) > 0.0
  {
    var diff := fa.Numeric(f) - fb.Numeric(f);
    assert WeightDelta(fa, fb, error, f) == LearningRate * (error * diff);
    if error < 0.0 && diff < 0.0 {
      assert error * diff > 0.0;
    }
    if error > 0.0 && diff > 0.0 {
      assert error * diff > 0.0;
    }
  }

  /** A feature equal in both listings keeps its weight. */
  lemma SharedFeatureKeepsWeight(st: RankerState, a: Listing, b: Listing, winner: string, sqrt: real -> real, f: Feature)
    requires GetFeatureVector(a).Numeric(f) == GetFeatureVector(b).Numeric(f)
    ensures GetOrDefault(AfterVote(st, a, b, winner, sqrt).weights, Name(f), 0.0) == GetOrDefault(st.weights, Name(f), 0.0)
  {
    VoteMovesEachWeight(st, a, b, winner, sqrt, f);
    DeltaSign(GetFeatureVector(a), GetFeatureVector(b), VoteError(st, a, b, winner, sqrt), f);
  }

  /** A shared neighbourhood's weight is unchanged; otherwise A's gains and B's loses `0.005 * error`. */
  lemma NeighborhoodNudge(weights: map<string, real>, nbA: Option<string>, nbB: Option<string>, error: real)
    ensures var w := NudgeNeighborhoods(weights, nbA, nbB, error);
      forall n :: (TruthyText(nbA) ==> n != nbA.value) && (TruthyText(nbB) ==> n != nbB.value) ==>
        (n in w <==> n in weights) && (n in w ==> w[n] == weights[n])
    ensures TruthyText(nbA) && TruthyText(nbB) ==>
      var w := NudgeNeighborhoods(weights, nbA, nbB, error);
      && (nbA == nbB ==> GetOrDefault(w, nbA.value, 0.0) == GetOrDefault(weights, nbA.value, 0.0))
      && (nbA != nbB ==>
            && GetOrDefault(w, nbA.value, 0.0) == GetOrDefault(weights, nbA.value, 0.0) + LearningRate * error * 0.5
            && GetOrDefault(w, nbB.value, 0.0) == GetOrDefault(weights, nbB.value, 0.0) - LearningRate * error * 0.5)
    ensures TruthyText(nbA) && !TruthyText(nbB) ==>
      NudgeNeighborhoods(weights, nbA, nbB, error)
        == weights[nbA.value := GetOrDefault(weights, nbA.value, 0.0) + LearningRate * error * 0.5]
    ensures !TruthyText(nbA) && TruthyText(nbB) ==>
      NudgeNeighborhoods(weights, nbA, nbB, error)
        == weights[nbB.value := GetOrDefault(weights, nbB.value, 0.0) - LearningRate * error * 0.5]
    ensures !TruthyText(nbA) && !TruthyText(nbB) ==> NudgeNeighborhoods(weights, nbA, nbB, error) == weights
  {
  }

  /** With no row for the other features of `fs`, the linear part is the term of `f` alone. */
  lemma {:induction false} LinearScoreSingleRow(fv: FeatureVector, weights: map<string, real>, f: Feature, fs: seq<Feature>)
    requires forall i, j :: 0 <= i < j < |fs| ==> fs[i] != fs[j]
    requires forall i :: 0 <= i < |fs| && fs[i] != f ==> Name(fs[i]) !in weights
    ensures LinearScore(fv, weights, fs) == if f in fs then fv.Numeric(f) * GetOrDefault(weights, Name(f), 0.0) else 0.0
  {
    if |fs| > 0 {
      var prefix, last := fs[..|fs| - 1], fs[|fs| - 1];
      assert forall i :: 0 <= i < |prefix| ==> prefix[i] == fs[i];
      LinearScoreSingleRow(fv, weights, f, prefix);
      assert f in fs <==> f in prefix || f == last by {
        if f in fs {
          var k :| 0 <= k < |fs| && fs[k] == f;
          if k < |prefix| {
            assert prefix[k] == f;
          }
        }
      }
      if last == f {
        assert f !in prefix;
      } else {
        assert GetOrDefault(weights, Name(last), 0.0) == 0.0;
      }
    }
  }

  /** With a single weight row, the linear part is that feature times its weight. */
  lemma {:induction false} LinearScoreOneWeight(fv: FeatureVector, f: Feature, weight: real, fs: seq<Feature>)
    requires forall i, j :: 0 <= i < j < |fs| ==> fs[i] != fs[j]
    ensures LinearScore(fv, map[Name(f) := weight], fs) == if f in fs then fv.Numeric(f) * weight else 0.0
  {
    var weights := map[Name(f) := weight];
    forall i | 0 <= i < |fs| && fs[i] != f ensures Name(fs[i]) !in weights {
      NameInjective(fs[i], f);
      assert Name(fs[i]) != Name(f);
      assert weights.Keys == {Name(f)};
    }
    LinearScoreSingleRow(fv, weights, f, fs);
  }

  /** Without a budget cap, neighbourhood weights or hotspots, the score is its linear part. */
  lemma ScoreIsLinear(l: Listing, st: RankerState, sqrt: real -> real)
    requires BudgetCapKey !in st.preferences && st.neighborhoodWeights == map[] && st.hotspots == []
    ensures Score(l, st, sqrt) == LinearScore(GetFeatureVector(l), st.weights, NumericFeatures)
  {
  }

  lemma MulStrict(w: real, x: real, y: real)
    requires w > 0.0 && x > y
    ensures x * w > y * w
  {
  }

  /** With only a beds weight set, the score is the beds count times that weight. */
  lemma BedsOnlyScore(x: Listing, weight: real, sqrt: real -> real)
    ensures Score(x, EmptyState.(weights := map[Name(Beds) := weight]), sqrt) == GetFeatureVector(x).Numeric(Beds) * weight
  {
    var st := EmptyState.(weights := map[Name(Beds) := weight]);
    NumericFeaturesDistinct();
    ScoreIsLinear(x, st, sqrt);
    LinearScoreOneWeight(GetFeatureVector(x), Beds, weight, NumericFeatures);
  }

  /** With only a positive beds weight set, a listing with more beds outscores one with fewer. */
  lemma MoreBedsOutscore(x: Listing, y: Listing, weight: real, sqrt: real -> real)
    requires weight > 0.0
    requires GetFeatureVector(x).Numeric(Beds) > GetFeatureVector(y).Numeric(Beds)
    ensures var st := EmptyState.(weights := map[Name(Beds) := weight]);
      Score(x, st, sqrt) > Score(y, st, sqrt)
  {
    BedsOnlyScore(x, weight, sqrt);
    BedsOnlyScore(y, weight, sqrt);
    MulStrict(weight, GetFeatureVector(x).Numeric(Beds), GetFeatureVector(y).Numeric(Beds));
  }

  /** Without weights, neighbourhood weights, hotspots or a penalty, a listing scores 0. */
  lemma ZeroScoreWithoutWeights(l: Listing, st: RankerState, sqrt: real -> real)
    requires st.weights == map[] && st.neighborhoodWeights == map[] && st.hotspots == []
    requires !(TruthyNumber(BudgetCap(st)) && PriceFeature(l) > BudgetCap(st).value)
    ensures Score(l, st, sqrt) == 0.0
  {
    LinearScoreWithoutWeights(GetFeatureVector(l), map[], NumericFeatures);
  }

  /**
   * From the neutral state, with no hotspot recorded (A lacks a truthy
   * position), a vote for A moves the beds weight by `0.01 * (beds_a - beds_b)`:
   * negative when A has fewer beds.
   */
  lemma LocationFreeVoteForA(a: Listing, b: Listing, sqrt: real -> real)
    requires !(TruthyNumber(a.latitude) && TruthyNumber(a.longitude))
    ensures var after := AfterVote(EmptyState, a, b, "A", sqrt);
      var fa, fb := GetFeatureVector(a), GetFeatureVector(b);
      && VoteError(EmptyState, a, b, "A", sqrt) == 1.0
      && Name(Beds) in after.weights
      && after.weights[Name(Beds)] == LearningRate * (fa.Numeric(Beds) - fb.Numeric(Beds))
      && (fa.Numeric(Beds) < fb.Numeric(Beds) ==> after.weights[Name(Beds)] < 0.0)
  {
    var mid := VoteRecorded(EmptyState, a, b, "A");
    assert mid.hotspots == [] && mid.weights == map[] && mid.neighborhoodWeights == map[];
    ZeroScoreWithoutWeights(a, mid, sqrt);
    ZeroScoreWithoutWeights(b, mid, sqrt);
    assert VoteError(EmptyState, a, b, "A", sqrt) == 1.0;
    VoteMovesEachWeight(EmptyState, a, b, "A", sqrt, Beds);
  }

  /** A listing with the fields the weight-update test in backend/rankings/tests.py sets. */
  function TestListing(id: int, price: real, beds: real, baths: real, neighborhood: string, latitude: real, longitude: real): Listing
  {
    Listing(id, None, 0, None, None, None, None, Some(neighborhood), None, Some(latitude), Some(longitude),
            Some(beds), Some(baths), None, None, None, None, Some(price), None)
  }

  /** With one hotspot and nothing else learned, a located listing scores -10 times its distance to it. */
  lemma OneHotspotScore(l: Listing, st: RankerState, sqrt: real -> real)
    requires st.weights == map[] && st.neighborhoodWeights == map[] && BudgetCapKey !in st.preferences
    requires |st.hotspots| == 1 && TruthyNumber(l.latitude) && TruthyNumber(l.longitude)
    ensures Score(l, st, sqrt) == Distance(l.latitude.value, l.longitude.value, st.hotspots[0], sqrt) * DefaultDistanceWeight
  {
    LinearScoreWithoutWeights(GetFeatureVector(l), map[], NumericFeatures);
  }

  /**
   * From the neutral state, a vote for a located A that is not pricier than
   * B records A's position as the only hotspot before the error is taken.
   */
  lemma HotspotVoteError(a: Listing, b: Listing, sqrt: real -> real)
    requires TruthyNumber(a.latitude) && TruthyNumber(a.longitude)
    requires TruthyNumber(b.latitude) && TruthyNumber(b.longitude)
    requires PriceFeature(a) <= PriceFeature(b)
    ensures var h := Hotspot(a.latitude.value, a.longitude.value);
      VoteError(EmptyState, a, b, "A", sqrt) ==
        1.0 - (Distance(a.latitude.value, a.longitude.value, h, sqrt) * DefaultDistanceWeight
               - Distance(b.latitude.value, b.longitude.value, h, sqrt) * DefaultDistanceWeight)
  {
    var mid := VoteRecorded(EmptyState, a, b, "A");
    assert mid.hotspots == [Hotspot(a.latitude.value, a.longitude.value)];
    assert mid.preferences == map[];
    OneHotspotScore(a, mid, sqrt);
    OneHotspotScore(b, mid, sqrt);
  }

  /**
   * When the prediction overshot (a negative error), a feature on which A
   * is lower than B gains weight from a zero start.
   */
  lemma NegativeErrorRaisesWeight(st: RankerState, a: Listing, b: Listing, winner: string, sqrt: real -> real, f: Feature)
    requires Name(f) !in st.weights
    requires VoteError(st, a, b, winner, sqrt) < 0.0
    requires GetFeatureVector(a).Numeric(f) < GetFeatureVector(b).Numeric(f)
    ensures var after := AfterVote(st, a, b, winner, sqrt);
      Name(f) in after.weights && after.weights[Name(f)] > 0.0
  {
    VoteMovesEachWeight(st, a, b, winner, sqrt, f);
    DeltaSign(GetFeatureVector(a), GetFeatureVector(b), VoteError(st, a, b, winner, sqrt), f);
  }

  /**
   * With the test's coordinates, the hotspot recorded for the winner before
   * the error is computed makes the error `1 - 10 * sqrt(2)`, which is
   * negative, so the beds weight ends positive although A has fewer beds.
   */
  lemma HotspotFlipsBedsWeight(sqrt: real -> real)
    requires SqrtAxioms(sqrt)
    ensures var a := TestListing(1, 500000.0, 3.0, 2.0, "Northside", 40.0, -70.0);
      var b := TestListing(2, 600000.0, 4.0, 3.0, "Southside", 41.0, -71.0);
      var after := AfterVote(EmptyState, a, b, "A", sqrt);
      Name(Beds) in after.weights && after.weights[Name(Beds)] > 0.0
  {
    var a := TestListing(1, 500000.0, 3.0, 2.0, "Northside", 40.0, -70.0);
    var b := TestListing(2, 600000.0, 4.0, 3.0, "Southside", 41.0, -71.0);
    TestVoteErrorNegative(a, b, sqrt);
    assert GetFeatureVector(a).Numeric(Beds) < GetFeatureVector(b).Numeric(Beds);
    NegativeErrorRaisesWeight(EmptyState, a, b, "A", sqrt, Beds);
  }

  /** The error of the test's vote: A's own position is at distance 0, B's at `sqrt(2)`. */
  lemma TestVoteErrorNegative(a: Listing, b: Listing, sqrt: real -> real)
    requires SqrtAxioms(sqrt)
    requires a.latitude == Some(40.0) && a.longitude == Some(-70.0)
    requires b.latitude == Some(41.0) && b.longitude == Some(-71.0)
    requires PriceFeature(a) <= PriceFeature(b)
    ensures VoteError(EmptyState, a, b, "A", sqrt) == 1.0 - 10.0 * sqrt(2.0) < 0.0
  {
    HotspotVoteError(a, b, sqrt);
    TestDistances(sqrt);
    assert sqrt(1.0) < sqrt(2.0);
  }

  /** The distances of the test's positions to A's position. */
  lemma TestDistances(sqrt: real -> real)
    ensures Distance(40.0, -70.0, Hotspot(40.0, -70.0), sqrt) == sqrt(0.0)
    ensures Distance(41.0, -71.0, Hotspot(40.0, -70.0), sqrt) == sqrt(2.0)
  {
    assert (40.0 - 40.0) * (40.0 - 40.0) + (-70.0 - -70.0) * (-70.0 - -70.0) == 0.0;
    assert (41.0 - 40.0) * (41.0 - 40.0) + (-71.0 - -70.0) * (-71.0 - -70.0) == 2.0;
  }

  /** A distance is never negative. */
  lemma DistanceNonNegative(latitude: real, longitude: real, spot: Hotspot, sqrt: real -> real)
    requires SqrtNonNegative(sqrt)
    ensures Distance(latitude, longitude, spot, sqrt) >= 0.0
  {
    var dl, dg := latitude - spot.latitude, longitude - spot.longitude;
    assert dl * dl >= 0.0 && dg * dg >= 0.0;
  }

  /** With a non-positive distance weight (the default is -10.0), being far from hotspots never raises a score. */
  lemma HotspotTermNeverPositive(fv: FeatureVector, st: RankerState, sqrt: real -> real)
    requires SqrtNonNegative(sqrt)
    requires DistanceWeight(st) <= 0.0
    ensures HotspotTerm(fv, st, sqrt) <= 0.0
  {
    if |st.hotspots| > 0 && TruthyNumber(fv.latitude) && TruthyNumber(fv.longitude) {
      var d := MinDistance(fv.latitude.value, fv.longitude.value, st.hotspots, sqrt);
      var w := DistanceWeight(st);
      assert HotspotTerm(fv, st, sqrt) == d * w;
      MinDistanceNonNegative(fv.latitude.value, fv.longitude.value, st.hotspots, sqrt);
      ProductNonPositive(d, w);
    } else {
      assert HotspotTerm(fv, st, sqrt) == 0.0;
    }
  }

  lemma MinDistanceNonNegative(latitude: real, longitude: real, spots: seq<Hotspot>, sqrt: real -> real)
    requires SqrtNonNegative(sqrt)
    requires |spots| > 0
    ensures MinDistance(latitude, longitude, spots, sqrt) >= 0.0
  {
    var d := MinDistance(latitude, longitude, spots, sqrt);
    var i :| 0 <= i < |spots| && d == Distance(latitude, longitude, spots[i], sqrt);
    DistanceNonNegative(latitude, longitude, spots[i], sqrt);
  }

  lemma ProductNonPositive(x: real, y: real)
    requires x >= 0.0 && y <= 0.0
    ensures x * y <= 0.0
  {
  }

  /** A located listing standing on a recorded hotspot has hotspot term 0, the best any listing can get. */
  lemma OnHotspotTermIsZero(l: Listing, st: RankerState, sqrt: real -> real)
    requires SqrtAxioms(sqrt)
    requires TruthyNumber(l.latitude) && TruthyNumber(l.longitude)
    requires Hotspot(l.latitude.value, l.longitude.value) in st.hotspots
    ensures HotspotTerm(GetFeatureVector(l), st, sqrt) == 0.0
  {
    var fv := GetFeatureVector(l);
    var lat, lon := l.latitude.value, l.longitude.value;
    var j :| 0 <= j < |st.hotspots| && st.hotspots[j] == Hotspot(lat, lon);
    assert (lat - lat) * (lat - lat) + (lon - lon) * (lon - lon) == 0.0;
    assert Distance(lat, lon, st.hotspots[j], sqrt) == 0.0;
    var d := MinDistance(lat, lon, st.hotspots, sqrt);
    var i :| 0 <= i < |st.hotspots| && d == Distance(lat, lon, st.hotspots[i], sqrt);
    DistanceNonNegative(lat, lon, st.hotspots[i], sqrt);
    assert d == 0.0;
  }
}
