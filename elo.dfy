/**
 * The Elo rating update of backend/rankings/elo.py. The power `10 ** x` is a
 * parameter `pow10` constrained by PowerOfTen: `10^0 == 1`, positive,
 * `10^x * 10^-x == 1`, strictly increasing. Ratings and scores are exact reals.
 */
module Elo {

  const KFactor: real := 32.0

  /** What the rating update needs to know about `x -> 10 ** x`. */
  ghost predicate PowerOfTen(pow10: real -> real)
  {
    && pow10(0.0) == 1.0
    && (forall x :: pow10(x) > 0.0)
    && (forall x :: pow10(x) * pow10(-x) == 1.0)
    && (forall x, y :: x < y ==> pow10(x) < pow10(y))
  }

  /** The expected score of a player rated `mine` against one rated `theirs`. */
  function Expected(mine: real, theirs: real, pow10: real -> real): real
    requires PowerOfTen(pow10)
  {
    assert pow10((theirs - mine) / 400.0) > 0.0;
    1.0 / (1.0 + pow10((theirs - mine) / 400.0))
  }

  /** The actual scores of A and B: 'A' and 'B' are wins, anything else a tie. */
  function ActualScores(result: string): (r: (real, real))
    ensures r.0 + r.1 == 1.0
    ensures r.0 == 1.0 <==> result == "A"
    ensures r.1 == 1.0 <==> result == "B"
    ensures result != "A" && result != "B" ==> r.0 == r.1
  {
    if result == "A" then (1.0, 0.0)
    else if result == "B" then (0.0, 1.0)
    else (0.5, 0.5)
  }

  /** `EloRatingSystem.calculate_new_ratings(rating_a, rating_b, result)`. */
  function NewRatings(ratingA: real, ratingB: real, result: string, pow10: real -> real): (real, real)
    requires PowerOfTen(pow10)
  {
    var scores := ActualScores(result);
    (ratingA + KFactor * (scores.0 - Expected(ratingA, ratingB, pow10)),
     ratingB + KFactor * (scores.1 - Expected(ratingB, ratingA, pow10)))
  }

  /** The result seen from the other side. */
  function SwapResult(result: string): string
  {
    if result == "A" then "B" else if result == "B" then "A" else result
  }

  /** An expected score is strictly between 0 and 1. */
  lemma ExpectedBounds(mine: real, theirs: real, pow10: real -> real)
    requires PowerOfTen(pow10)
    ensures 0.0 < Expected(mine, theirs, pow10) < 1.0
  {
    var t := pow10((theirs - mine) / 400.0);
    assert t > 0.0;
    assert 1.0 + t > 1.0;
  }

  /** The two expected scores of a game add up to 1. */
  lemma ExpectedComplement(a: real, b: real, pow10: real -> real)
    requires PowerOfTen(pow10)
    ensures Expected(a, b, pow10) + Expected(b, a, pow10) == 1.0
  {
    var d := (b - a) / 400.0;
    assert (a - b) / 400.0 == -d;
    var t, u := pow10(d), pow10(-d);
    assert t > 0.0 && u > 0.0 && t * u == 1.0;
    var ea, eb := 1.0 / (1.0 + t), 1.0 / (1.0 + u);
    assert ea * (1.0 + t) == 1.0;
    assert eb * (1.0 + u) == 1.0;
    calc {
      (ea + eb) * ((1.0 + t) * (1.0 + u));
      (1.0 + u) + (1.0 + t);
      2.0 + t + u;
      (1.0 + t) * (1.0 + u);
    }
  }

  /** The update is zero-sum: the two ratings keep their total. */
  lemma ZeroSum(ratingA: real, ratingB: real, result: string, pow10: real -> real)
    requires PowerOfTen(pow10)
    ensures var r := NewRatings(ratingA, ratingB, result, pow10); r.0 + r.1 == ratingA + ratingB
  {
    ExpectedComplement(ratingA, ratingB, pow10);
  }

  /** The winner strictly gains and the loser strictly loses. */
  lemma WinnerGainsLoserLoses(ratingA: real, ratingB: real, result: string, pow10: real -> real)
    requires PowerOfTen(pow10)
    ensures var r := NewRatings(ratingA, ratingB, result, pow10);
      && (result == "A" ==> r.0 > ratingA && r.1 < ratingB)
      && (result == "B" ==> r.0 < ratingA && r.1 > ratingB)
  {
    ExpectedBounds(ratingA, ratingB, pow10);
    ExpectedBounds(ratingB, ratingA, pow10);
  }

  /** Neither rating moves by K or more. */
  lemma ChangeBoundedByK(ratingA: real, ratingB: real, result: string, pow10: real -> real)
    requires PowerOfTen(pow10)
    ensures var r := NewRatings(ratingA, ratingB, result, pow10);
      && -KFactor < r.0 - ratingA < KFactor
      && -KFactor < r.1 - ratingB < KFactor
  {
    ExpectedBounds(ratingA, ratingB, pow10);
    ExpectedBounds(ratingB, ratingA, pow10);
  }

  /** Any result other than 'A' and 'B' is scored like 'TIE'. */
  lemma OtherResultIsTie(ratingA: real, ratingB: real, result: string, pow10: real -> real)
    requires PowerOfTen(pow10)
    requires result != "A" && result != "B"
    ensures NewRatings(ratingA, ratingB, result, pow10) == NewRatings(ratingA, ratingB, "TIE", pow10)
  {
  }

  /** A tie leaves equal ratings unchanged and takes points from the higher-rated side. */
  lemma TieMovesTowardsEquality(ratingA: real, ratingB: real, pow10: real -> real)
    requires PowerOfTen(pow10)
    ensures var r := NewRatings(ratingA, ratingB, "TIE", pow10);
      && (ratingA == ratingB ==> r == (ratingA, ratingB))
      && (ratingA > ratingB ==> r.0 < ratingA && r.1 > ratingB)
      && (ratingA < ratingB ==> r.0 > ratingA && r.1 < ratingB)
  {
    ExpectedComplement(ratingA, ratingB, pow10);
    var d := (ratingB - ratingA) / 400.0;
    var t := pow10(d);
    assert t > 0.0;
    if ratingA == ratingB {
      assert d == 0.0;
      assert Expected(ratingA, ratingB, pow10) == 0.5;
    } else if ratingA > ratingB {
      assert d < 0.0;
      assert t < 1.0;
      assert (1.0 + t) * 0.5 < 1.0;
      assert Expected(ratingA, ratingB, pow10) > 0.5;
    } else {
      assert d > 0.0;
      assert t > 1.0;
      assert (1.0 + t) * 0.5 > 1.0;
      assert Expected(ratingA, ratingB, pow10) < 0.5;
    }
  }

  /** Swapping the players and the result swaps the new ratings. */
  lemma SwapSymmetric(ratingA: real, ratingB: real, result: string, pow10: real -> real)
    requires PowerOfTen(pow10)
    ensures var r := NewRatings(ratingA, ratingB, result, pow10);
      NewRatings(ratingB, ratingA, SwapResult(result), pow10) == (r.1, r.0)
  {
  }
}
