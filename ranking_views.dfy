/**
 * The comparison endpoints of backend/rankings/views.py: the score histogram,
 * recording a pairwise vote with its Elo update, and drawing a pair of
 * listings to compare. The tables `MlsHistory` (listing ids),
 * `RankingScore` (listing id to score) and `RankingComparison` (the vote
 * ledger) are fields of the class RankingDb.
 */
module RankingViews {
  import opened Wrappers
  import opened ListingModel
  import Elo

  const NumBins: nat := 10
  const PairPoolSize: nat := 100

  // ---------------------------------------------------------------------
  // The score histogram

  /** Python's `min` of a non-empty list. */
  function SeqMin(s: seq<real>): (m: real)
    requires |s| > 0
    ensures m in s && forall x :: x in s ==> m <= x
  {
    if |s| == 1 then s[0]
    else
      var rest := SeqMin(s[1..]);
      assert forall x :: x in s ==> x == s[0] || x in s[1..];
      if s[0] <= rest then s[0] else rest
  }

  /** Python's `max` of a non-empty list. */
  function SeqMax(s: seq<real>): (m: real)
    requires |s| > 0
    ensures m in s && forall x :: x in s ==> x <= m
  {
    if |s| == 1 then s[0]
    else
      var rest := SeqMax(s[1..]);
      assert forall x :: x in s ==> x == s[0] || x in s[1..];
      if s[0] >= rest then s[0] else rest
  }

  /** `[lo + i * bin_size for i in range(11)]` with `bin_size = (hi - lo) / 10`. */
  function BinEdges(lo: real, hi: real): (edges: seq<real>)
    ensures |edges| == NumBins + 1
  {
    seq(NumBins + 1, i => lo + (i as real) * ((hi - lo) / NumBins as real))
  }

  /** The test of the inner loop: bins are closed on the left, and only the last is closed on the right. */
  predicate InBin(x: real, edges: seq<real>, i: nat)
    requires |edges| == NumBins + 1 && i < NumBins
  {
    x >= edges[i] && (x < edges[i + 1] || (i == NumBins - 1 && x <= edges[i + 1]))
  }

  /** The bin at which the inner loop, started at `i`, breaks; None when it runs to the end. */
  function FirstBin(x: real, edges: seq<real>, i: nat): (r: Option<nat>)
    requires |edges| == NumBins + 1 && i <= NumBins
    ensures r.Some? ==> i <= r.value < NumBins && InBin(x, edges, r.value)
    ensures r.Some? ==> forall k :: i <= k < r.value ==> !InBin(x, edges, k)
    ensures r.None? ==> forall k :: i <= k < NumBins ==> !InBin(x, edges, k)
    decreases NumBins - i
  {
    if i == NumBins then None
    else if InBin(x, edges, i) then Some(i)
    else FirstBin(x, edges, i + 1)
  }

  /** The number of scores of `s` that the loop counts in bin `k`. */
  function Count(s: seq<real>, edges: seq<real>, k: nat): nat
    requires |edges| == NumBins + 1
  {
    if |s| == 0 then 0
    else Count(s[..|s| - 1], edges, k) + (if FirstBin(s[|s| - 1], edges, 0) == Some(k) then 1 else 0)
  }

  function Sum(s: seq<nat>): nat
  {
    if |s| == 0 then 0 else Sum(s[..|s| - 1]) + s[|s| - 1]
  }

  /** `get_ranking_distribution()` over the stored scores. */
  method GetRankingDistribution(scores: seq<real>) returns (bins: seq<real>, counts: seq<nat>)
    ensures |scores| == 0 ==> bins == [] && counts == []
    ensures |scores| > 0 && SeqMin(scores) == SeqMax(scores) ==>
      bins == [SeqMin(scores), SeqMax(scores) + 1.0] && counts == [|scores|]
    ensures |scores| > 0 && SeqMin(scores) != SeqMax(scores) ==>
      && bins == BinEdges(SeqMin(scores), SeqMax(scores))
      && |counts| == NumBins
      && (forall k :: 0 <= k < NumBins ==> counts[k] == Count(scores, bins, k))
      && Sum(counts) == |scores|
  {
    if |scores| == 0 {
      return [], [];
    }
    var minScore := SeqMin(scores);
    var maxScore := SeqMax(scores);
    if minScore == maxScore {
      return [minScore, maxScore + 1.0], [|scores|];
    }
    var binSize := (maxScore - minScore) / NumBins as real;
    bins := seq(NumBins + 1, i => minScore + (i as real) * binSize);
    assert bins == BinEdges(minScore, maxScore) by {
      forall i | 0 <= i <= NumBins ensures bins[i] == BinEdges(minScore, maxScore)[i] {
      }
    }
    counts := CountIntoBins(scores, bins);
    CountsAddUp(scores, counts, minScore, maxScore);
  }

  /** The nested loops of `get_ranking_distribution`: each score is counted in the first bin that holds it. */
  method CountIntoBins(scores: seq<real>, bins: seq<real>) returns (counts: seq<nat>)
    requires |bins| == NumBins + 1
    ensures |counts| == NumBins
    ensures forall k :: 0 <= k < NumBins ==> counts[k] == Count(scores, bins, k)
  {
    var c := new nat[NumBins](_ => 0);
    for j := 0 to |scores|
      invariant forall k :: 0 <= k < NumBins ==> c[k] == Count(scores[..j], bins, k)
    {
      var s := scores[j];
      assert scores[..j + 1][..j] == scores[..j];
      var i := 0;
      while i < NumBins
        invariant 0 <= i <= NumBins
        invariant FirstBin(s, bins, 0) == FirstBin(s, bins, i)
        invariant forall k :: 0 <= k < NumBins ==> c[k] == Count(scores[..j], bins, k)
        decreases NumBins - i
      {
        if s >= bins[i] && (s < bins[i + 1] || (i == NumBins - 1 && s <= bins[i + 1])) {
          c[i] := c[i] + 1;
          break;
        }
        i := i + 1;
      }
    }
    assert scores[..|scores|] == scores;
    counts := c[..];
  }

  /** With edges from the least to the greatest score, the counts add up to the number of scores. */
  lemma CountsAddUp(scores: seq<real>, counts: seq<nat>, lo: real, hi: real)
    requires lo < hi && forall x :: x in scores ==> lo <= x <= hi
    requires |counts| == NumBins
    requires forall k :: 0 <= k < NumBins ==> counts[k] == Count(scores, BinEdges(lo, hi), k)
    ensures Sum(counts) == |scores|
  {
    var bins := BinEdges(lo, hi);
    EdgesAscending(lo, hi);
    forall x | x in scores ensures FirstBin(x, bins, 0).Some? {
      EveryScoreHasABin(x, lo, hi, 0);
    }
    SumOfCounts(counts, scores, bins, NumBins);
    assert counts[..NumBins] == counts;
    TotalIsLength(scores, bins);
  }

  /** The 11 edges go strictly up from `lo` to `hi`, the last one exactly `hi`. */
  lemma EdgesAscending(lo: real, hi: real)
    requires lo < hi
    ensures var e := BinEdges(lo, hi);
      e[0] == lo && e[NumBins] == hi && forall i, j :: 0 <= i < j <= NumBins ==> e[i] < e[j]
  {
    var e := BinEdges(lo, hi);
    var size := (hi - lo) / NumBins as real;
    assert size > 0.0;
    forall i, j | 0 <= i < j <= NumBins ensures e[i] < e[j] {
      var d := (j - i) as real;
      assert d >= 1.0;
      assert d * size >= size by {
        assert d * size - size == (d - 1.0) * size;
        assert (d - 1.0) * size >= 0.0;
      }
      assert e[j] - e[i] == d * size;
    }
  }

  /** A score between the least and the greatest falls into a bin at or after `i` once it is past edge `i`. */
  lemma {:induction false} EveryScoreHasABin(x: real, lo: real, hi: real, i: nat)
    requires lo < hi && lo <= x <= hi
    requires i < NumBins && x >= BinEdges(lo, hi)[i]
    ensures FirstBin(x, BinEdges(lo, hi), i).Some?
    decreases NumBins - i
  {
    EdgesAscending(lo, hi);
    var e := BinEdges(lo, hi);
    if !InBin(x, e, i) {
      assert x >= e[i + 1];
      EveryScoreHasABin(x, lo, hi, i + 1);
    }
  }

  /** No score lies in two bins. */
  lemma BinsDisjoint(x: real, lo: real, hi: real, k: nat, k': nat)
    requires lo < hi && k < NumBins && k' < NumBins
    requires InBin(x, BinEdges(lo, hi), k) && InBin(x, BinEdges(lo, hi), k')
    ensures k == k'
  {
    EdgesAscending(lo, hi);
  }

  /** The counts of bins `0 .. n - 1` together. */
  function TotalBelow(s: seq<real>, edges: seq<real>, n: nat): nat
    requires |edges| == NumBins + 1
  {
    if n == 0 then 0 else TotalBelow(s, edges, n - 1) + Count(s, edges, n - 1)
  }

  lemma {:induction false} SumOfCounts(counts: seq<nat>, s: seq<real>, edges: seq<real>, n: nat)
    requires |edges| == NumBins + 1 && n <= |counts|
    requires forall k :: 0 <= k < n ==> counts[k] == Count(s, edges, k)
    ensures Sum(counts[..n]) == TotalBelow(s, edges, n)
  {
    if n > 0 {
      assert counts[..n][..n - 1] == counts[..n - 1];
      SumOfCounts(counts, s, edges, n - 1);
    }
  }

  lemma {:induction false} TotalBelowSnoc(s: seq<real>, edges: seq<real>, n: nat)
    requires |edges| == NumBins + 1 && |s| > 0
    ensures var b := FirstBin(s[|s| - 1], edges, 0);
      TotalBelow(s, edges, n) == TotalBelow(s[..|s| - 1], edges, n) + (if b.Some? && b.value < n then 1 else 0)
  {
    if n > 0 {
      TotalBelowSnoc(s, edges, n - 1);
    }
  }

  lemma {:induction false} TotalBelowEmpty(edges: seq<real>, n: nat)
    requires |edges| == NumBins + 1
    ensures TotalBelow([], edges, n) == 0
  {
    if n > 0 {
      TotalBelowEmpty(edges, n - 1);
    }
  }

  /** When every score has a bin, the counts add up to the number of scores. */
  lemma {:induction false} TotalIsLength(s: seq<real>, edges: seq<real>)
    requires |edges| == NumBins + 1
    requires forall x :: x in s ==> FirstBin(x, edges, 0).Some?
    ensures TotalBelow(s, edges, NumBins) == |s|
  {
    if |s| > 0 {
      var prefix, last := s[..|s| - 1], s[|s| - 1];
      assert last in s;
      assert forall x :: x in prefix ==> x in s;
      TotalIsLength(prefix, edges);
      TotalBelowSnoc(s, edges, NumBins);
      var b := FirstBin(last, edges, 0);
      assert b.Some? && b.value < NumBins;
      assert TotalBelow(s, edges, NumBins) == TotalBelow(prefix, edges, NumBins) + 1;
    } else {
      TotalBelowEmpty(edges, NumBins);
    }
  }

  // ---------------------------------------------------------------------
  // Recording a vote

  datatype Comparison = Comparison(listingA: int, listingB: int, winner: string)

  /**
   * An id field of the request body as `MlsHistory.objects.get(id=...)`
   * sees it: absent (or null), a value the integer primary key converts to
   * `n` (such as 7, "7" or 7.0), or one it cannot convert (such as "abc").
   */
  datatype RequestId = NoId | IntId(n: int) | MalformedId

  /** How `MlsHistory.objects.get(id=...)` ends. */
  datatype Lookup = Found(id: int) | DoesNotExist | ValueError

  /** The response of `submit_comparison`; `ServerError` is an exception the view does not catch. */
  datatype SubmitOutcome = InvalidWinner | ListingNotFound | ServerError | Created

  predicate ValidWinner(winner: string)
  {
    winner == "A" || winner == "B" || winner == "TIE"
  }

  /** `MlsHistory.objects.get(id=id)`: a missing id filters on NULL and finds nothing; an unconvertible one raises. */
  function GetListing(id: RequestId, listingIds: set<int>): Lookup
  {
    match id
    case NoId => DoesNotExist
    case MalformedId => ValueError
    case IntId(n) => if n in listingIds then Found(n) else DoesNotExist
  }

  /**
   * The two lookups of the `try` block, A's first: `DoesNotExist` becomes a
   * 404, and a `ValueError`, which the `except` clause does not name,
   * escapes the view.
   */
  function LookupPair(a: RequestId, b: RequestId, listingIds: set<int>): (r: Result<(int, int), SubmitOutcome>)
    ensures r.Success? <==> a.IntId? && a.n in listingIds && b.IntId? && b.n in listingIds
    ensures r.Success? ==> r.value == (a.n, b.n)
    ensures r.Failure? ==> r.error == ListingNotFound || r.error == ServerError
    ensures r == Failure(ServerError) <==>
      a.MalformedId? || (a.IntId? && a.n in listingIds && b.MalformedId?)
  {
    match GetListing(a, listingIds)
    case ValueError => Failure(ServerError)
    case DoesNotExist => Failure(ListingNotFound)
    case Found(x) =>
      match GetListing(b, listingIds)
      case ValueError => Failure(ServerError)
      case DoesNotExist => Failure(ListingNotFound)
      case Found(y) => Success((x, y))
  }

  /** A's lookup comes first: a listing A that does not exist gives a 404 whatever B's id is. */
  lemma MissingAHidesMalformedB(a: RequestId, listingIds: set<int>)
    requires a.NoId? || (a.IntId? && a.n !in listingIds)
    ensures LookupPair(a, MalformedId, listingIds) == Failure(ListingNotFound)
  {
  }

  class RankingDb {
    var listingIds: set<int>
    var scores: map<int, real>
    var comparisons: seq<Comparison>
    /** The value `RankingScore.score` is created with. */
    const defaultScore: real

    constructor (listingIds: set<int>, defaultScore: real)
      ensures this.listingIds == listingIds && scores == map[] && comparisons == []
      ensures this.defaultScore == defaultScore
    {
      this.listingIds := listingIds;
      scores, comparisons := map[], [];
      this.defaultScore := defaultScore;
    }

    /** `submit_comparison` with the request fields `listing_a_id`, `listing_b_id` and `winner`. */
    method SubmitComparison(a: RequestId, b: RequestId, winner: string, pow10: real -> real) returns (outcome: SubmitOutcome)
      requires Elo.PowerOfTen(pow10)
      modifies this
      ensures listingIds == old(listingIds)
      ensures outcome == InvalidWinner <==> !ValidWinner(winner)
      ensures ValidWinner(winner) && LookupPair(a, b, listingIds).Failure? ==> outcome == LookupPair(a, b, listingIds).error
      ensures outcome == Created <==> ValidWinner(winner) && LookupPair(a, b, listingIds).Success?
      ensures outcome != Created ==> scores == old(scores) && comparisons == old(comparisons)
      ensures outcome == Created ==>
        var oldA := GetOrDefault(old(scores), a.n, defaultScore);
        var oldB := GetOrDefault(old(scores), b.n, if b == a then oldA else defaultScore);
        var r := Elo.NewRatings(oldA, oldB, winner, pow10);
        && comparisons == old(comparisons) + [Comparison(a.n, b.n, winner)]
        && scores == old(scores)[a.n := r.0][b.n := r.1]
        && (a != b ==> scores[a.n] + scores[b.n] == oldA + oldB)
    {
      if !ValidWinner(winner) {
        return InvalidWinner;
      }
      var found := LookupPair(a, b, listingIds);
      if found.Failure? {
        return found.error;
      }
      var (idA, idB) := found.value;
      comparisons := comparisons + [Comparison(idA, idB, winner)];
      if idA !in scores {
        scores := scores[idA := defaultScore];
      }
      var scoreA := scores[idA];
      if idB !in scores {
        scores := scores[idB := defaultScore];
      }
      var scoreB := scores[idB];
      var ratings := Elo.NewRatings(scoreA, scoreB, winner, pow10);
      scores := scores[idA := ratings.0];
      scores := scores[idB := ratings.1];
      Elo.ZeroSum(scoreA, scoreB, winner, pow10);
      outcome := Created;
    }
  }

  // ---------------------------------------------------------------------
  // Drawing a pair

  /** `get_comparison_pair()`: two different rows of the first 100, or a failure when there are fewer than two. */
  method GetComparisonPair(listings: seq<Listing>) returns (r: Result<(Listing, Listing), string>)
    ensures var pool := listings[..if |listings| < PairPoolSize then |listings| else PairPoolSize];
      && (r.Failure? <==> |pool| < 2)
      && (r.Success? ==> exists i, j :: 0 <= i < |pool| && 0 <= j < |pool| && i != j && r.value == (pool[i], pool[j]))
    ensures r.Success? && UniqueIds(listings) ==> r.value.0.id != r.value.1.id
  {
    var pool := listings[..if |listings| < PairPoolSize then |listings| else PairPoolSize];
    if |pool| < 2 {
      return Failure("Not enough listings");
    }
    var i, j :| 0 <= i < |pool| && 0 <= j < |pool| && i != j;
    r := Success((pool[i], pool[j]));
  }
}
