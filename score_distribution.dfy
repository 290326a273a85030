/**
 * The anomaly-score histogram of the report: ten fixed bins of width 0.1,
 * a score going to bin `min(9, floor(10 · score))`, each bin counting its
 * scores and, separately, those above 0.5; the chart then shows the normal
 * part as the difference. A negative score would index before the first
 * bin and fail, so scores are required to be non-negative.
 */
module ScoreDistribution {
  import opened Seqs
  import opened Anomaly

  const RangeLabels: seq<string> := [
    "0.0-0.1", "0.1-0.2", "0.2-0.3", "0.3-0.4", "0.4-0.5",
    "0.5-0.6", "0.6-0.7", "0.7-0.8", "0.8-0.9", "0.9-1.0"]

  datatype ScoreBin = ScoreBin(range: string, count: nat, anomalies: nat)

  datatype NormalBin = NormalBin(range: string, count: nat, anomalies: nat, normal: int)

  /** `Math.min(9, Math.floor(score * 10))`. */
  function BinIndex(score: real): int
  {
    Min(9, (score * 10.0).Floor)
  }

  /** A score is counted as an anomaly in its bin when it exceeds 0.5. */
  function AnomalyIn(k: int): real -> bool {
    (x: real) => BinIndex(x) == k && x > 0.5
  }

  function BinCountOf(scores: seq<real>, k: int): nat {
    Count(scores, HasIndex(BinIndex, k))
  }

  function AnomaliesOf(scores: seq<real>, k: int): nat {
    Count(scores, AnomalyIn(k))
  }

  /** The bins as the counting loop leaves them. */
  function ExpectedBins(scores: seq<real>): (r: seq<ScoreBin>)
    ensures |r| == 10
  {
    seq(10, k requires 0 <= k < 10 => ScoreBin(RangeLabels[k], BinCountOf(scores, k), AnomaliesOf(scores, k)))
  }

  predicate NonNegativeScores(results: seq<AnomalyResult>) {
    forall i :: 0 <= i < |results| ==> results[i].anomalyScore >= 0.0
  }

  /** The bins after counting one more score. */
  function Tallied(bins: seq<ScoreBin>, score: real): (r: seq<ScoreBin>)
    requires |bins| == 10 && score >= 0.0
    ensures |r| == 10
  {
    BinIndexRange(score);
    var b := BinIndex(score);
    bins[b := ScoreBin(bins[b].range, bins[b].count + 1, bins[b].anomalies + if score > 0.5 then 1 else 0)]
  }

  /** Counting one more score is what the expected bins of the longer list record. */
  lemma ExpectedBinsSnoc(prefix: seq<real>, score: real)
    requires score >= 0.0
    ensures ExpectedBins(prefix + [score]) == Tallied(ExpectedBins(prefix), score)
  {
    var b := BinIndex(score);
    forall k | 0 <= k < 10
      ensures BinCountOf(prefix + [score], k) == BinCountOf(prefix, k) + (if b == k then 1 else 0)
      ensures AnomaliesOf(prefix + [score], k) == AnomaliesOf(prefix, k) + (if b == k && score > 0.5 then 1 else 0)
    {
      CountSnoc(prefix, score, HasIndex(BinIndex, k));
      CountSnoc(prefix, score, AnomalyIn(k));
    }
  }

  /** The body of the counting loop, for one score. */
  method Tally(bins: array<ScoreBin>, score: real)
    requires bins.Length == 10 && score >= 0.0
    modifies bins
    ensures bins[..] == Tallied(old(bins[..]), score)
  {
    BinIndexRange(score);
    var b := BinIndex(score);
    bins[b] := bins[b].(count := bins[b].count + 1);
    if score > 0.5 {
      bins[b] := bins[b].(anomalies := bins[b].anomalies + 1);
    }
  }

  /** The counting loop: each result increments its bin's count, and its anomaly
      count when the score exceeds 0.5. */
  method CountScoreBins(results: seq<AnomalyResult>) returns (bins: array<ScoreBin>)
    requires NonNegativeScores(results)
    ensures fresh(bins)
    ensures bins[..] == ExpectedBins(Scores(results))
  {
    var scores := Scores(results);
    bins := new ScoreBin[10](k requires 0 <= k < 10 => ScoreBin(RangeLabels[k], 0, 0));
    assert bins[..] == ExpectedBins([]);
    for i := 0 to |results|
      invariant bins[..] == ExpectedBins(scores[..i])
    {
      var score := results[i].anomalyScore;
      assert scores[..i + 1] == scores[..i] + [score];
      ExpectedBinsSnoc(scores[..i], score);
      Tally(bins, score);
    }
    assert scores[..|results|] == scores;
  }

  /** `bins.map(bin => ({ ...bin, normal: bin.count - bin.anomalies }))`. */
  function WithNormal(bins: seq<ScoreBin>): (r: seq<NormalBin>)
    ensures |r| == |bins|
    ensures forall i :: 0 <= i < |r| ==>
      r[i].range == bins[i].range && r[i].count == bins[i].count &&
      r[i].anomalies == bins[i].anomalies && r[i].normal == bins[i].count - bins[i].anomalies
  {
    seq(|bins|, i requires 0 <= i < |bins| =>
      NormalBin(bins[i].range, bins[i].count, bins[i].anomalies, bins[i].count - bins[i].anomalies))
  }

  /** A non-negative score goes to one of the ten bins, and bin `k` holds the scores
      from `k / 10` up to, for every bin but the last, `(k + 1) / 10`. */
  lemma BinIndexRange(score: real)
    requires score >= 0.0
    ensures 0 <= BinIndex(score) <= 9
    ensures BinIndex(score) as real / 10.0 <= score
    ensures BinIndex(score) < 9 ==> score < (BinIndex(score) + 1) as real / 10.0
    ensures score >= 0.9 ==> BinIndex(score) == 9
  {
  }

  /** The bin counts add up to the number of results. */
  lemma CountsSumToTotal(scores: seq<real>)
    requires forall i :: 0 <= i < |scores| ==> scores[i] >= 0.0
    ensures TallyTotal(scores, BinIndex, 10) == |scores|
  {
    TallyTotalCount(scores, BinIndex, 10);
    forall i | 0 <= i < |scores|
      ensures IndexBelow(BinIndex, 10)(scores[i])
    {
      BinIndexRange(scores[i]);
    }
    FilterAll(scores, IndexBelow(BinIndex, 10));
  }

  /** The bins' counts, as the chart holds them, add up to the number of results. */
  lemma ExpectedBinsTotal(scores: seq<real>)
    requires forall i :: 0 <= i < |scores| ==> scores[i] >= 0.0
    ensures SumCounts(ExpectedBins(scores)) == |scores|
  {
    CountsSumToTotal(scores);
    SumCountsTally(scores, 10);
    assert ExpectedBins(scores)[..10] == ExpectedBins(scores);
  }

  function SumCounts(bins: seq<ScoreBin>): nat {
    if bins == [] then 0 else SumCounts(bins[..|bins| - 1]) + bins[|bins| - 1].count
  }

  lemma {:induction false} SumCountsTally(scores: seq<real>, k: nat)
    requires k <= 10
    ensures SumCounts(ExpectedBins(scores)[..k]) == TallyTotal(scores, BinIndex, k)
  {
    if k > 0 {
      SumCountsTally(scores, k - 1);
      assert ExpectedBins(scores)[..k][..k - 1] == ExpectedBins(scores)[..k - 1];
    } else {
      assert ExpectedBins(scores)[..0] == [];
    }
  }

  /** In every bin the anomalies are at most the count, so the normal part is never negative. */
  lemma AnomaliesWithinCount(scores: seq<real>, k: int)
    ensures AnomaliesOf(scores, k) <= BinCountOf(scores, k)
  {
    CountMonotone(scores, AnomalyIn(k), HasIndex(BinIndex, k));
  }

  /** Bins 0 to 4 hold scores below 0.5, so they never count an anomaly. */
  lemma LowBinsHaveNoAnomalies(scores: seq<real>, k: int)
    requires 0 <= k <= 4
    requires forall i :: 0 <= i < |scores| ==> scores[i] >= 0.0
    ensures AnomaliesOf(scores, k) == 0
  {
    forall i | 0 <= i < |scores|
      ensures !AnomalyIn(k)(scores[i])
    {
      BinIndexRange(scores[i]);
    }
    FilterNone(scores, AnomalyIn(k));
  }

  /** Bins 6 to 9 hold scores of at least 0.6, so every score in them is an anomaly. */
  lemma HighBinsAreAllAnomalies(scores: seq<real>, k: int)
    requires 6 <= k <= 9
    requires forall i :: 0 <= i < |scores| ==> scores[i] >= 0.0
    ensures AnomaliesOf(scores, k) == BinCountOf(scores, k)
  {
    forall x | HasIndex(BinIndex, k)(x)
      ensures AnomalyIn(k)(x)
    {
      if x < 0.0 {
        assert (x * 10.0).Floor < 0;
      } else {
        BinIndexRange(x);
      }
    }
    CountMonotone(scores, HasIndex(BinIndex, k), AnomalyIn(k));
    AnomaliesWithinCount(scores, k);
  }

  /** The chart's bins: ten fixed ranges in order, counts adding up to the number of
      results, and a normal part that is never negative. */
  lemma ChartBins(results: seq<AnomalyResult>)
    requires NonNegativeScores(results)
    ensures var bins := WithNormal(ExpectedBins(Scores(results)));
      |bins| == 10 &&
      (forall k :: 0 <= k < 10 ==> bins[k].range == RangeLabels[k] && bins[k].normal >= 0) &&
      SumCounts(ExpectedBins(Scores(results))) == |results|
  {
    var scores := Scores(results);
    forall k | 0 <= k < 10
      ensures AnomaliesOf(scores, k) <= BinCountOf(scores, k)
    {
      AnomaliesWithinCount(scores, k);
    }
    ExpectedBinsTotal(scores);
  }
}
