/**
 * The dispersion panel of the report: the mean and population variance of
 * the anomaly scores, and the quartiles read by nearest rank from an
 * ascending copy of the scores. The panel divides by the number of
 * results and indexes the sorted copy, so it needs at least one result.
 */
module Dispersion {
  import opened Seqs
  import opened Anomaly

  /** The sum of squared deviations from `m`. */
  function SquaredDeviations(s: seq<real>, m: real): real
  {
    if s == [] then 0.0
    else SquaredDeviations(s[..|s| - 1], m) + Square(s[|s| - 1] - m)
  }

  function Square(d: real): real { d * d }

  /** The population variance: squared deviations from the mean, divided by `n`. */
  function Variance(s: seq<real>): real
    requires |s| > 0
  {
    SquaredDeviations(s, Mean(s)) / |s| as real
  }

  /** `Math.floor(n * p)` for the quartile fractions 0.25, 0.5 and 0.75. */
  function QuartileIndex(n: nat, p: real): int
  {
    (n as real * p).Floor
  }

  datatype Stats = Stats(mean: real, variance: real, q1: real, q2: real, q3: real, iqr: real)

  /** The panel's figures for a non-empty list of scores. */
  function DispersionOf(scores: seq<real>): (r: Stats)
    requires |scores| > 0
    ensures r.q1 in scores && r.q2 in scores && r.q3 in scores
    ensures r.variance >= 0.0
  {
    QuartileIndicesInRange(|scores|);
    RankBounds(scores, QuartileIndex(|scores|, 0.25));
    RankBounds(scores, QuartileIndex(|scores|, 0.5));
    RankBounds(scores, QuartileIndex(|scores|, 0.75));
    VarianceZeroIff(scores);
    var sorted := Ascending(scores);
    var q1 := sorted[QuartileIndex(|scores|, 0.25)];
    var q3 := sorted[QuartileIndex(|scores|, 0.75)];
    Stats(Mean(scores), Variance(scores), q1, sorted[QuartileIndex(|scores|, 0.5)], q3, q3 - q1)
  }

  /** The figures shown for a list of results. */
  function DispersionMetrics(results: seq<AnomalyResult>): (r: Stats)
    requires |results| > 0
    ensures exists i :: 0 <= i < |results| && results[i].anomalyScore == r.q1
    ensures exists i :: 0 <= i < |results| && results[i].anomalyScore == r.q2
    ensures exists i :: 0 <= i < |results| && results[i].anomalyScore == r.q3
    ensures r.variance >= 0.0
  {
    DispersionOf(Scores(results))
  }

  /** For at least one score the three quartile indices are in range and in order. */
  lemma QuartileIndicesInRange(n: nat)
    requires n >= 1
    ensures 0 <= QuartileIndex(n, 0.25) <= QuartileIndex(n, 0.5) <= QuartileIndex(n, 0.75) < n
  {
    var x := n as real;
    assert x * 0.25 <= x * 0.5 <= x * 0.75 < x;
  }

  /** Squared deviations never sum to a negative number, and sum to zero exactly
      when every value equals `m`. */
  lemma {:induction false} SquaredDeviationsZeroIff(s: seq<real>, m: real)
    ensures SquaredDeviations(s, m) >= 0.0
    ensures SquaredDeviations(s, m) == 0.0 <==> forall i :: 0 <= i < |s| ==> s[i] == m
  {
    if s != [] {
      var init := s[..|s| - 1];
      var d := s[|s| - 1] - m;
      SquaredDeviationsZeroIff(init, m);
      SquareSign(d);
      assert forall i :: 0 <= i < |init| ==> init[i] == s[i];
      assert SquaredDeviations(s, m) == SquaredDeviations(init, m) + Square(d);
      if !(forall i :: 0 <= i < |s| ==> s[i] == m) {
        var i :| 0 <= i < |s| && s[i] != m;
        if i < |init| {
          assert init[i] != m;
        } else {
          assert d != 0.0;
        }
      }
    }
  }

  /** A square is never negative, and is positive for a non-zero base. */
  lemma SquareSign(d: real)
    ensures Square(d) >= 0.0
    ensures d != 0.0 ==> Square(d) > 0.0
    ensures d == 0.0 ==> Square(d) == 0.0
  {
    if d != 0.0 {
      calc {
        Square(d);
        d * d;
      > 0.0;
      }
    }
  }

  /** The variance is never negative, and is zero exactly when all scores are equal. */
  lemma VarianceZeroIff(s: seq<real>)
    requires |s| > 0
    ensures Variance(s) >= 0.0
    ensures Variance(s) == 0.0 <==> forall i :: 0 <= i < |s| ==> s[i] == Mean(s)
  {
    SquaredDeviationsZeroIff(s, Mean(s));
  }

  /** The quartiles come from the scores and are in order, so the IQR is never negative. */
  lemma QuartilesOrdered(scores: seq<real>)
    requires |scores| > 0
    ensures var d := DispersionOf(scores);
      d.q1 in scores && d.q2 in scores && d.q3 in scores &&
      d.q1 <= d.q2 <= d.q3 && d.iqr >= 0.0
  {
    var n := |scores|;
    QuartileIndicesInRange(n);
    var i1, i2, i3 := QuartileIndex(n, 0.25), QuartileIndex(n, 0.5), QuartileIndex(n, 0.75);
    var r := SortBy(scores, Identity);
    assert r[i1] in multiset(r) && r[i2] in multiset(r) && r[i3] in multiset(r);
    SortedAt(r, i1, i2);
    SortedAt(r, i2, i3);
  }

  lemma SortedAt(r: seq<real>, i: nat, j: nat)
    requires SortedBy(r, Identity)
    requires i <= j < |r|
    ensures r[i] <= r[j]
  {
    if i < j {
      assert Identity(r[i]) <= Identity(r[j]);
    }
  }

  /** Each quartile has at least `index + 1` scores at or below it and at least
      `n - index` at or above it; for the median that is more than half of the
      scores at or below it and at least half at or above it. */
  lemma QuartileRanks(scores: seq<real>)
    requires |scores| > 0
    ensures var n := |scores|;
      Count(scores, AtMost(DispersionOf(scores).q2)) >= n / 2 + 1 &&
      Count(scores, AtLeast(DispersionOf(scores).q2)) >= n - n / 2 &&
      Count(scores, AtMost(DispersionOf(scores).q1)) >= QuartileIndex(n, 0.25) + 1 &&
      Count(scores, AtLeast(DispersionOf(scores).q3)) >= n - QuartileIndex(n, 0.75)
  {
    var n := |scores|;
    QuartileIndicesInRange(n);
    assert QuartileIndex(n, 0.5) == n / 2;
    RankBounds(scores, QuartileIndex(n, 0.25));
    RankBounds(scores, QuartileIndex(n, 0.5));
    RankBounds(scores, QuartileIndex(n, 0.75));
  }

  /** Scores in [0, 1] give a mean in [0, 1]. */
  lemma MeanOfUnitScores(scores: seq<real>)
    requires |scores| > 0
    requires forall i :: 0 <= i < |scores| ==> 0.0 <= scores[i] <= 1.0
    ensures 0.0 <= DispersionOf(scores).mean <= 1.0
  {
    MeanBetween(scores, 0.0, 1.0);
  }
}
