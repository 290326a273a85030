/**
 * The model metadata and evaluation metrics of the analysis
 * (`generateMockModels`, `generateMockEvaluation`): four fixed detectors
 * sharing one feature-importance table over the numeric columns, whose
 * weights are drawn and then normalised to sum to one, random training
 * times in fixed ranges, and metrics drawn in fixed ranges.
 */
module MockModels {
  import opened Wrappers
  import opened Seqs
  import opened Anomaly
  import opened Records

  /** The names of the columns. */
  function Names(cols: seq<SchemaColumn>): (ns: seq<string>)
    ensures |ns| == |cols| && forall i :: 0 <= i < |cols| ==> ns[i] == cols[i].name
  {
    seq(|cols|, i requires 0 <= i < |cols| => cols[i].name)
  }

  /** `Math.random() * 0.5 + 0.1`. */
  function Weight(draw: real): real {
    draw * 0.5 + 0.1
  }

  /** `w` is the weight of one of the draws. */
  predicate FromDraws(w: real, draws: seq<real>) {
    exists i :: 0 <= i < |draws| && w == Weight(draws[i])
  }

  /** The raw weights: `featureImportance[col.name] = Math.random() * 0.5 + 0.1` for
      each numeric column in order, one draw per column. */
  function RawWeights(numericCols: seq<SchemaColumn>, draws: seq<real>): (r: Record<real>)
    requires |draws| == |numericCols|
    ensures DistinctKeys(r)
    ensures forall x :: x in Keys(r) <==> x in Names(numericCols)
    ensures forall j :: 0 <= j < |r| ==> FromDraws(r[j].1, draws)
  {
    if numericCols == [] then []
    else
      var n := |numericCols| - 1;
      var init := RawWeights(numericCols[..n], draws[..n]);
      var r := SetKey(init, numericCols[n].name, Weight(draws[n]));
      assert Names(numericCols) == Names(numericCols[..n]) + [numericCols[n].name];
      WeightsFromDraws(init, r, numericCols[n].name, draws, n);
      r
  }

  /** A key set to a weight from draw `n` keeps every other weight of `init`, each from a draw below `n`. */
  lemma WeightsFromDraws(init: Record<real>, r: Record<real>, k: string, draws: seq<real>, n: nat)
    requires DistinctKeys(init) && n < |draws| && r == SetKey(init, k, Weight(draws[n]))
    requires forall j :: 0 <= j < |init| ==> FromDraws(init[j].1, draws[..n])
    ensures forall j :: 0 <= j < |r| ==> FromDraws(r[j].1, draws)
  {
    forall j | 0 <= j < |r| ensures FromDraws(r[j].1, draws) {
      if j < |init| && init[j].0 != k {
        assert FromDraws(init[j].1, draws[..n]);
        var i :| 0 <= i < n && init[j].1 == Weight(draws[..n][i]);
        assert r[j].1 == Weight(draws[i]);
      } else {
        assert r[j].1 == Weight(draws[n]);
      }
    }
  }

  /** Every value divided by `total` (the two-decimal rounding is not modelled). */
  function Normalize(r: Record<real>, total: real): (r': Record<real>)
    requires total != 0.0
    ensures |r'| == |r| && forall i :: 0 <= i < |r| ==> r'[i] == (r[i].0, r[i].1 / total)
  {
    seq(|r|, i requires 0 <= i < |r| => (r[i].0, r[i].1 / total))
  }

  /** The shared feature-importance table; it stays empty without numeric columns. */
  function FeatureImportance(cols: seq<SchemaColumn>, draws: seq<real>): (r: Record<real>)
    requires |draws| == |Filter(cols, IsNumericColumn)|
    ensures DistinctKeys(r)
    ensures forall x :: x in Keys(r) <==> x in Names(Filter(cols, IsNumericColumn))
  {
    var raw := RawWeights(Filter(cols, IsNumericColumn), draws);
    var total := Sum(Values(raw));
    if total == 0.0 then raw
    else
      var fi := Normalize(raw, total);
      assert Keys(fi) == Keys(raw);
      fi
  }

  /** The training-time draws of the four models. */
  datatype TimeDraws = TimeDraws(forest: real, boosting: real, lof: real, hbos: real)

  /** `generateMockModels`. */
  function GenerateMockModels(cols: seq<SchemaColumn>, draws: seq<real>, times: TimeDraws): (r: seq<ModelResult>)
    requires |draws| == |Filter(cols, IsNumericColumn)|
    ensures |r| == 4
    ensures forall k :: 0 <= k < |r| ==> r[k].featureImportance == FeatureImportance(cols, draws)
  {
    Models(FeatureImportance(cols, draws), times)
  }

  /** The four models, each with its fixed parameters, sharing the table `fi`. */
  function Models(fi: Record<real>, times: TimeDraws): seq<ModelResult> {
    [ ModelResult("IsolationForest",
        [("n_estimators", 100.0), ("contamination", 0.05), ("random_state", 42.0)], fi, times.forest * 2.0 + 0.5),
      ModelResult("LightGBM Outlier",
        [("num_leaves", 31.0), ("learning_rate", 0.05), ("n_estimators", 100.0)], fi, times.boosting * 3.0 + 1.0),
      ModelResult("Local Outlier Factor",
        [("n_neighbors", 20.0), ("contamination", 0.05)], fi, times.lof * 1.5 + 0.3),
      ModelResult("HBOS", [("n_bins", 10.0), ("alpha", 0.1)], fi, times.hbos * 0.5 + 0.1) ]
  }

  lemma {:induction false} SumScaled(vs: seq<real>, total: real)
    requires total != 0.0
    ensures Sum(seq(|vs|, i requires 0 <= i < |vs| => vs[i] / total)) == Sum(vs) / total
  {
    var scaled := seq(|vs|, i requires 0 <= i < |vs| => vs[i] / total);
    if vs != [] {
      var n := |vs| - 1;
      SumScaled(vs[..n], total);
      assert scaled[..n] == seq(n, i requires 0 <= i < n => vs[..n][i] / total);
    }
  }

  lemma {:induction false} SumPositive(vs: seq<real>)
    requires |vs| > 0 && forall i :: 0 <= i < |vs| ==> vs[i] > 0.0
    ensures Sum(vs) > 0.0
  {
    if |vs| > 1 {
      SumPositive(vs[..|vs| - 1]);
    }
  }

  lemma RawWeightsPositive(raw: Record<real>, draws: seq<real>)
    requires forall i :: 0 <= i < |draws| ==> 0.0 <= draws[i] < 1.0
    requires forall j :: 0 <= j < |raw| ==> FromDraws(raw[j].1, draws)
    ensures forall j :: 0 <= j < |raw| ==> raw[j].1 > 0.0
  {
    forall j | 0 <= j < |raw| ensures raw[j].1 > 0.0 {
      assert FromDraws(raw[j].1, draws);
      var i :| 0 <= i < |draws| && raw[j].1 == Weight(draws[i]);
    }
  }

  /** Normalising positive weights keeps the keys and the signs and makes the weights sum to one. */
  lemma NormalizePositive(raw: Record<real>)
    requires |raw| > 0 && DistinctKeys(raw)
    requires forall j :: 0 <= j < |raw| ==> raw[j].1 > 0.0
    ensures Sum(Values(raw)) > 0.0
    ensures var fi := Normalize(raw, Sum(Values(raw)));
      DistinctKeys(fi) && Keys(fi) == Keys(raw) &&
      (forall j :: 0 <= j < |fi| ==> fi[j].1 > 0.0) &&
      Sum(Values(fi)) == 1.0
  {
    var vs := Values(raw);
    SumPositive(vs);
    var total := Sum(vs);
    var fi := Normalize(raw, total);
    SumScaled(vs, total);
    assert Values(fi) == seq(|vs|, i requires 0 <= i < |vs| => vs[i] / total);
    assert Keys(fi) == Keys(raw);
    assert total / total == 1.0;
  }

  /** With a numeric column and draws in `[0, 1)`, the feature weights are positive, keyed
      by the numeric column names without repetition, and add up to one. */
  lemma FeatureImportanceNormalized(cols: seq<SchemaColumn>, draws: seq<real>)
    requires |draws| == |Filter(cols, IsNumericColumn)| > 0
    requires forall i :: 0 <= i < |draws| ==> 0.0 <= draws[i] < 1.0
    ensures var fi := FeatureImportance(cols, draws);
      DistinctKeys(fi) &&
      (forall x :: x in Keys(fi) <==> x in Names(Filter(cols, IsNumericColumn))) &&
      (forall j :: 0 <= j < |fi| ==> fi[j].1 > 0.0) &&
      Sum(Values(fi)) == 1.0
  {
    var numericCols := Filter(cols, IsNumericColumn);
    var raw := RawWeights(numericCols, draws);
    assert |raw| > 0 by {
      assert Names(numericCols)[0] in Names(numericCols);
    }
    RawWeightsPositive(raw, draws);
    NormalizePositive(raw);
  }

  /** Four models in a fixed order sharing one table. */
  lemma MockModelsShape(cols: seq<SchemaColumn>, draws: seq<real>, times: TimeDraws)
    requires |draws| == |Filter(cols, IsNumericColumn)|
    ensures var ms := GenerateMockModels(cols, draws, times);
      |ms| == 4 &&
      ms[0].name == "IsolationForest" && ms[1].name == "LightGBM Outlier" &&
      ms[2].name == "Local Outlier Factor" && ms[3].name == "HBOS" &&
      (forall k :: 0 <= k < 4 ==> ms[k].featureImportance == FeatureImportance(cols, draws))
  {
    ModelsShape(FeatureImportance(cols, draws), times);
  }

  lemma ModelsShape(fi: Record<real>, times: TimeDraws)
    ensures var ms := Models(fi, times);
      |ms| == 4 &&
      ms[0].name == "IsolationForest" && ms[1].name == "LightGBM Outlier" &&
      ms[2].name == "Local Outlier Factor" && ms[3].name == "HBOS" &&
      (forall k :: 0 <= k < 4 ==> ms[k].featureImportance == fi)
  {
  }

  /** Each training time lies in its range. */
  lemma MockModelTimes(cols: seq<SchemaColumn>, draws: seq<real>, times: TimeDraws)
    requires |draws| == |Filter(cols, IsNumericColumn)|
    requires 0.0 <= times.forest < 1.0 && 0.0 <= times.boosting < 1.0
    requires 0.0 <= times.lof < 1.0 && 0.0 <= times.hbos < 1.0
    ensures var ms := GenerateMockModels(cols, draws, times);
      0.5 <= ms[0].trainingTime < 2.5 && 1.0 <= ms[1].trainingTime < 4.0 &&
      0.3 <= ms[2].trainingTime < 1.8 && 0.1 <= ms[3].trainingTime < 0.6
  {
  }

  /** The five metric draws. */
  datatype MetricDraws = MetricDraws(accuracy: real, precision: real, recall: real, f1: real, rocAuc: real)

  /** `generateMockEvaluation`. */
  function GenerateMockEvaluation(d: MetricDraws): (e: EvaluationMetrics)
    ensures e.isSynthetic
    ensures e.accuracy.Some? && e.precision.Some? && e.recall.Some? && e.f1Score.Some? && e.rocAuc.Some?
  {
    EvaluationMetrics(
      Some(0.92 + d.accuracy * 0.05), Some(0.85 + d.precision * 0.1), Some(0.80 + d.recall * 0.15),
      Some(0.82 + d.f1 * 0.1), Some(0.90 + d.rocAuc * 0.08), true)
  }

  /** Every metric is present, lies in its range inside `[0.8, 0.98)`, and is marked synthetic. */
  lemma MockEvaluationRanges(d: MetricDraws)
    requires 0.0 <= d.accuracy < 1.0 && 0.0 <= d.precision < 1.0 && 0.0 <= d.recall < 1.0
    requires 0.0 <= d.f1 < 1.0 && 0.0 <= d.rocAuc < 1.0
    ensures var e := GenerateMockEvaluation(d);
      e.isSynthetic &&
      e.accuracy.Some? && 0.92 <= e.accuracy.value < 0.97 &&
      e.precision.Some? && 0.85 <= e.precision.value < 0.95 &&
      e.recall.Some? && 0.80 <= e.recall.value < 0.95 &&
      e.f1Score.Some? && 0.82 <= e.f1Score.value < 0.92 &&
      e.rocAuc.Some? && 0.90 <= e.rocAuc.value < 0.98
  {
  }
}
