/**
 * The model comparison charts: per model its training time, feature count,
 * top and mean feature importance; and for the radar chart, an abbreviated
 * name, an efficiency score normalized against the slowest model, the two
 * importances as percentages and the shared F1 axis.
 */
module ModelComparison {
  import opened Wrappers
  import opened Seqs
  import opened Strings
  import opened JsNumber
  import opened Records
  import opened Anomaly

  /** One bar of the training-efficiency chart. */
  datatype ModelPoint = ModelPoint(
    name: string,
    trainingTime: real,
    featureCount: nat,
    topImportance: JsNum,
    avgImportance: real)

  /** `Math.max(...values) || 0`: the largest importance; with no features `Math.max()`
      is -Infinity, which is truthy and so kept. */
  function TopImportance(values: seq<real>): (r: JsNum)
    ensures values == [] <==> r == Infinity(true)
    ensures values != [] ==> r.Finite?
    ensures values != [] ==> exists i :: 0 <= i < |values| && values[i] == r.value
    ensures values != [] ==> forall i :: 0 <= i < |values| ==> values[i] <= r.value
  {
    if values == [] then Infinity(true) else Finite(MaxOf(values))
  }

  /** `sum / count || 0`: the mean importance; with no features 0 / 0 is NaN, which is
      falsy and so replaced by 0. */
  function AvgImportance(values: seq<real>): (r: real)
    ensures values == [] ==> r == 0.0
    ensures values != [] ==> r == Mean(values)
  {
    if values == [] then 0.0 else Mean(values)
  }

  /** `modelData`'s entry for one model: with distinct keys the feature count is the
      number of distinct feature names, and the mean lies between the smallest and the
      largest importance. */
  function PointOf(m: ModelResult): (r: ModelPoint)
    ensures r.name == m.name && r.trainingTime == m.trainingTime
    ensures DistinctKeys(m.featureImportance) ==> r.featureCount == |KeySet(m.featureImportance)|
    ensures Values(m.featureImportance) != [] ==>
      MinOf(Values(m.featureImportance)) <= r.avgImportance <= MaxOf(Values(m.featureImportance))
  {
    var values := Values(m.featureImportance);
    assert values != [] ==> MinOf(values) <= AvgImportance(values) <= MaxOf(values) by {
      if values != [] {
        MeanBetween(values, MinOf(values), MaxOf(values));
      }
    }
    assert DistinctKeys(m.featureImportance) ==> |m.featureImportance| == |KeySet(m.featureImportance)| by {
      if DistinctKeys(m.featureImportance) {
        KeySetSize(m.featureImportance);
      }
    }
    ModelPoint(m.name, m.trainingTime, |m.featureImportance|, TopImportance(values), AvgImportance(values))
  }

  function ModelData(models: seq<ModelResult>): (r: seq<ModelPoint>)
    ensures |r| == |models|
    ensures forall i :: 0 <= i < |r| ==> r[i] == PointOf(models[i])
  {
    seq(|models|, i requires 0 <= i < |models| => PointOf(models[i]))
  }

  /** The training time of each model, in order. */
  function TrainingTimes(models: seq<ModelResult>): (r: seq<real>)
    ensures |r| == |models|
    ensures forall i :: 0 <= i < |r| ==> r[i] == models[i].trainingTime
  {
    seq(|models|, i requires 0 <= i < |models| => models[i].trainingTime)
  }

  /** `Math.max(...times) || 1` for at least one model: the largest time, or 1 when the
      largest is 0. */
  function MaxTime(times: seq<real>): (r: real)
    requires times != []
    ensures r == (if MaxOf(times) == 0.0 then 1.0 else MaxOf(times))
  {
    var m := MaxOf(times);
    if m == 0.0 then 1.0 else m
  }

  /** `100 - (time / maxTime) * 100`: for a time between 0 and a positive largest time,
      a score in [0, 100] that is 0 at the largest time and 100 at 0. */
  function Efficiency(time: real, maxTime: real): (r: real)
    requires maxTime != 0.0
    ensures 0.0 <= time <= maxTime && maxTime > 0.0 ==> 0.0 <= r <= 100.0
    ensures time == maxTime ==> r == 0.0
    ensures time == 0.0 ==> r == 100.0
  {
    var q := time / maxTime;
    assert 0.0 <= time <= maxTime && maxTime > 0.0 ==> 0.0 <= q <= 1.0 by {
      if 0.0 <= time <= maxTime && maxTime > 0.0 {
        DivideBounds(time, maxTime, 0.0, 1.0);
      }
    }
    100.0 - q * 100.0
  }

  /** The chain of first-occurrence replacements that abbreviates a model name. */
  function Abbreviate(name: string): (r: string)
    ensures |r| <= |name|
  {
    var a := ReplaceFirst(name, "IsolationForest", "ISO");
    var b := ReplaceFirst(a, "LightGBM", "LGBM");
    var c := ReplaceFirst(b, "LocalOutlierFactor", "LOF");
    ReplaceFirst(c, "HistogramBasedOutlierScore", "HBOS")
  }

  /** `(evaluation.f1Score || 0) * 100`: an absent score and a score of 0 both give 0. */
  function F1Axis(evaluation: EvaluationMetrics): (r: real)
    ensures evaluation.f1Score.None? ==> r == 0.0
    ensures evaluation.f1Score.Some? ==> r == evaluation.f1Score.value * 100.0
  {
    match evaluation.f1Score
    case Some(f) => if f != 0.0 then f * 100.0 else 0.0
    case None => 0.0
  }

  /** One spoke set of the radar chart. */
  datatype RadarPoint = RadarPoint(
    model: string,
    efficiency: real,
    featureImportance: JsNum,
    avgImportance: real,
    f1: real)

  /** One model's spokes, given the largest training time. */
  function RadarPointOf(p: ModelPoint, maxTime: real, evaluation: EvaluationMetrics): RadarPoint
    requires maxTime != 0.0
  {
    RadarPoint(
      Abbreviate(p.name),
      Efficiency(p.trainingTime, maxTime),
      Percent(p.topImportance),
      p.avgImportance * 100.0,
      F1Axis(evaluation))
  }

  /** `radarData`: every model measured against the slowest one. */
  function RadarData(models: seq<ModelResult>, evaluation: EvaluationMetrics): (r: seq<RadarPoint>)
    ensures |r| == |models|
    ensures r != [] ==> forall i :: 0 <= i < |r| ==>
      r[i] == RadarPointOf(PointOf(models[i]), MaxTime(TrainingTimes(models)), evaluation)
  {
    var points := ModelData(models);
    if points == [] then []
    else
      var maxTime := MaxTime(TrainingTimes(models));
      seq(|points|, i requires 0 <= i < |points| => RadarPointOf(points[i], maxTime, evaluation))
  }

  predicate NonNegativeTimes(models: seq<ModelResult>) {
    forall i :: 0 <= i < |models| ==> models[i].trainingTime >= 0.0
  }

  /** Measured against `MaxTime`, non-negative times give efficiencies in [0, 100]; the
      slowest time gives 0 when it is positive, every time gives 100 when all are 0,
      and a longer time never gives a higher efficiency. */
  lemma {:induction false} EfficienciesFacts(times: seq<real>)
    requires times != []
    requires forall i :: 0 <= i < |times| ==> times[i] >= 0.0
    ensures MaxTime(times) > 0.0
    ensures forall i :: 0 <= i < |times| ==> 0.0 <= Efficiency(times[i], MaxTime(times)) <= 100.0
    ensures forall i, j :: 0 <= i < |times| && 0 <= j < |times| && times[i] <= times[j] ==>
      Efficiency(times[j], MaxTime(times)) <= Efficiency(times[i], MaxTime(times))
    ensures forall i ::
      (0 <= i < |times| && times[i] > 0.0 && forall j :: 0 <= j < |times| ==> times[j] <= times[i]) ==>
      Efficiency(times[i], MaxTime(times)) == 0.0
    ensures (forall j :: 0 <= j < |times| ==> times[j] == 0.0) ==>
      forall i :: 0 <= i < |times| ==> Efficiency(times[i], MaxTime(times)) == 100.0
  {
    var maxTime := MaxTime(times);
    assert times[0] <= MaxOf(times);
    forall i, j | 0 <= i < |times| && 0 <= j < |times| && times[i] <= times[j]
      ensures Efficiency(times[j], maxTime) <= Efficiency(times[i], maxTime)
    {
      EfficiencyMonotone(times[i], times[j], maxTime);
    }
    forall i | 0 <= i < |times| && times[i] > 0.0 && (forall j :: 0 <= j < |times| ==> times[j] <= times[i])
      ensures Efficiency(times[i], maxTime) == 0.0
    {
      var k :| 0 <= k < |times| && times[k] == MaxOf(times);
      assert times[k] <= times[i];
    }
  }

  /** The radar point of one model, field by field. */
  lemma RadarAt(models: seq<ModelResult>, evaluation: EvaluationMetrics, i: nat)
    requires i < |models|
    ensures var times := TrainingTimes(models);
      var point := RadarData(models, evaluation)[i];
      MaxTime(times) != 0.0 &&
      point.efficiency == Efficiency(times[i], MaxTime(times)) &&
      point.model == Abbreviate(models[i].name) &&
      point.f1 == F1Axis(evaluation)
  {
  }

  /** On the radar chart, with non-negative times, every efficiency lies in [0, 100],
      every model keeps its abbreviated name, and all models share the F1 value. */
  lemma RadarBounds(models: seq<ModelResult>, evaluation: EvaluationMetrics)
    requires NonNegativeTimes(models)
    ensures forall i :: 0 <= i < |RadarData(models, evaluation)| ==>
      0.0 <= RadarData(models, evaluation)[i].efficiency <= 100.0 &&
      RadarData(models, evaluation)[i].model == Abbreviate(models[i].name) &&
      RadarData(models, evaluation)[i].f1 == F1Axis(evaluation)
  {
    forall i | 0 <= i < |models|
      ensures 0.0 <= RadarData(models, evaluation)[i].efficiency <= 100.0
      ensures RadarData(models, evaluation)[i].model == Abbreviate(models[i].name)
      ensures RadarData(models, evaluation)[i].f1 == F1Axis(evaluation)
    {
      var times := TrainingTimes(models);
      EfficienciesFacts(times);
      RadarAt(models, evaluation, i);
    }
  }

  /** On the radar chart, with non-negative times, a slower model never scores higher. */
  lemma RadarMonotone(models: seq<ModelResult>, evaluation: EvaluationMetrics)
    requires NonNegativeTimes(models)
    ensures forall i, j ::
      0 <= i < |models| && 0 <= j < |models| && models[i].trainingTime <= models[j].trainingTime ==>
      RadarData(models, evaluation)[j].efficiency <= RadarData(models, evaluation)[i].efficiency
  {
    forall i, j | 0 <= i < |models| && 0 <= j < |models| && models[i].trainingTime <= models[j].trainingTime
      ensures RadarData(models, evaluation)[j].efficiency <= RadarData(models, evaluation)[i].efficiency
    {
      var times := TrainingTimes(models);
      EfficienciesFacts(times);
      RadarAt(models, evaluation, i);
      RadarAt(models, evaluation, j);
      EfficiencyMonotone(times[i], times[j], MaxTime(times));
    }
  }

  /** On the radar chart, with non-negative times, the slowest model scores 0 when its
      time is positive. */
  lemma RadarSlowestZero(models: seq<ModelResult>, evaluation: EvaluationMetrics)
    requires NonNegativeTimes(models)
    ensures forall i ::
      (0 <= i < |models| && models[i].trainingTime > 0.0 &&
       forall j :: 0 <= j < |models| ==> models[j].trainingTime <= models[i].trainingTime) ==>
      RadarData(models, evaluation)[i].efficiency == 0.0
  {
    forall i | 0 <= i < |models| && models[i].trainingTime > 0.0 &&
      forall j :: 0 <= j < |models| ==> models[j].trainingTime <= models[i].trainingTime
      ensures RadarData(models, evaluation)[i].efficiency == 0.0
    {
      var times := TrainingTimes(models);
      EfficienciesFacts(times);
      RadarAt(models, evaluation, i);
    }
  }

  /** On the radar chart, every model scores 100 when all times are 0. */
  lemma RadarAllZeroFull(models: seq<ModelResult>, evaluation: EvaluationMetrics)
    ensures (forall j :: 0 <= j < |models| ==> models[j].trainingTime == 0.0) ==>
      forall i :: 0 <= i < |models| ==> RadarData(models, evaluation)[i].efficiency == 100.0
  {
    if forall j :: 0 <= j < |models| ==> models[j].trainingTime == 0.0 {
      forall i | 0 <= i < |models|
        ensures RadarData(models, evaluation)[i].efficiency == 100.0
      {
        var times := TrainingTimes(models);
        EfficienciesFacts(times);
        RadarAt(models, evaluation, i);
      }
    }
  }

  /** A longer time never gives a higher efficiency. */
  lemma EfficiencyMonotone(t1: real, t2: real, maxTime: real)
    requires t1 <= t2 && maxTime > 0.0
    ensures Efficiency(t2, maxTime) <= Efficiency(t1, maxTime)
  {
    assert t1 / maxTime <= t2 / maxTime;
  }

  /** A name holding none of the four full names is left as it is. */
  lemma AbbreviateUnmatched(name: string)
    requires IndexOf(name, "IsolationForest").None?
    requires IndexOf(name, "LightGBM").None?
    requires IndexOf(name, "LocalOutlierFactor").None?
    requires IndexOf(name, "HistogramBasedOutlierScore").None?
    ensures Abbreviate(name) == name
  {
  }

  /** A pattern whose first character occurs in `s` at most at `j`, where it does not
      match, does not occur in `s`. */
  lemma NoOccurrence(s: string, pat: string, j: nat)
    requires pat != []
    requires forall i :: 0 <= i < |s| && i != j ==> s[i] != pat[0]
    requires !OccursAt(s, pat, j)
    ensures IndexOf(s, pat).None?
  {
    forall i: nat | i != j && i + |pat| <= |s|
      ensures !OccursAt(s, pat, i)
    {
      assert s[i..i + |pat|][0] == s[i];
    }
  }

  /** A pattern whose first character is not in `s` does not occur in it. */
  lemma FirstAbsent(s: string, pat: string)
    requires pat != [] && pat[0] !in s
    ensures IndexOf(s, pat).None?
  {
    forall i: nat | i + |pat| <= |s|
      ensures !OccursAt(s, pat, i)
    {
      assert s[i..i + |pat|][0] == s[i];
    }
  }

  /** One mismatching character rules out an occurrence. */
  lemma MismatchAt(s: string, pat: string, j: nat, k: nat)
    requires j + |pat| <= |s| && k < |pat| && s[j + k] != pat[k]
    ensures !OccursAt(s, pat, j)
  {
    assert s[j..j + |pat|][k] == s[j + k];
  }

  /** "IsolationForest" becomes "ISO". */
  lemma AbbreviateIsolationForest()
    ensures Abbreviate("IsolationForest") == "ISO"
  {
    assert OccursAt("IsolationForest", "IsolationForest", 0);
  }

  lemma LightGbmNotIsolation()
    ensures IndexOf("LightGBM Outlier", "IsolationForest").None?
  {
    FirstAbsent("LightGBM Outlier", "IsolationForest");
  }

  /** A pattern longer than the text does not occur in it. */
  lemma TooLong(s: string, pat: string)
    requires |pat| > |s|
    ensures IndexOf(s, pat).None?
  {
  }

  lemma LightGbmAtStart()
    ensures IndexOf("LightGBM Outlier", "LightGBM") == Some(0)
  {
    assert OccursAt("LightGBM Outlier", "LightGBM", 0);
  }

  /** Only the "LightGBM" part of "LightGBM Outlier" is abbreviated. */
  lemma AbbreviateLightGbm()
    ensures Abbreviate("LightGBM Outlier") == "LGBM Outlier"
  {
    var name := "LightGBM Outlier";
    LightGbmNotIsolation();
    var a := ReplaceFirst(name, "IsolationForest", "ISO");
    assert a == name;
    LightGbmAtStart();
    var b := ReplaceFirst(a, "LightGBM", "LGBM");
    assert name[8..] == " Outlier";
    assert b == "LGBM Outlier";
    TooLong(b, "LocalOutlierFactor");
    var c := ReplaceFirst(b, "LocalOutlierFactor", "LOF");
    assert c == b;
    TooLong(c, "HistogramBasedOutlierScore");
  }

  const LocalOutlierFactor := "Local Outlier Factor"

  lemma LocalOutlierFactorNotIsolation()
    ensures IndexOf(LocalOutlierFactor, "IsolationForest").None?
  {
    FirstAbsent(LocalOutlierFactor, "IsolationForest");
  }

  lemma LocalOutlierFactorNotLightGbm()
    ensures IndexOf(LocalOutlierFactor, "LightGBM").None?
  {
    MismatchAt(LocalOutlierFactor, "LightGBM", 0, 1);
    NoOccurrence(LocalOutlierFactor, "LightGBM", 0);
  }

  lemma LocalOutlierFactorSpaced()
    ensures IndexOf(LocalOutlierFactor, "LocalOutlierFactor").None?
  {
    MismatchAt(LocalOutlierFactor, "LocalOutlierFactor", 0, 5);
    NoOccurrence(LocalOutlierFactor, "LocalOutlierFactor", 0);
  }

  /** "Local Outlier Factor", spelt with spaces, does not match "LocalOutlierFactor" and
      is left unchanged. */
  lemma AbbreviateLocalOutlierFactor()
    ensures Abbreviate(LocalOutlierFactor) == LocalOutlierFactor
  {
    LocalOutlierFactorNotIsolation();
    LocalOutlierFactorNotLightGbm();
    LocalOutlierFactorSpaced();
    AbbreviateUnmatched(LocalOutlierFactor);
  }

  /** "HBOS" is left unchanged. */
  lemma AbbreviateHbos()
    ensures Abbreviate("HBOS") == "HBOS"
  {
  }
}
