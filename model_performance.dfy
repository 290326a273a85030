/**
 * The model performance panel: the five evaluation metrics, each shown as a
 * percentage or as a dash, the note on synthetic labels, and for every
 * trained model its three most important features.
 */
module ModelPerformance {
  import opened Wrappers
  import opened Seqs
  import opened Records
  import opened Anomaly
  import opened MockModels

  /** One metric tile: its label and the percentage shown, or `None` for a dash. */
  datatype MetricTile = MetricTile(caption: string, percent: Option<real>)

  const MetricLabels: seq<string> := ["Accuracy", "Precision", "Recall", "F1 Score", "ROC AUC"]

  /** The metric values in the order the tiles list them. */
  function MetricValues(e: EvaluationMetrics): (r: seq<Option<real>>)
    ensures |r| == |MetricLabels|
  {
    [e.accuracy, e.precision, e.recall, e.f1Score, e.rocAuc]
  }

  /** `metric.value ? value * 100 : dash`: an absent value and a value of 0 are falsy. */
  function Shown(value: Option<real>): Option<real> {
    match value
    case Some(v) => if v != 0.0 then Some(v * 100.0) else None
    case None => None
  }

  /** The five tiles: Accuracy, Precision, Recall, F1 Score and ROC AUC, in that order,
      each showing its metric as a percentage, or a dash when the metric is absent or 0. */
  function Tiles(e: EvaluationMetrics): (r: seq<MetricTile>)
    ensures |r| == 5
    ensures r[0].caption == "Accuracy" && r[1].caption == "Precision" && r[2].caption == "Recall" &&
      r[3].caption == "F1 Score" && r[4].caption == "ROC AUC"
    ensures forall i :: 0 <= i < 5 ==>
      (r[i].percent.None? <==> MetricValues(e)[i].None? || MetricValues(e)[i].value == 0.0)
    ensures forall i :: 0 <= i < 5 && r[i].percent.Some? ==>
      r[i].percent.value == MetricValues(e)[i].value * 100.0
  {
    var values := MetricValues(e);
    seq(5, i requires 0 <= i < 5 => MetricTile(MetricLabels[i], Shown(values[i])))
  }

  /** Whether the "synthetic labels" note is shown. */
  function ShowsSyntheticNote(e: EvaluationMetrics): bool {
    e.isSynthetic
  }

  /** The metrics of the mock evaluation always carry the synthetic-labels note. */
  lemma MockEvaluationShowsNote(d: MetricDraws)
    ensures ShowsSyntheticNote(GenerateMockEvaluation(d))
  {
  }

  /** The sort key of `([, a], [, b]) => b - a`: larger importances first. */
  function ByImportanceDescending(entry: (string, real)): real {
    -entry.1
  }

  /** `Object.entries(featureImportance).sort(...).slice(0, 3)`. */
  function TopFeatures(importance: Record<real>): (r: Record<real>)
    ensures |r| == Min(3, |importance|)
    ensures forall i :: 0 <= i < |r| ==> r[i] in importance
  {
    TopByKey(importance, ByImportanceDescending, 3);
    Take(SortBy(importance, ByImportanceDescending), 3)
  }

  /** At most three features, each an entry of the model's map, in non-increasing
      importance, and no feature left out is more important than one shown. */
  lemma TopFeaturesShape(importance: Record<real>)
    ensures var top := TopFeatures(importance);
      |top| == Min(3, |importance|) &&
      (forall i :: 0 <= i < |top| ==> top[i] in importance) &&
      (forall i, j :: 0 <= i < j < |top| ==> top[i].1 >= top[j].1) &&
      (forall e, i :: e in importance && e !in top && 0 <= i < |top| ==> top[i].1 >= e.1)
  {
    TopByKey(importance, ByImportanceDescending, 3);
    var top := TopFeatures(importance);
    forall i, j | 0 <= i < j < |top|
      ensures top[i].1 >= top[j].1
    {
      assert ByImportanceDescending(top[i]) <= ByImportanceDescending(top[j]);
    }
    forall e, i | e in importance && e !in top && 0 <= i < |top|
      ensures top[i].1 >= e.1
    {
      assert ByImportanceDescending(top[i]) <= ByImportanceDescending(e);
    }
  }

  function ImportanceIs(w: real): ((string, real)) -> bool {
    (entry: (string, real)) => entry.1 == w
  }

  /** Ties keep map order: the features shown with importance `w` are the first entries
      of the map with that importance, in map order. */
  lemma TopFeaturesTies(importance: Record<real>, w: real)
    ensures Filter(TopFeatures(importance), ImportanceIs(w)) <= Filter(importance, ImportanceIs(w))
  {
    TopStableBy(importance, ByImportanceDescending, 3, -w, ImportanceIs(w));
  }

  /** A model's card: its name, its training time and its top features. */
  datatype ModelCard = ModelCard(name: string, trainingTime: real, features: Record<real>)

  function Cards(models: seq<ModelResult>): (r: seq<ModelCard>)
    ensures |r| == |models|
    ensures forall i :: 0 <= i < |r| ==>
      r[i].name == models[i].name && r[i].trainingTime == models[i].trainingTime &&
      r[i].features == TopFeatures(models[i].featureImportance)
  {
    seq(|models|, i requires 0 <= i < |models| =>
      ModelCard(models[i].name, models[i].trainingTime, TopFeatures(models[i].featureImportance)))
  }
}
