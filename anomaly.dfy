/**
 * The data model of the analysis report: the schema inferred from a CSV
 * file, the preprocessing plan, per-model metadata, per-row results,
 * evaluation metrics and the processing stages the page walks through.
 */
module Anomaly {
  import opened Wrappers
  import opened Records

  /** The semantic type of a column; `Geo` exists but no rule produces it. */
  datatype ColumnType = Numeric | Categorical | Datetime | Boolean | Id | Text | Geo

  datatype SchemaColumn = SchemaColumn(
    name: string,
    columnType: ColumnType,
    nullCount: nat,
    uniqueCount: nat,
    sampleValues: seq<string>)

  function IsNumericColumn(c: SchemaColumn): bool {
    c.columnType == Numeric
  }

  datatype Schema = Schema(columns: seq<SchemaColumn>, rowCount: nat)

  /** The per-column invariants a schema produced by inference satisfies. */
  predicate WellFormedSchema(s: Schema) {
    forall i :: 0 <= i < |s.columns| ==>
      s.columns[i].nullCount <= s.rowCount &&
      s.columns[i].uniqueCount <= s.rowCount - s.columns[i].nullCount &&
      |s.columns[i].sampleValues| <= 5
  }

  datatype Action = Normalize | Impute | Encode | Extract

  datatype PreprocessingStep = PreprocessingStep(column: string, action: Action, details: string)

  datatype ModelResult = ModelResult(
    name: string,
    params: Record<real>,
    featureImportance: Record<real>,
    trainingTime: real)

  datatype Explanation = Explanation(title: string, description: string)

  datatype ModelVote = ModelVote(model: string, score: real)

  datatype AnomalyResult = AnomalyResult(
    rowIndex: nat,
    raw: map<string, Option<string>>,
    anomalyScore: real,
    flags: seq<string>,
    explanations: seq<Explanation>,
    modelVotes: seq<ModelVote>)

  /** `results.map(r => r.anomalyScore)`. */
  function Scores(results: seq<AnomalyResult>): (r: seq<real>)
    ensures |r| == |results|
    ensures forall i :: 0 <= i < |r| ==> r[i] == results[i].anomalyScore
  {
    seq(|results|, i requires 0 <= i < |results| => results[i].anomalyScore)
  }

  datatype EvaluationMetrics = EvaluationMetrics(
    accuracy: Option<real>,
    precision: Option<real>,
    recall: Option<real>,
    f1Score: Option<real>,
    rocAuc: Option<real>,
    isSynthetic: bool)

  datatype Summary = Summary(rows: nat, columns: seq<string>, anomalyCount: nat, topReasons: seq<string>)

  /** One bar of the value histogram; its text label is not modelled. */
  datatype DistributionBin = DistributionBin(value: int, isAnomaly: bool)

  datatype AnalysisResult = AnalysisResult(
    schema: Schema,
    preprocessing: seq<PreprocessingStep>,
    models: seq<ModelResult>,
    evaluation: EvaluationMetrics,
    summary: Summary,
    results: seq<AnomalyResult>,
    distributionData: seq<DistributionBin>)

  datatype ProcessingStage =
    | Idle | Uploading | Parsing | Inferring | Preprocessing | Training | Evaluating | Complete | Error
}
