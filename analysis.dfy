/**
 * The analysis pipeline (`analyzeCSV`): parse, infer the schema, plan the
 * preprocessing, produce the model metadata, metrics, per-row results and
 * value histogram, and summarise. All random draws come from an oracle.
 */
module Analysis {
  import opened Wrappers
  import opened Strings
  import opened Seqs
  import opened Anomaly
  import opened CsvParser
  import opened SchemaInference
  import opened Preprocessing
  import opened MockScoring
  import opened MockModels
  import opened Histogram

  /** Every `Math.random()` result the pipeline consumes, by purpose. */
  datatype Oracle = Oracle(
    picks: seq<nat>,
    rowDraws: nat -> RowDraws,
    weightDraws: nat -> real,
    times: TimeDraws,
    metrics: MetricDraws,
    placeholderDraws: nat -> real)

  /** The first `n` draws of a stream. */
  function Prefix<T>(draw: nat -> T, n: nat): (r: seq<T>)
    ensures |r| == n && forall i :: 0 <= i < n ==> r[i] == draw(i)
  {
    seq(n, i requires 0 <= i < n => draw(i))
  }

  const TopReasons: seq<string> := [
    "Statistical outliers in numeric features",
    "Rare category combinations detected",
    "Time-based pattern deviation",
    "Multi-dimensional isolation"]

  function AboveThreshold(r: AnomalyResult): bool {
    r.anomalyScore > 0.7
  }

  /** What the draws must satisfy for a file: every sampled index is a row, enough
      distinct rows are sampled to end the sampling loop, and every draw lies in [0, 1). */
  ghost predicate OracleFits(content: string, oracle: Oracle) {
    (forall k :: 0 <= k < |oracle.picks| ==> oracle.picks[k] < Occurrences(Trim(content), '\n')) &&
    AnomalyTarget(Occurrences(Trim(content), '\n')) <= |Distinct(oracle.picks)| &&
    (forall i :: ValidDraws(oracle.rowDraws(i)))
  }

  /** What `analyzeCSV` returns for a file and a set of draws: the schema inferred from the
      parsed rows, its preprocessing plan, the four models over the numeric columns, the
      metrics, the per-row results and their summary, and the value histogram. */
  function Analyze(content: string, oracle: Oracle): (r: AnalysisResult)
    requires OracleFits(content, oracle)
    ensures r.schema.rowCount == r.summary.rows == Occurrences(Trim(content), '\n')
    ensures |r.results| == Min(100, r.summary.rows)
  {
    AnalyzeRows(HeaderFields(Lines(content)[0]), DataRows(content), oracle)
  }

  /** The analysis of parsed headers and rows. */
  function AnalyzeRows(headers: seq<string>, rows: seq<seq<string>>, oracle: Oracle): (r: AnalysisResult)
    requires forall k :: 0 <= k < |oracle.picks| ==> oracle.picks[k] < |rows|
    requires AnomalyTarget(|rows|) <= |Distinct(oracle.picks)|
    requires forall i :: ValidDraws(oracle.rowDraws(i))
    ensures r.schema.rowCount == r.summary.rows == |rows|
    ensures |r.results| == Min(100, |rows|)
  {
    var schema := InferSchema(headers, rows);
    var numericCount := |Filter(schema.columns, IsNumericColumn)|;
    var results := MockResults(headers, rows, schema.columns, oracle.picks, Prefix(oracle.rowDraws, Min(100, |rows|)));
    AnalysisResult(
      schema,
      Plan(schema.columns),
      GenerateMockModels(schema.columns, Prefix(oracle.weightDraws, numericCount), oracle.times),
      GenerateMockEvaluation(oracle.metrics),
      Summary(|rows|, headers, Count(results, AboveThreshold), TopReasons),
      results,
      DistributionData(rows, schema, Prefix(oracle.placeholderDraws, 20)))
  }

  /** `analyzeCSV` (the time-series data is not modelled). */
  method AnalyzeCsv(content: string, oracle: Oracle) returns (result: AnalysisResult)
    requires OracleFits(content, oracle)
    ensures result.schema.rowCount == result.summary.rows == Occurrences(Trim(content), '\n')
    ensures result.summary.columns == HeaderFields(Lines(content)[0])
    ensures |result.schema.columns| == |result.summary.columns|
    ensures result.preprocessing == Plan(result.schema.columns)
    ensures |result.models| == 4
    ensures |result.results| == Min(100, result.summary.rows)
    ensures result.summary.anomalyCount == Count(result.results, AboveThreshold)
    ensures result.summary.topReasons == TopReasons
    ensures |result.distributionData| == 10 || |result.distributionData| == 20
    ensures result == Analyze(content, oracle)
  {
    var headers, rows, schema := ParseAndInfer(content);
    var preprocessing := GeneratePreprocessingSteps(schema);
    var models := Models(schema, oracle);
    var evaluation := GenerateMockEvaluation(oracle.metrics);
    var results, summary := ScoreRows(headers, rows, schema, oracle);
    var distribution := Distribution(rows, schema, oracle);
    result := AnalysisResult(schema, preprocessing, models, evaluation, summary, results, distribution);
  }

  /** The four model descriptions, with the importance draws taken from the oracle. */
  method Models(schema: Schema, oracle: Oracle) returns (models: seq<ModelResult>)
    ensures models == GenerateMockModels(schema.columns,
      Prefix(oracle.weightDraws, |Filter(schema.columns, IsNumericColumn)|), oracle.times)
    ensures |models| == 4
  {
    var numericCount := |Filter(schema.columns, IsNumericColumn)|;
    models := GenerateMockModels(schema.columns, Prefix(oracle.weightDraws, numericCount), oracle.times);
  }

  /** Parsing and schema inference. */
  method ParseAndInfer(content: string) returns (headers: seq<string>, rows: seq<seq<string>>, schema: Schema)
    ensures headers == HeaderFields(Lines(content)[0])
    ensures |rows| == Occurrences(Trim(content), '\n')
    ensures rows == DataRows(content)
    ensures schema == InferSchema(headers, rows)
  {
    headers, rows := ParseCsv(content);
    schema := InferSchema(headers, rows);
  }

  /** The per-row results and the summary that counts the results scoring above 0.7. */
  method ScoreRows(headers: seq<string>, rows: seq<seq<string>>, schema: Schema, oracle: Oracle)
    returns (results: seq<AnomalyResult>, summary: Summary)
    requires forall k :: 0 <= k < |oracle.picks| ==> oracle.picks[k] < |rows|
    requires AnomalyTarget(|rows|) <= |Distinct(oracle.picks)|
    requires forall i :: ValidDraws(oracle.rowDraws(i))
    ensures |results| == Min(100, |rows|)
    ensures summary == Summary(|rows|, headers, Count(results, AboveThreshold), TopReasons)
    ensures results == MockResults(headers, rows, schema.columns, oracle.picks, Prefix(oracle.rowDraws, Min(100, |rows|)))
  {
    var draws := Prefix(oracle.rowDraws, Min(100, |rows|));
    var chosen;
    results, chosen := GenerateMockResults(headers, rows, schema, oracle.picks, draws);
    summary := Summary(|rows|, headers, Count(results, AboveThreshold), TopReasons);
  }

  /** The value histogram, with the placeholder draws taken from the oracle. */
  method Distribution(rows: seq<seq<string>>, schema: Schema, oracle: Oracle) returns (bins: seq<DistributionBin>)
    ensures |bins| == (if NumericColumnIndex(schema.columns).None? then 20 else 10)
    ensures bins == DistributionData(rows, schema, Prefix(oracle.placeholderDraws, 20))
  {
    var placeholders := Prefix(oracle.placeholderDraws, 20);
    bins := GenerateDistributionData(rows, schema, placeholders);
    DistributionLength(rows, schema, placeholders);
  }

  /** The histogram has ten bins, or twenty placeholders when there is no numeric column. */
  lemma DistributionLength(rows: seq<seq<string>>, schema: Schema, draws: seq<real>)
    requires |draws| == 20
    ensures |DistributionData(rows, schema, draws)| == (if NumericColumnIndex(schema.columns).None? then 20 else 10)
  {
  }

  /** Since inference never yields a date column, an inferred schema gets no extraction step. */
  lemma NoExtractionForInferredSchema(headers: seq<string>, rows: seq<seq<string>>)
    ensures Count(Plan(InferSchema(headers, rows).columns), WithAction(Extract)) == 0
  {
    InferSchemaWellFormed(headers, rows);
    NoDatesNoExtraction(InferSchema(headers, rows).columns);
  }

  /** The analysis of a file: one schema column per header, a plan without extraction
      steps, four models sharing one feature table, and a histogram of ten or twenty bins. */
  lemma AnalysisShape(content: string, oracle: Oracle)
    requires OracleFits(content, oracle)
    ensures var r := Analyze(content, oracle);
      r.summary.columns == HeaderFields(Lines(content)[0]) &&
      |r.schema.columns| == |r.summary.columns| &&
      r.summary.topReasons == TopReasons &&
      Count(r.preprocessing, WithAction(Extract)) == 0 &&
      |r.models| == 4 &&
      (forall k :: 0 <= k < 4 ==> r.models[k].featureImportance == r.models[0].featureImportance) &&
      r.evaluation.isSynthetic &&
      |r.distributionData| == (if NumericColumnIndex(r.schema.columns).None? then 20 else 10)
  {
    var headers := HeaderFields(Lines(content)[0]);
    var rows := DataRows(content);
    var schema := InferSchema(headers, rows);
    NoExtractionForInferredSchema(headers, rows);
    MockModelsShape(schema.columns, Prefix(oracle.weightDraws, |Filter(schema.columns, IsNumericColumn)|), oracle.times);
    DistributionLength(rows, schema, Prefix(oracle.placeholderDraws, 20));
  }

  /** The results of an analysis: result `i` describes row `i`, it scores at least 0.7
      exactly when row `i` was among the sampled anomaly rows, of which there are one per
      twenty rows rounded up; the summary counts at most that many anomalies. */
  lemma AnalysisAnomalies(content: string, oracle: Oracle)
    requires OracleFits(content, oracle)
    ensures var r := Analyze(content, oracle);
      var chosen := AnomalyIndices(r.summary.rows, oracle.picks);
      |chosen| == AnomalyTarget(r.summary.rows) &&
      (forall i :: 0 <= i < |r.results| ==>
        r.results[i].rowIndex == i && (r.results[i].anomalyScore >= 0.7 <==> i in chosen)) &&
      r.summary.anomalyCount == Count(r.results, AboveThreshold) <= |chosen|
  {
    var headers := HeaderFields(Lines(content)[0]);
    var rows := DataRows(content);
    var schema := InferSchema(headers, rows);
    ResultsAnomalies(headers, rows, schema.columns, oracle.picks, Prefix(oracle.rowDraws, Min(100, |rows|)));
  }

  /** `AnalysisAnomalies` for any headers, rows, columns, picks and draws. */
  lemma ResultsAnomalies(headers: seq<string>, rows: seq<seq<string>>, cols: seq<SchemaColumn>,
                         picks: seq<nat>, draws: seq<RowDraws>)
    requires forall k :: 0 <= k < |picks| ==> picks[k] < |rows|
    requires AnomalyTarget(|rows|) <= |Distinct(picks)|
    requires |draws| >= Min(100, |rows|) && forall k :: 0 <= k < |draws| ==> ValidDraws(draws[k])
    ensures var results := MockResults(headers, rows, cols, picks, draws);
      var chosen := AnomalyIndices(|rows|, picks);
      |chosen| == AnomalyTarget(|rows|) &&
      (forall i :: 0 <= i < |results| ==>
        results[i].rowIndex == i && (results[i].anomalyScore >= 0.7 <==> i in chosen)) &&
      Count(results, AboveThreshold) <= |chosen|
  {
    var results := MockResults(headers, rows, cols, picks, draws);
    var chosen := AnomalyIndices(|rows|, picks);
    AnomalyIndicesFacts(|rows|, picks);
    forall i | 0 <= i < |results|
      ensures results[i].rowIndex == i && (results[i].anomalyScore >= 0.7 <==> i in chosen)
      ensures AboveThreshold(results[i]) ==> i in chosen
    {
      MockResultAt(headers, rows, cols, picks, draws, i);
    }
    AnomalyCountBound(results, chosen);
  }

  /** When only results at indices in `chosen` can be above the threshold, at most
      `|chosen|` of them are. */
  lemma AnomalyCountBound(results: seq<AnomalyResult>, chosen: set<nat>)
    requires forall i :: 0 <= i < |results| && AboveThreshold(results[i]) ==> i in chosen
    ensures Count(results, AboveThreshold) <= |chosen|
  {
    AboveThresholdChosen(results, chosen, |results|);
    assert results[..|results|] == results;
    var below := set i | 0 <= i < |results| && i in chosen;
    assert chosen == below + (chosen - below);
    assert below * (chosen - below) == {};
  }

  /** Counting the results above the threshold counts only indices in `chosen`. */
  lemma {:induction false} AboveThresholdChosen(results: seq<AnomalyResult>, chosen: set<nat>, k: nat)
    requires k <= |results|
    requires forall i :: 0 <= i < |results| && AboveThreshold(results[i]) ==> i in chosen
    ensures Count(results[..k], AboveThreshold) <= |set i | 0 <= i < k && i in chosen|
    decreases k
  {
    if k > 0 {
      AboveThresholdChosen(results, chosen, k - 1);
      assert results[..k] == results[..k - 1] + [results[k - 1]];
      CountSnoc(results[..k - 1], results[k - 1], AboveThreshold);
      var before := set i | 0 <= i < k - 1 && i in chosen;
      var after := set i | 0 <= i < k && i in chosen;
      if k - 1 in chosen {
        assert after == before + {k - 1};
      } else {
        assert after == before;
      }
    }
  }
}
