# FraudSense Live: a verified model of the CSV analysis pipeline and its reports

FraudSense Live is a browser front end for tabular anomaly detection. The user
uploads a transactions CSV. The page then parses it and infers a schema of
column types and null, unique and sample statistics. It plans preprocessing
steps and produces mock model metadata, per-row anomaly results and a value
histogram. The report panels derive their figures from that analysis:
- the score dispersion (mean, variance, quartiles);
- a ten-bin score chart;
- data-quality issues;
- the top-20 anomaly table;
- the model comparison radar;
- the metric tiles.

The uploader computes quick statistics over the parsed rows. A status panel
and the page's stage machine track processing. A simulator scores a single
transaction.

This project models that core in Dafny and proves what each part promises.
`Math.random` becomes explicit draws: a record of draw sequences and
functions handed to the operations (`Analysis.Oracle`, `MockScoring.RowDraws`,
`MockModels.TimeDraws`). For given draws, the analysis of a file is one
function of the file and the draws (`Analysis.Analyze`), and the pipeline and
the page are proved to produce exactly that value. The other proofs are about
shapes, bounds, orderings and how results follow the draws, not about
distributions.

The files, one module each:
- `anomaly.dfy` holds the records of the domain: column types, schema, steps, results, metrics and stages.
- `csv_parser.dfy` is the quote-aware tokenizer.
- `schema_inference.dfy` holds column classification and schema statistics.
- `preprocessing.dfy` holds the step plan.
- `mock_models.dfy` holds the models, the feature importance and the evaluation metrics.
- `mock_scoring.dfy` holds the per-row results.
- `histogram.dfy` holds the distribution data.
- `analysis.dfy` is the `analyzeCSV` pipeline.
- `dispersion.dfy`, `score_distribution.dfy`, `data_quality.dfy`, `anomaly_table.dfy`, `model_comparison.dfy`, `model_performance.dfy` and `processing_status.dfy` are the report panels.
- `upload_stats.dfy` holds the uploader statistics.
- `index_page.dfy` holds the page state, as a class.
- `simulator.dfy` holds the simulator.
- The library modules are:
  - `wrappers.dfy` (Option);
  - `seqs.dfy` (count, filter, distinct, stable sort, take);
  - `strings.dfy` (trim, split and join, index-of and replace-first, lower and upper case, number printing);
  - `records.dfy` (insertion-ordered string-keyed objects);
  - `js_number.dfy` (JavaScript's `parseFloat` and NaN/Infinity arithmetic).

JavaScript objects and `Map`s keep insertion order. They are therefore
modelled as sequences of key/value pairs with distinct keys. JavaScript
numbers are modelled as `real` plus explicit NaN and ±Infinity where the code
can produce them (`JsNumber.JsNum`).

## Model

| member | source | states |
|---|---|---|
| CsvParser.ScanInvariant | src/lib/mockAnalysis.ts:35-44 | After any prefix of a line, the scanner is inside quotes exactly when it has read an odd number of `"`. It has closed one field per comma read outside quotes. Its buffer holds no quote. |
| CsvParser.Fields | src/lib/mockAnalysis.ts:31-46 | A line gives 1 + (commas outside quotes) fields. Each field is trimmed and holds no `"`. CsvParser.FieldsWithoutQuotes and CsvParser.FieldsOfJoin relate it to splitting and joining. |
| CsvParser.FieldsWithoutQuotes | src/lib/mockAnalysis.ts:35-46 | On a line without quotes, tokenizing equals splitting on every comma and trimming each part. |
| CsvParser.FieldsOfJoin | src/lib/mockAnalysis.ts:35-46 | Round trip: trimmed fields without quotes or commas, joined with commas, tokenize back to the same fields. |
| CsvParser.ParseLine | src/lib/mockAnalysis.ts:31-46 | The character loop over one line leaves exactly the tokenizer's fields, with their count and cleanliness. |
| CsvParser.Lines | src/lib/mockAnalysis.ts:28 | The trimmed content splits into one more line than it has newlines. |
| CsvParser.HeaderFields | src/lib/mockAnalysis.ts:29 | There is one header per comma of the first line plus one, with quotes not respected. No header contains `"`. |
| CsvParser.ParseCsv | src/lib/mockAnalysis.ts:27-50 | Headers come from the first line. There is one row per following line, as many as the trimmed content has newlines. Each row is that line's tokenizer fields, so the rows are `CsvParser.DataRows` of the content. No field holds a quote or outer whitespace. |
| CsvParser.DataRows | src/lib/mockAnalysis.ts:27-50 | The data rows are the lines after the first, one per newline of the trimmed content. |
| SchemaInference.RatioTestsExact | src/lib/mockAnalysis.ts:10-22 | The integer cross-multiplied ratio tests the model uses agree exactly with the source's real-number `count / n > 0.8` style tests. |
| SchemaInference.DateValueIsNumeric | src/lib/mockAnalysis.ts:9-13 | Every value matching one of the three date patterns starts with a digit, so `parseFloat` reads it as a number. |
| SchemaInference.Classify | src/lib/mockAnalysis.ts:7-24 | An empty sample is text. When no more values are dates than numbers, the date rule never fires. No rule yields the geographic type. |
| SchemaInference.InferColumnType | src/lib/mockAnalysis.ts:5-25 | A column without non-blank values is text. No column is ever classified as datetime, because date-like values are numeric and the numeric rule fires first. No column is classified as geographic. |
| SchemaInference.DatesCountAsNumbers | src/lib/mockAnalysis.ts:9-14 | No sample holds more date-like values than numeric ones. |
| SchemaInference.BlankColumnIsText | src/lib/mockAnalysis.ts:6-7 | A column whose values are all empty or whitespace is text. |
| SchemaInference.DigitLeadingColumnIsNumeric | src/lib/mockAnalysis.ts:9-10 | A column whose values all start with a digit is numeric. |
| SchemaInference.ZeroOneColumnIsNumeric | src/lib/mockAnalysis.ts:9-18 | An all-`0`/`1` column is numeric, never boolean. |
| SchemaInference.InferColumn | src/lib/mockAnalysis.ts:53-63 | A column keeps its header name and its inferred type. Its null count plus its non-blank values make up the row count. Its unique count is the number of distinct non-blank values, so at most the number of non-blank values. Its samples are the first five non-blank values. |
| SchemaInference.InferSchema | src/lib/mockAnalysis.ts:52-66 | There is one column per header, and the row count is the number of rows. |
| SchemaInference.SamplesNonBlank | src/lib/mockAnalysis.ts:55-62 | The samples are at most five non-blank values of the column. |
| SchemaInference.InferColumnFacts | src/lib/mockAnalysis.ts:53-63 | An inferred column has null count ≤ rows. Its unique count is the number of distinct non-blank values, at most rows − nulls. Its type is neither datetime nor geo. It has ≤ 5 samples, each non-blank and taken from the column. |
| SchemaInference.InferSchemaWellFormed | src/lib/mockAnalysis.ts:52-66 | An inferred schema satisfies the schema invariants, and no column is typed as a date. |
| JsNumber.ParseFloat | src/lib/mockAnalysis.ts:9 | `parseFloat` gives a number exactly when the text has a numeric prefix: optional whitespace, an optional sign, then digits, `.digit` or `Infinity`. |
| JsNumber.DigitStartIsNumeric | src/lib/mockAnalysis.ts:9 | Text starting with a digit always parses to a number. |
| Preprocessing.GeneratePreprocessingSteps | src/lib/mockAnalysis.ts:69-102 | The push loop over the columns yields exactly the plan function over the schema's columns. |
| Preprocessing.StepsFor | src/lib/mockAnalysis.ts:72-98 | A column gets at most two steps. Each names that column and an action the column needs. Preprocessing.StepsForActionCount gives the exact counts. |
| Preprocessing.Plan | src/lib/mockAnalysis.ts:69-102 | The plan has at most two steps per column. Preprocessing.PlanActionCount and Preprocessing.PlanStepsJustified state its contents. |
| Preprocessing.StepsForActionCount | src/lib/mockAnalysis.ts:72-98 | A column gets a normalize step iff it is numeric, an impute step iff it is numeric with nulls, an encode step iff it is categorical, and an extract step iff it is datetime. It gets each at most once. |
| Preprocessing.PlanActionCount | src/lib/mockAnalysis.ts:72-99 | The plan holds as many steps of each action as there are columns needing that action. |
| Preprocessing.PlanStepsJustified | src/lib/mockAnalysis.ts:72-99 | Every planned step names a column of the schema that needs that step's action. |
| Preprocessing.OtherTypesPlanNothing | src/lib/mockAnalysis.ts:72-98 | Boolean, id, text and geo columns get no steps. |
| Preprocessing.NoDatesNoExtraction | src/lib/mockAnalysis.ts:92-97 | Columns with no date column among them get a plan with no extract step. |
| Analysis.NoExtractionForInferredSchema | src/lib/mockAnalysis.ts:92-97 | For a schema produced by inference, the plan never contains an extract step. |
| MockModels.RawWeights | src/lib/mockAnalysis.ts:107-110 | The raw table has one distinct key per numeric column name. Each weight comes from a draw as `draw × 0.5 + 0.1`. |
| MockModels.Normalize | src/lib/mockAnalysis.ts:112-115 | Every weight is divided by the total. Keys and order are kept. |
| MockModels.NormalizePositive | src/lib/mockAnalysis.ts:112-115 | Normalizing positive weights gives positive values that sum to one, over the same keys. |
| MockModels.FeatureImportance | src/lib/mockAnalysis.ts:105-115 | The shared table has distinct keys, exactly the numeric columns' names. MockModels.FeatureImportanceNormalized proves its values positive and summing to one. |
| MockModels.FeatureImportanceNormalized | src/lib/mockAnalysis.ts:105-115 | With at least one numeric column and draws in [0, 1), the importance table has exactly the numeric columns' names as distinct keys. Before the two-decimal rounding, its values are positive and sum to one. |
| MockModels.GenerateMockModels | src/lib/mockAnalysis.ts:105-142 | There are four models, all sharing the feature-importance table. MockModels.MockModelsShape and MockModels.MockModelTimes give their names and time ranges. |
| MockModels.MockModelsShape | src/lib/mockAnalysis.ts:117-142 | There are four models: IsolationForest, LightGBM Outlier, Local Outlier Factor and HBOS, in order. All share one importance table. |
| MockModels.MockModelTimes | src/lib/mockAnalysis.ts:122-140 | With draws in [0, 1), the training times lie in [0.5, 2.5), [1, 4), [0.3, 1.8) and [0.1, 0.6). |
| MockModels.GenerateMockEvaluation | src/lib/mockAnalysis.ts:208-217 | All five metrics are present, and the metrics are marked synthetic. MockModels.MockEvaluationRanges gives their ranges. |
| MockModels.MockEvaluationRanges | src/lib/mockAnalysis.ts:208-217 | Every metric is present and lies in its range. The ranges are [0.92, 0.97), [0.85, 0.95), [0.80, 0.95), [0.82, 0.92) and [0.90, 0.98). The metrics are marked synthetic. |
| MockScoring.AnomalyTarget | src/lib/mockAnalysis.ts:146 | The anomaly target is the least t with 20·t ≥ n (that is, ⌈0.05·n⌉), and it is never more than n. |
| MockScoring.SampleAnomalyIndices | src/lib/mockAnalysis.ts:147-151 | The sampling loop stops with exactly the target number of distinct indices, all below n. They are the distinct indices of the draws it used, which is `AnomalyIndices(n, picks)`: the distinct indices of the shortest prefix of the draws that reaches the target. |
| MockScoring.AnomalyIndices | src/lib/mockAnalysis.ts:146-151 | The sampled set never exceeds the target size, and every index in it is one of the picks. |
| MockScoring.AnomalyIndicesFacts | src/lib/mockAnalysis.ts:146-151 | The sampled set has exactly the target size, and every index in it is a row index. |
| MockScoring.Clamp | src/lib/mockAnalysis.ts:203 | The result lies in [0, 1] and leaves values already in range unchanged. |
| MockScoring.Votes | src/lib/mockAnalysis.ts:198-203 | There are exactly four votes, for IsolationForest, LightGBM, LOF and HBOS in that order, each in [0, 1]. |
| MockScoring.PickInRange | src/lib/mockAnalysis.ts:150 | `floor(random × k)` is a valid index below k. |
| MockScoring.RawRecord | src/lib/mockAnalysis.ts:155-158 | The raw record has exactly the headers as keys. |
| MockScoring.RawRecordCell | src/lib/mockAnalysis.ts:156-158 | Each header maps to the row's cell at its last position, or to undefined when the row is short. |
| MockScoring.SignalsPaired | src/lib/mockAnalysis.ts:164-190 | Flags and explanations are pushed in matching pairs, at most three. Both lists are empty for rows not selected. |
| MockScoring.ResultShape | src/lib/mockAnalysis.ts:153-204 | A result carries its row index and four clamped votes. Its score is in [0.7, 1) for an anomaly and in [0, 0.4) otherwise. It has ≤ 3 paired flags, none for normal rows. |
| MockScoring.AboveThresholdIff | src/lib/mockAnalysis.ts:160-162 | A score exceeds 0.7 exactly when the row was selected and its draw is not 0. |
| MockScoring.GenerateMockResults | src/lib/mockAnalysis.ts:145-206 | There are min(100, rows) results, each built from its own row, draws and selection. The selected set has the target size and holds valid indices. It is `AnomalyIndices` of the draws, and the results are `MockResults` of the inputs. |
| MockScoring.MockResults | src/lib/mockAnalysis.ts:145-206 | There are min(100, rows) results. MockScoring.MockResultAt states each result. |
| MockScoring.MockResultAt | src/lib/mockAnalysis.ts:153-204 | Result i carries index i and row i's raw record. It scores at least 0.7 exactly when row i was sampled, and above 0.7 exactly when it was sampled with a non-zero draw. It has four votes and at most three flags, each paired with an explanation, and none for a row not sampled. |
| Histogram.NumericColumnIndex | src/lib/mockAnalysis.ts:242-251 | Gives the position of the first numeric column, or none exactly when no column is numeric. |
| Histogram.Extremes | src/lib/mockAnalysis.ts:253-259 | The min/max loop gives the least and greatest value, or nothing for no values. |
| Histogram.HistogramBins | src/lib/mockAnalysis.ts:261-272 | There are ten bins, each counting the values in its half-open interval. A bin is flagged iff its count is below 3 or above 30% of the values. |
| Histogram.DistributionData | src/lib/mockAnalysis.ts:241-275 | There are 10 or 20 bins, and 20 exactly when no column is numeric. |
| Histogram.GenerateDistributionData | src/lib/mockAnalysis.ts:241-275 | The method computes exactly the distribution-data function: placeholder bins without a numeric column, histogram bins otherwise. |
| Histogram.PlaceholderShape | src/lib/mockAnalysis.ts:243-249 | There are twenty placeholder bins with values in [5, 54], flagged exactly at the first and last. |
| Histogram.MaxNeverCounted | src/lib/mockAnalysis.ts:264-266 | In exact arithmetic, the maximum lies in no bin, because the last bin is half-open. |
| Histogram.ConstantColumnEmptyBins | src/lib/mockAnalysis.ts:261-266 | When min equals max, every bin is empty. |
| Histogram.CountsSum | src/lib/mockAnalysis.ts:261-266 | In exact arithmetic, the ten bin counts add up to the number of values minus those equal to the maximum. |
| Analysis.ParseAndInfer | src/lib/mockAnalysis.ts:278-279 | The parse step gives the header fields, the data rows (`DataRows` of the content, one per data line), and the schema inferred from them. |
| Analysis.Models | src/lib/mockAnalysis.ts:281 | Gives the four mock models built from the weight draws, one per numeric column. |
| Analysis.ScoreRows | src/lib/mockAnalysis.ts:283-304 | There are min(100, rows) results. They are `MockResults` of the rows with the first min(100, rows) row draws. The summary counts the results scoring above 0.7 and carries the row count, the headers and the fixed reasons. |
| Analysis.Distribution | src/lib/mockAnalysis.ts:285 | The bins are `DistributionData` of the rows with the first twenty placeholder draws: twenty bins without a numeric column and ten otherwise. |
| Analysis.DistributionLength | src/lib/mockAnalysis.ts:241-275 | The distribution data has 20 bins without a numeric column and 10 with one. |
| Analysis.Analyze | src/lib/mockAnalysis.ts:277-309 | The analysis of a file: its row count, in the schema and the summary alike, is the number of newlines of the trimmed content, and there are min(100, rows) results. |
| Analysis.AnalyzeRows | src/lib/mockAnalysis.ts:279-309 | The analysis of parsed headers and rows: the row count in the schema and the summary is the number of rows, and there are min(100, rows) results. |
| Analysis.AnalyzeCsv | src/lib/mockAnalysis.ts:277-309 | The result is `Analyze` of the content and the draws (the time series aside). Row count = newlines of the trimmed content; columns = headers; plan = the plan of the schema; four models; min(100, rows) results; anomaly count = results above 0.7; 10 or 20 bins. |
| Analysis.AnalysisShape | src/lib/mockAnalysis.ts:277-309 | An analysis has one schema column per header, no extraction step in its plan, four models sharing one importance table, synthetic metrics, the fixed reasons, and 20 bins without a numeric column or 10 with one. |
| Analysis.AnalysisAnomalies | src/lib/mockAnalysis.ts:283-287 | Result i describes row i and scores at least 0.7 exactly when row i was sampled. ⌈rows/20⌉ rows are sampled, and the anomaly count is the number of results above 0.7, which is at most that. |
| Dispersion.DispersionOf | src/components/DispersionMetrics.tsx:14-29 | The three quartiles are scores of the input, and the variance is non-negative. |
| Dispersion.DispersionMetrics | src/components/DispersionMetrics.tsx:14-29 | Each quartile is the score of some result, and the variance is non-negative. |
| Dispersion.QuartileIndicesInRange | src/components/DispersionMetrics.tsx:22-24 | For n ≥ 1 the three quartile indices are ordered and lie in [0, n). |
| Dispersion.VarianceZeroIff | src/components/DispersionMetrics.tsx:15-17 | The population variance is non-negative, and zero exactly when every score equals the mean. |
| Dispersion.QuartilesOrdered | src/components/DispersionMetrics.tsx:21-29 | q1, q2 and q3 are scores of the input with q1 ≤ q2 ≤ q3, and the IQR is non-negative. |
| Dispersion.QuartileRanks | src/components/DispersionMetrics.tsx:21-28 | Each quartile has at least its nearest rank of scores at or below it and the rest at or above it. For example, more than half the scores are ≤ q2. |
| Dispersion.MeanOfUnitScores | src/components/DispersionMetrics.tsx:14-15 | The mean of scores in [0, 1] is in [0, 1]. |
| ScoreDistribution.BinIndexRange | src/components/AnomalyScoreDistribution.tsx:35 | A non-negative score falls into bin 0 to 9 whose lower edge it reaches. It is below the upper edge except in the last bin, which takes every score ≥ 0.9 including 1.0. |
| ScoreDistribution.ExpectedBins | src/components/AnomalyScoreDistribution.tsx:21-40 | There are ten bins after counting. |
| ScoreDistribution.Tally | src/components/AnomalyScoreDistribution.tsx:35-39 | One loop step increments its score's bin, and its anomaly count when the score exceeds 0.5, in the array. |
| ScoreDistribution.CountScoreBins | src/components/AnomalyScoreDistribution.tsx:21-40 | The counting loop leaves the array holding exactly the expected bins of the scores. |
| ScoreDistribution.ExpectedBinsTotal | src/components/AnomalyScoreDistribution.tsx:34-36 | The bin counts add up to the number of scores. |
| ScoreDistribution.AnomaliesWithinCount | src/components/AnomalyScoreDistribution.tsx:37-39 | A bin never has more anomalies than scores. |
| ScoreDistribution.LowBinsHaveNoAnomalies | src/components/AnomalyScoreDistribution.tsx:35-39 | Bins 0 to 4 contain no anomaly. |
| ScoreDistribution.HighBinsAreAllAnomalies | src/components/AnomalyScoreDistribution.tsx:35-39 | In bins 6 to 9 every score is an anomaly. |
| ScoreDistribution.WithNormal | src/components/AnomalyScoreDistribution.tsx:42-45 | Keeps the number of bins and each bin's range, count and anomalies, and adds its normal count (count − anomalies). |
| ScoreDistribution.ChartBins | src/components/AnomalyScoreDistribution.tsx:21-45 | The chart has ten bins with the fixed range labels in order and non-negative normal counts. Its counts total the number of results. |
| UploadStats.Amounts | src/components/CSVUploader.tsx:69-71 | There are never more amounts than rows. UploadStats.AmountsSnoc gives the amount each row adds. |
| UploadStats.AmountsSnoc | src/components/CSVUploader.tsx:69-71 | A row adds its parsed amount when that is finite, nothing when the amount parses to NaN, and 0 when both amount columns are missing or empty. |
| UploadStats.Merchants | src/components/CSVUploader.tsx:73 | Gives one merchant text per row. |
| UploadStats.CountMerchants | src/components/CSVUploader.tsx:74-77 | The counting loop leaves exactly the merchant-count table of the rows' merchants. |
| UploadStats.CountOne | src/components/CSVUploader.tsx:75-76 | One loop step counts a non-empty merchant once and ignores an empty one. |
| UploadStats.MerchantCounts | src/components/CSVUploader.tsx:74-77 | The table has distinct keys. UploadStats.MerchantCountsAreOccurrences gives its entries. |
| UploadStats.MerchantCountsAreOccurrences | src/components/CSVUploader.tsx:74-77 | The table has an entry exactly for each non-empty merchant that occurs. Its count is that merchant's number of occurrences. |
| UploadStats.MerchantEntries | src/components/CSVUploader.tsx:74-77 | Every entry is a non-empty merchant of the rows with its number of occurrences. |
| UploadStats.TopMerchants | src/components/CSVUploader.tsx:78-80 | There are min(5, entries) top merchants, each an entry of the table. UploadStats.TopMerchantsShape gives their order. |
| UploadStats.TopMerchantsShape | src/components/CSVUploader.tsx:78-80 | There are at most five entries, all from the table, in non-increasing count order. No entry left out has a larger count than one shown. |
| UploadStats.TopMerchantsTies | src/components/CSVUploader.tsx:78-80 | The sort is stable: the merchants shown with any one count are the first merchants with that count, in table order. |
| UploadStats.HourCounts | src/components/CSVUploader.tsx:82-89 | There are exactly 24 hour slots. |
| UploadStats.HourDistribution | src/components/CSVUploader.tsx:82-89 | The hour loop fills a new 24-slot array with exactly the hour counts of the rows. |
| UploadStats.HourTotalAtMostRows | src/components/CSVUploader.tsx:82-89 | The slots never count more than the rows. |
| UploadStats.UniqueUsers | src/components/CSVUploader.tsx:91 | There are at most as many users as rows, and at least one for a non-empty file. |
| UploadStats.UniqueUsersBounds | src/components/CSVUploader.tsx:91 | There are at most as many users as rows and at least one for a non-empty file. Rows lacking both user columns all share one key. |
| UploadStats.MedianAmount | src/components/CSVUploader.tsx:93-97 | The median is 0 for no amounts and otherwise one of the amounts. UploadStats.MedianRank gives its rank. |
| UploadStats.MedianRank | src/components/CSVUploader.tsx:93-97 | The median is an amount with more than half the amounts at or below it and at least half at or above it. For an even count it is the upper median. |
| UploadStats.MeanAmount | src/components/CSVUploader.tsx:102 | The mean is 0 for no amounts. Otherwise the mean times the number of amounts is their sum. |
| UploadStats.MinAmount | src/components/CSVUploader.tsx:104 | The minimum is +Infinity exactly when there are no amounts. Otherwise it is an amount no larger than any other. |
| UploadStats.MaxAmount | src/components/CSVUploader.tsx:105 | The maximum is −Infinity exactly when there are no amounts. Otherwise it is an amount no smaller than any other. |
| UploadStats.MeanWithinExtremes | src/components/CSVUploader.tsx:99-109 | The mean amount lies between the minimum and maximum shown. |
| UploadStats.ComputeStats | src/components/CSVUploader.tsx:99-109 | The stats block has the row count, a sample size of min(500, rows), the mean, median, min and max of the amounts, the top merchants, the hour slots and the distinct users. |
| UploadStats.CurrentStep | src/components/CSVUploader.tsx:244-249 | The step lies in [−1, 5). A step found for a percentage holds it in its inclusive range. |
| UploadStats.CurrentStepTable | src/components/CSVUploader.tsx:244-249 | The step for a percentage is the first inclusive range holding it, so 10, 35, 50 and 99 go to the earlier step. Outside [0, 100] it is −1. |
| DataQuality.ColumnMetrics | src/components/DataQualityMetrics.tsx:19-27 | There is one metric per column, in schema order, with completeness and cardinality computed from its counts. |
| DataQuality.Completeness | src/components/DataQualityMetrics.tsx:22 | Completeness is a number exactly when there are rows. It is NaN for no rows and no nulls. |
| DataQuality.Cardinality | src/components/DataQualityMetrics.tsx:26 | Cardinality is a number exactly when there are rows. It is NaN for no rows and no distinct values. |
| DataQuality.CompletenessInRange | src/components/DataQualityMetrics.tsx:22 | With rows and nulls ≤ rows, completeness is finite, lies in [0, 100], and is 100 exactly when there are no nulls. |
| DataQuality.CardinalityInRange | src/components/DataQualityMetrics.tsx:26 | With rows and unique ≤ rows, cardinality is finite and lies in [0, 100]. |
| DataQuality.OverallCompleteness | src/components/DataQualityMetrics.tsx:29-31 | The overall completeness of a schema without columns is NaN. |
| DataQuality.OverallCompletenessInRange | src/components/DataQualityMetrics.tsx:29-31 | For a well-formed schema with rows and columns, the overall completeness is finite and lies in [0, 100]. |
| DataQuality.AvgCardinality | src/components/DataQualityMetrics.tsx:36-37 | The average cardinality of a schema without columns is NaN. |
| DataQuality.AvgCardinalityInRange | src/components/DataQualityMetrics.tsx:36-37 | For a well-formed schema with rows and columns, the average cardinality is finite and lies in [0, 100]. |
| DataQuality.NullPercentage | src/components/DataQualityMetrics.tsx:32-35 | The missing-cell percentage is a number exactly when there are rows and columns. |
| DataQuality.NullPercentageInRange | src/components/DataQualityMetrics.tsx:32-35 | For a well-formed schema with rows and columns, the missing-cell percentage is finite and lies in [0, 100]. |
| DataQuality.NoRowsNoIssues | src/components/DataQualityMetrics.tsx:22-53 | With no rows, every percentage is NaN, so no issue test fires. |
| DataQuality.IssueList | src/components/DataQualityMetrics.tsx:39-53 | There are one to three issues, and the list is "excellent" alone exactly when no other issue applies. |
| DataQuality.IssueListShape | src/components/DataQualityMetrics.tsx:39-53 | One to three issues in fixed order. Missing values are listed iff flagged. "Excellent" appears exactly when nothing else applies, and then alone. |
| DataQuality.IssueListCounts | src/components/DataQualityMetrics.tsx:43-50 | The low-completeness and high-cardinality issues appear iff their counts are positive, and carry those counts. |
| DataQuality.Issues | src/components/DataQualityMetrics.tsx:39-53 | The push sequence gives one to three issues in fixed order. Missing values appear iff null% > 5. Low completeness appears iff some column is below 90 and high cardinality iff some column is above 95, each with the number of such columns. "Excellent" appears exactly when nothing else does, and then alone. |
| DataQuality.SchemaIssues | src/components/DataQualityMetrics.tsx:19-53 | The same rules, applied to the metrics and null percentage of a schema. |
| DataQuality.DetailRows | src/components/DataQualityMetrics.tsx:138 | The details show the first min(10, columns) columns, in order. |
| DataQuality.ColumnLimitNoteIff | src/components/DataQualityMetrics.tsx:148-152 | The "Showing 10 of n columns" note (`DataQuality.ShowsColumnLimitNote`) appears exactly when the details table leaves some columns out. |
| AnomalyTable.DisplayResults | src/components/AnomalyTable.tsx:12-13 | The table shows min(20, n) results, each taken from the input. |
| AnomalyTable.DisplayResultsShape | src/components/AnomalyTable.tsx:12-13 | The table shows min(20, n) results drawn from the input, all of them when n ≤ 20. They are in non-increasing score order, and none left out scores above one shown. |
| AnomalyTable.DisplayResultsTies | src/components/AnomalyTable.tsx:12-13 | The sort is stable: the rows shown with any one score are the first results with that score, in result order. |
| Seqs.SortStable | src/components/AnomalyTable.tsx:12 | `Array.prototype.sort` with a numeric comparator is stable: for every key, the elements with that key appear in the sorted copy in their original order. |
| Seqs.TopStable | src/components/AnomalyTable.tsx:12-13 | For every key, the elements with that key among the first k of the sorted copy are the first elements of the input with that key, in input order. |
| AnomalyTable.VoteLabel | src/components/AnomalyTable.tsx:124 | A badge label is the upper-cased first three characters of the model name. |
| AnomalyTable.VoteModelLabelsDistinct | src/components/AnomalyTable.tsx:124 | The four voting models get four different labels. |
| AnomalyTable.RowOf | src/components/AnomalyTable.tsx:49-130 | A row is an anomaly iff its score is > 0.7. It shows the first two explanation titles, or a dash when there are none. It shows the first three votes, each highlighted iff its score is > 0.7. It is expandable iff it has explanations. |
| AnomalyTable.Rows | src/components/AnomalyTable.tsx:12-49 | There are min(20, n) rows. Each shows the index of some result and is flagged exactly when that result scores above 0.7. |
| AnomalyTable.RowsFollowResults | src/components/AnomalyTable.tsx:12-49 | There are min(20, n) rows, each rendering its displayed result. No normal row comes before an anomaly. |
| ModelComparison.TopImportance | src/components/ModelComparison.tsx:30 | Gives the largest importance, or −Infinity for an empty table. |
| ModelComparison.AvgImportance | src/components/ModelComparison.tsx:31-33 | Gives the mean importance, or 0 for an empty table. |
| ModelComparison.PointOf | src/components/ModelComparison.tsx:26-34 | A point keeps the model's name and time. With distinct keys, the feature count is the number of distinct feature names. The mean lies between the smallest and largest importance. |
| ModelComparison.ModelData | src/components/ModelComparison.tsx:26-34 | There is one point per model, in order, and point i is `PointOf` model i. |
| ModelComparison.MaxTime | src/components/ModelComparison.tsx:37 | Gives the largest training time, replaced by 1 when it is 0. |
| ModelComparison.F1Axis | src/components/ModelComparison.tsx:47 | The F1 axis is the F1 score × 100, or 0 when it is absent. |
| ModelComparison.RadarData | src/components/ModelComparison.tsx:38-48 | There is one radar point per model, each computed against the shared maximum time. |
| ModelComparison.Efficiency | src/components/ModelComparison.tsx:44 | For 0 ≤ time ≤ max, efficiency lies in [0, 100]. It is 0 at the maximum and 100 at 0. |
| ModelComparison.EfficiencyMonotone | src/components/ModelComparison.tsx:44 | A longer training time never gives a higher efficiency. |
| ModelComparison.EfficienciesFacts | src/components/ModelComparison.tsx:37-44 | Over non-negative times, efficiencies lie in [0, 100] and do not increase with time. The slowest positive time gets 0. All-zero times give 100 each. |
| ModelComparison.RadarBounds | src/components/ModelComparison.tsx:38-48 | Every radar point has efficiency in [0, 100], its abbreviated name and the shared F1 axis. |
| ModelComparison.RadarMonotone | src/components/ModelComparison.tsx:37-44 | A slower model never has a higher radar efficiency. |
| ModelComparison.RadarSlowestZero | src/components/ModelComparison.tsx:37-44 | The slowest model with a positive time gets efficiency 0. |
| ModelComparison.RadarAllZeroFull | src/components/ModelComparison.tsx:37-44 | When every time is 0, every efficiency is 100. |
| ModelComparison.Abbreviate | src/components/ModelComparison.tsx:39-43 | Abbreviating never lengthens a name. |
| ModelComparison.AbbreviateUnmatched | src/components/ModelComparison.tsx:39-43 | A name containing none of the four full names is left unchanged. |
| ModelComparison.AbbreviateIsolationForest | src/components/ModelComparison.tsx:40 | "IsolationForest" becomes "ISO". |
| ModelComparison.AbbreviateLightGbm | src/components/ModelComparison.tsx:41 | "LightGBM Outlier" becomes "LGBM Outlier". |
| ModelComparison.AbbreviateLocalOutlierFactor | src/components/ModelComparison.tsx:42 | "Local Outlier Factor", with spaces, does not match "LocalOutlierFactor" and is left unchanged. |
| ModelComparison.AbbreviateHbos | src/components/ModelComparison.tsx:39-43 | "HBOS" is left unchanged. |
| ModelPerformance.Tiles | src/components/ModelPerformance.tsx:11-42 | Five tiles: Accuracy, Precision, Recall, F1 Score and ROC AUC, in order. Each shows a dash exactly when its metric is absent or 0, and otherwise its value × 100. |
| ModelPerformance.TopFeatures | src/components/ModelPerformance.tsx:77-80 | There are min(3, features) top features, each an entry of the model's table. ModelPerformance.TopFeaturesShape gives their order. |
| ModelPerformance.TopFeaturesShape | src/components/ModelPerformance.tsx:77-80 | There are at most three features, all from the model's table, in non-increasing importance. No feature left out is more important than one shown. |
| ModelPerformance.TopFeaturesTies | src/components/ModelPerformance.tsx:77-80 | The sort is stable: the features shown with any one importance are the first entries with that importance, in table order. |
| ModelPerformance.Cards | src/components/ModelPerformance.tsx:55-80 | There is one card per model, with its name, its training time and its top features. |
| ModelPerformance.MockEvaluationShowsNote | src/components/ModelPerformance.tsx:26-30 | The synthetic-labels note (`ModelPerformance.ShowsSyntheticNote`, shown when the metrics are marked synthetic) always appears for the mock evaluation. |
| ProcessingStatus.StageIndex | src/components/ProcessingStatus.tsx:9-21 | Gives the stage's position in the six-stage list, or −1 exactly for idle, complete and error. |
| ProcessingStatus.RowAt | src/components/ProcessingStatus.tsx:50-77 | A row is never both done and pending. It is active exactly at the current stage of a running pipeline. When complete all rows are done. On error all rows are pending and the error icon never shows. The check mark and spinner mark exactly the done and active rows. |
| ProcessingStatus.Width | src/components/ProcessingStatus.tsx:109 | The width lies in [0, 100]: 100 when complete, 0 on error. |
| ProcessingStatus.WidthMonotone | src/components/ProcessingStatus.tsx:18-21 | Each listed stage fills (index + 1)/6 of the bar. The width never decreases along the stages, and completion is the maximum. |
| ProcessingStatus.PanelOf | src/components/ProcessingStatus.tsx:28-111 | Nothing renders exactly when idle. Otherwise there are six rows, one per stage. |
| IndexPage.Page.constructor | src/pages/Index.tsx:17-18 | The page starts idle, with no result. |
| IndexPage.Page.IsProcessing | src/pages/Index.tsx:61 | True exactly when the stage is one of the six pipeline stages, that is, not idle, complete or error. |
| IndexPage.Page.ShowResults | src/pages/Index.tsx:62 | Results show only outside processing. On a valid page they show exactly when the stage is complete. |
| IndexPage.Page.SetStage | src/pages/Index.tsx:21-37 | Sets the stage and records it in the history, keeping the result. |
| IndexPage.Page.RunStages | src/pages/Index.tsx:21-33 | The stage loop sets uploading, parsing, inferring, preprocessing, training and evaluating, in that order. |
| IndexPage.Page.SimulateProcessing | src/pages/Index.tsx:20-38 | After the six stages, the result is stored and the stage set to complete. The stored result is `Analyze` of the content and the draws, with one row per data line and at most 100 results. |
| IndexPage.Page.CompleteAnalysis | src/pages/Index.tsx:35-37 | The stored result is `Analyze` of the content and the draws, and the stage becomes complete. |
| IndexPage.Page.StoreAnalysis | src/pages/Index.tsx:35-36 | Only the result changes, to `Analyze` of the content and the draws. |
| IndexPage.Page.HandleFileSelect | src/pages/Index.tsx:40-54 | A file read failure moves the stage to error and keeps the result. A file runs the whole sequence and ends complete, showing `Analyze` of its text. |
| IndexPage.Page.HandleReset | src/pages/Index.tsx:56-59 | The stage returns to idle and the result is cleared. |
| Simulator.RiskLevel | src/pages/Simulator.tsx:54-58 | Low iff score < 0.3, medium iff 0.3 ≤ score < 0.7, high iff score ≥ 0.7. |
| Simulator.RiskMonotone | src/pages/Simulator.tsx:54-58 | A higher score never gives a lower risk. |
| Simulator.Label | src/pages/Simulator.tsx:54-58 | Every label ends in " Risk". |
| Simulator.Color | src/pages/Simulator.tsx:54-58 | The colour is "destructive" exactly for high risk. |
| Simulator.LabelsAndColorsDistinct | src/pages/Simulator.tsx:54-58 | Different levels get different labels and different colours. |
| Simulator.MockScore | src/pages/Simulator.tsx:47 | A score for an amount above 1000 lies in [0.5, 0.8). Any other score lies in [0, 0.3). |
| Simulator.AmountRisk | src/pages/Simulator.tsx:47-58 | Unreadable amounts and amounts ≤ 1000 are always low risk, and larger amounts never are. A larger amount is high risk exactly when the draw is at least 2/3. |

## Left out

- The time series (`generateTimeSeriesData`, src/lib/mockAnalysis.ts:219-239) is not modelled. It depends on the clock (`Date.now`) and on date formatting.
- `Math.random` is not modelled as random. Every draw is an explicit input (a sequence, or a function from row index to draws), and the properties hold for all draws in [0, 1).
- MockScoring.SampleAnomalyIndices: the sampling loop terminates only when the random picks eventually contain enough distinct indices. The model takes the picks as a sequence and requires that it holds enough distinct indices.
- MockModels.Normalize: the importance values are divided by the total but not rounded to two decimals with `Math.round(x * 100) / 100` (src/lib/mockAnalysis.ts:114). The sum-to-one property is stated for the unrounded values.
- MockModels.FeatureImportanceNormalized: positivity and the sum of one are proved for the shares before rounding. After the two-decimal rounding a share below 0.005 becomes 0, which can happen with 35 or more numeric columns, and the rounded shares need not add up to exactly one.
- Histogram.MaxNeverCounted: holds in exact arithmetic only. With doubles the last bin's upper edge `binMin + binSize` can land above the maximum: for min 0 and max 0.3 it is 0.30000000000000004, and the maximum is then counted in the last bin.
- Histogram.CountsSum: holds in exact arithmetic only. In the double case above the counts add up to all values, the maximum included. Adjacent edges computed separately can also differ in the last bit, so a value can fall into two bins or none.
- ModelComparison.PointOf: the training time's `parseFloat(toFixed(2))` rounding in `modelData` (src/components/ModelComparison.tsx:28) is not modelled, and the raw time is kept.
- ModelComparison.RadarData: it is built from `PointOf`, so it uses the raw training time as well, not the rounded one.
- The importance and percentage axes of the radar points are stated as their formula only.
- The standard deviation (`Math.sqrt` of the variance, src/components/DispersionMetrics.tsx:18) is not modelled, because it has no closed real form here.
- Floating-point rounding is not modelled. Numbers are exact reals.
- ±Infinity are kept only where a computation over finite input produces them: empty `Math.max`/`Math.min` and division by zero.
- Histogram.HistogramBins: amounts and column values that `parseFloat` reads as `Infinity` are dropped with the NaNs (`JsNumber.FiniteValues`) instead of entering the min/max and the bins.
- UploadStats.Amounts: amounts that `parseFloat` reads as `Infinity` or `-Infinity` are dropped together with the NaNs. The uploader keeps them, because it filters out only NaN (src/components/CSVUploader.tsx:69-71). The mean, median, minimum and maximum of a file with an infinite amount are therefore not modelled.
- ModelPerformance.Cards: the card keeps the training time as a number. Its `toFixed(2)` text is not modelled.
- The bin names formatted with `toFixed(0)`, the issue texts, the toast messages and the step details are not modelled as text. They appear as the figures they are formatted from, except for the preprocessing step details, which are modelled.
- Icons, colours, animations and the chart rendering are not modelled, beyond the icon choice per stage row and the risk label and colour.
- `toLowerCase`/`toUpperCase` are modelled for ASCII letters only. Unicode case mapping is not modelled.
- `trim` is modelled with ASCII whitespace, the no-break space, the byte-order mark and the line and paragraph separators. The other Unicode space characters it removes are not modelled.
- The row objects of the uploader come from PapaParse with `header: true`. PapaParse, the file read and the 500-row `preview` are not modelled. Rows are given as maps from column name to text, and the sample size is `min(500, rows)`.
- UploadStats.HourDistribution: `new Date(time).getHours()` is not modelled. The hour of each row's time text is an input, `None` for an invalid date.
- The feature-importance table is a plain JavaScript object, which lists integer-like keys first, in ascending order. The model keeps insertion order for every key, so it differs only for columns named like array indices. The merchant table is a `Map`, which keeps insertion order exactly as modelled.
- `src/lib/ml.ts` (a client for a backend service) is not part of this model, and neither are the Supabase client, the dashboard and upload pages, or the components that only render given data.
- IndexPage.Page.SimulateProcessing: the delays between stages and React's asynchronous state updates are not modelled. Only the order of the stage updates is.
- IndexPage.Page.HandleFileSelect: the console warning for files over 200 MB is not modelled. The failure path covers a file read that fails. `analyzeCSV` raises nothing on any input in the model, so its exceptions have no counterpart.
- The CSV preview (`previewData`, the first rows shown in the uploader) is not modelled. It is a plain slice for display.
