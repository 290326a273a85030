/**
 * The data-quality panel: per-column completeness and cardinality as
 * percentages of the row count, their averages, the share of missing
 * cells, and the list of issues, pushed in a fixed order and falling back
 * to a single "excellent" entry. The percentages divide by the row count,
 * so for a file without data rows they are JavaScript's NaN, and every
 * comparison with NaN is false.
 */
module DataQuality {
  import opened Seqs
  import opened JsNumber
  import opened Anomaly

  datatype ColumnMetric = ColumnMetric(
    name: string,
    fullName: string,
    completeness: JsNum,
    nullCount: nat,
    uniqueCount: nat,
    columnType: ColumnType,
    cardinality: JsNum)

  /** `((rowCount - nullCount) / rowCount) * 100`: a number only when there are data rows. */
  function Completeness(rowCount: nat, nullCount: nat): (r: JsNum)
    ensures r.Finite? <==> rowCount > 0
    ensures rowCount == 0 && nullCount == 0 ==> r == NaN
  {
    Percent(DivideBy(Finite((rowCount - nullCount) as real), rowCount as real))
  }

  /** `(uniqueCount / rowCount) * 100`: a number only when there are data rows. */
  function Cardinality(rowCount: nat, uniqueCount: nat): (r: JsNum)
    ensures r.Finite? <==> rowCount > 0
    ensures rowCount == 0 && uniqueCount == 0 ==> r == NaN
  {
    Percent(DivideBy(Finite(uniqueCount as real), rowCount as real))
  }

  /** One entry of `columnMetrics`; the short name is the first 12 characters. */
  function MetricOf(rowCount: nat, col: SchemaColumn): ColumnMetric {
    ColumnMetric(Take(col.name, 12), col.name, Completeness(rowCount, col.nullCount),
      col.nullCount, col.uniqueCount, col.columnType, Cardinality(rowCount, col.uniqueCount))
  }

  function ColumnMetrics(schema: Schema): (r: seq<ColumnMetric>)
    ensures |r| == |schema.columns|
    ensures forall i :: 0 <= i < |r| ==> r[i] == MetricOf(schema.rowCount, schema.columns[i])
  {
    seq(|schema.columns|, i requires 0 <= i < |schema.columns| => MetricOf(schema.rowCount, schema.columns[i]))
  }

  /** `xs.reduce((a, b) => a + b, 0)` on JavaScript numbers. */
  function SumJs(xs: seq<JsNum>): JsNum {
    if xs == [] then Finite(0.0) else Plus(SumJs(xs[..|xs| - 1]), xs[|xs| - 1])
  }

  function Completenesses(ms: seq<ColumnMetric>): (r: seq<JsNum>)
    ensures |r| == |ms| && forall i :: 0 <= i < |ms| ==> r[i] == ms[i].completeness
  {
    seq(|ms|, i requires 0 <= i < |ms| => ms[i].completeness)
  }

  function Cardinalities(ms: seq<ColumnMetric>): (r: seq<JsNum>)
    ensures |r| == |ms| && forall i :: 0 <= i < |ms| ==> r[i] == ms[i].cardinality
  {
    seq(|ms|, i requires 0 <= i < |ms| => ms[i].cardinality)
  }

  /** The mean completeness over the columns: 0 / 0, NaN, for a schema without columns. */
  function OverallCompleteness(schema: Schema): (r: JsNum)
    ensures schema.columns == [] ==> r == NaN
  {
    var ms := ColumnMetrics(schema);
    DivideBy(SumJs(Completenesses(ms)), |ms| as real)
  }

  /** The mean cardinality over the columns: 0 / 0, NaN, for a schema without columns. */
  function AvgCardinality(schema: Schema): (r: JsNum)
    ensures schema.columns == [] ==> r == NaN
  {
    var ms := ColumnMetrics(schema);
    DivideBy(SumJs(Cardinalities(ms)), |ms| as real)
  }

  function TotalNulls(cols: seq<SchemaColumn>): nat {
    if cols == [] then 0 else TotalNulls(cols[..|cols| - 1]) + cols[|cols| - 1].nullCount
  }

  /** The missing cells as a percentage of all cells: a number only when there are cells. */
  function NullPercentage(schema: Schema): (r: JsNum)
    ensures r.Finite? <==> schema.rowCount > 0 && |schema.columns| > 0
  {
    Percent(DivideBy(Finite(TotalNulls(schema.columns) as real), (schema.rowCount * |schema.columns|) as real))
  }

  predicate LowComplete(c: ColumnMetric) {
    LessThan(c.completeness, 90.0)
  }

  predicate HighCardinality(c: ColumnMetric) {
    GreaterThan(c.cardinality, 95.0)
  }

  function LowCompleteFn(): ColumnMetric -> bool { (c: ColumnMetric) => LowComplete(c) }

  function HighCardinalityFn(): ColumnMetric -> bool { (c: ColumnMetric) => HighCardinality(c) }

  /** The issues the panel lists; the text of each is formatted from its figure. */
  datatype Issue = MissingValues(percent: JsNum) | LowCompleteness(columns: nat) | VeryHighCardinality(columns: nat) | Excellent

  /** The position of each kind of issue in the list. */
  function Rank(issue: Issue): nat {
    match issue
    case MissingValues(_) => 0
    case LowCompleteness(_) => 1
    case VeryHighCardinality(_) => 2
    case Excellent => 3
  }

  predicate HasLowCompleteness(issues: seq<Issue>) {
    exists k :: 0 <= k < |issues| && issues[k].LowCompleteness?
  }

  predicate HasHighCardinality(issues: seq<Issue>) {
    exists k :: 0 <= k < |issues| && issues[k].VeryHighCardinality?
  }

  /** One conditional push. */
  function Push(cond: bool, issue: Issue): seq<Issue> {
    if cond then [issue] else []
  }

  /** The list the pushes build: the missing share when more than 5%, the count of
      columns below 90% completeness, the count above 95% cardinality, each only when
      it applies, and "excellent" alone when none does. */
  function IssueList(missing: bool, percent: JsNum, low: nat, high: nat): (r: seq<Issue>)
    ensures 1 <= |r| <= 3
    ensures r == [Excellent] <==> !missing && low == 0 && high == 0
  {
    var pushed := Push(missing, MissingValues(percent)) + Push(low > 0, LowCompleteness(low)) +
      Push(high > 0, VeryHighCardinality(high));
    if pushed == [] then [Excellent]
    else
      assert !pushed[0].Excellent?;
      pushed
  }

  /** One to three issues, in a fixed order, with "excellent" exactly when nothing else
      applies and then on its own. */
  lemma IssueListShape(missing: bool, percent: JsNum, low: nat, high: nat)
    ensures var r := IssueList(missing, percent, low, high);
      1 <= |r| <= 3 &&
      (MissingValues(percent) in r <==> missing) &&
      (Excellent in r <==> r == [Excellent]) &&
      (r == [Excellent] <==> !missing && low == 0 && high == 0) &&
      (forall j, k :: 0 <= j < k < |r| ==> Rank(r[j]) < Rank(r[k]))
  {
  }

  /** The completeness issue is listed exactly when some column is below the bar, with
      their number; likewise the cardinality issue. */
  lemma IssueListCounts(missing: bool, percent: JsNum, low: nat, high: nat)
    ensures var r := IssueList(missing, percent, low, high);
      (HasLowCompleteness(r) <==> low > 0) &&
      (HasHighCardinality(r) <==> high > 0) &&
      (forall k :: 0 <= k < |r| && r[k].LowCompleteness? ==> r[k].columns == low) &&
      (forall k :: 0 <= k < |r| && r[k].VeryHighCardinality? ==> r[k].columns == high)
  {
    var a := Push(missing, MissingValues(percent));
    var r := IssueList(missing, percent, low, high);
    if low > 0 {
      assert r[|a|].LowCompleteness?;
    }
    if high > 0 {
      assert r[|r| - 1].VeryHighCardinality?;
    }
  }

  /** The issue list, built by conditional pushes from the missing share and the
      column metrics. */
  method Issues(nullPercentage: JsNum, metrics: seq<ColumnMetric>) returns (issues: seq<Issue>)
    ensures 1 <= |issues| <= 3
    ensures MissingValues(nullPercentage) in issues <==> GreaterThan(nullPercentage, 5.0)
    ensures HasLowCompleteness(issues) <==> exists i :: 0 <= i < |metrics| && LowComplete(metrics[i])
    ensures HasHighCardinality(issues) <==> exists i :: 0 <= i < |metrics| && HighCardinality(metrics[i])
    ensures forall k :: 0 <= k < |issues| && issues[k].LowCompleteness? ==>
      issues[k].columns == Count(metrics, LowCompleteFn())
    ensures forall k :: 0 <= k < |issues| && issues[k].VeryHighCardinality? ==>
      issues[k].columns == Count(metrics, HighCardinalityFn())
    ensures Excellent in issues <==> issues == [Excellent]
    ensures issues == [Excellent] <==>
      !GreaterThan(nullPercentage, 5.0) && !HasLowCompleteness(issues) && !HasHighCardinality(issues)
    ensures forall j, k :: 0 <= j < k < |issues| ==> Rank(issues[j]) < Rank(issues[k])
  {
    var missing := GreaterThan(nullPercentage, 5.0);
    issues := [];
    if missing {
      issues := issues + [MissingValues(nullPercentage)];
    }
    ghost var first := issues;
    var lowCompleteColumns := Filter(metrics, LowCompleteFn());
    if |lowCompleteColumns| > 0 {
      issues := issues + [LowCompleteness(|lowCompleteColumns|)];
    }
    ghost var second := issues;
    var highCardinalityColumns := Filter(metrics, HighCardinalityFn());
    if |highCardinalityColumns| > 0 {
      issues := issues + [VeryHighCardinality(|highCardinalityColumns|)];
    }
    ghost var pushed := issues;
    if |issues| == 0 {
      issues := issues + [Excellent];
    }
    var low, high := |lowCompleteColumns|, |highCardinalityColumns|;
    assert first == Push(missing, MissingValues(nullPercentage));
    assert second == first + Push(low > 0, LowCompleteness(low));
    assert pushed == second + Push(high > 0, VeryHighCardinality(high));
    assert issues == IssueList(missing, nullPercentage, low, high);
    IssueListShape(missing, nullPercentage, low, high);
    IssueListCounts(missing, nullPercentage, low, high);
    CountPositiveIff(metrics, LowCompleteFn());
    CountPositiveIff(metrics, HighCardinalityFn());
  }

  /** The issues of a schema. */
  method SchemaIssues(schema: Schema) returns (issues: seq<Issue>)
    ensures 1 <= |issues| <= 3
    ensures MissingValues(NullPercentage(schema)) in issues <==> GreaterThan(NullPercentage(schema), 5.0)
    ensures HasLowCompleteness(issues) <==>
      exists i :: 0 <= i < |schema.columns| && LowComplete(ColumnMetrics(schema)[i])
    ensures HasHighCardinality(issues) <==>
      exists i :: 0 <= i < |schema.columns| && HighCardinality(ColumnMetrics(schema)[i])
    ensures Excellent in issues <==> issues == [Excellent]
  {
    issues := Issues(NullPercentage(schema), ColumnMetrics(schema));
  }

  /** With data rows and no more nulls than rows, a column's completeness is a
      percentage, and it is 100 exactly when the column has no nulls. */
  lemma CompletenessInRange(rowCount: nat, nullCount: nat)
    requires 0 < rowCount && nullCount <= rowCount
    ensures Completeness(rowCount, nullCount).Finite?
    ensures 0.0 <= Completeness(rowCount, nullCount).value <= 100.0
    ensures Completeness(rowCount, nullCount).value == 100.0 <==> nullCount == 0
  {
    var n := rowCount as real;
    var q := (rowCount - nullCount) as real / n;
    DivideBounds((rowCount - nullCount) as real, n, 0.0, 1.0);
    if nullCount == 0 {
      assert q == 1.0;
    } else {
      assert q * n == (rowCount - nullCount) as real;
      assert q != 1.0;
    }
  }

  /** With data rows and no more distinct values than rows, cardinality is a percentage. */
  lemma CardinalityInRange(rowCount: nat, uniqueCount: nat)
    requires 0 < rowCount && uniqueCount <= rowCount
    ensures Cardinality(rowCount, uniqueCount).Finite?
    ensures 0.0 <= Cardinality(rowCount, uniqueCount).value <= 100.0
  {
    DivideBounds(uniqueCount as real, rowCount as real, 0.0, 1.0);
  }

  function Values(xs: seq<JsNum>): (r: seq<real>)
    requires forall i :: 0 <= i < |xs| ==> xs[i].Finite?
    ensures |r| == |xs| && forall i :: 0 <= i < |xs| ==> r[i] == xs[i].value
  {
    seq(|xs|, i requires 0 <= i < |xs| => xs[i].value)
  }

  /** A sum of finite numbers is the finite sum of their values. */
  lemma {:induction false} SumJsFinite(xs: seq<JsNum>)
    requires forall i :: 0 <= i < |xs| ==> xs[i].Finite?
    ensures SumJs(xs) == Finite(Sum(Values(xs)))
  {
    if xs != [] {
      var init := xs[..|xs| - 1];
      SumJsFinite(init);
      assert Values(xs)[..|xs| - 1] == Values(init);
    }
  }

  /** For a well-formed schema with data rows and columns, the overall completeness is a
      percentage. */
  lemma OverallCompletenessInRange(schema: Schema)
    requires WellFormedSchema(schema) && schema.rowCount > 0 && |schema.columns| > 0
    ensures OverallCompleteness(schema).Finite?
    ensures 0.0 <= OverallCompleteness(schema).value <= 100.0
  {
    var cs := Completenesses(ColumnMetrics(schema));
    forall i | 0 <= i < |cs|
      ensures cs[i].Finite? && 0.0 <= cs[i].value <= 100.0
    {
      CompletenessInRange(schema.rowCount, schema.columns[i].nullCount);
    }
    SumJsFinite(cs);
    MeanBetween(Values(cs), 0.0, 100.0);
  }

  /** For a well-formed schema with data rows and columns, the mean cardinality is a percentage. */
  lemma AvgCardinalityInRange(schema: Schema)
    requires WellFormedSchema(schema) && schema.rowCount > 0 && |schema.columns| > 0
    ensures AvgCardinality(schema).Finite?
    ensures 0.0 <= AvgCardinality(schema).value <= 100.0
  {
    var cs := Cardinalities(ColumnMetrics(schema));
    forall i | 0 <= i < |cs|
      ensures cs[i].Finite? && 0.0 <= cs[i].value <= 100.0
    {
      CardinalityInRange(schema.rowCount, schema.columns[i].uniqueCount);
    }
    SumJsFinite(cs);
    MeanBetween(Values(cs), 0.0, 100.0);
  }

  lemma {:induction false} TotalNullsBound(cols: seq<SchemaColumn>, rowCount: nat)
    requires forall i :: 0 <= i < |cols| ==> cols[i].nullCount <= rowCount
    ensures TotalNulls(cols) <= rowCount * |cols|
  {
    if cols != [] {
      TotalNullsBound(cols[..|cols| - 1], rowCount);
    }
  }

  /** For a well-formed schema with data rows and columns, the missing share is a percentage. */
  lemma NullPercentageInRange(schema: Schema)
    requires WellFormedSchema(schema) && schema.rowCount > 0 && |schema.columns| > 0
    ensures NullPercentage(schema).Finite?
    ensures 0.0 <= NullPercentage(schema).value <= 100.0
  {
    var cells := schema.rowCount * |schema.columns|;
    TotalNullsBound(schema.columns, schema.rowCount);
    DivideBounds(TotalNulls(schema.columns) as real, cells as real, 0.0, 1.0);
  }

  /** A schema without data rows, as inference produces it, raises none of the three
      issues: every percentage is NaN. Its list is the single "excellent" entry. */
  lemma NoRowsNoIssues(schema: Schema)
    requires WellFormedSchema(schema) && schema.rowCount == 0
    ensures !GreaterThan(NullPercentage(schema), 5.0)
    ensures forall i :: 0 <= i < |schema.columns| ==>
      !LowComplete(ColumnMetrics(schema)[i]) && !HighCardinality(ColumnMetrics(schema)[i])
  {
    TotalNullsBound(schema.columns, 0);
  }

  /** The details table: the first ten columns. */
  function DetailRows(schema: Schema): (r: seq<ColumnMetric>)
    ensures |r| == Min(10, |schema.columns|)
    ensures forall i :: 0 <= i < |r| ==> r[i].fullName == schema.columns[i].name
  {
    Take(ColumnMetrics(schema), 10)
  }

  /** The "Showing 10 of n columns" note appears for more than ten columns. */
  predicate ShowsColumnLimitNote(schema: Schema) {
    |schema.columns| > 10
  }

  /** The note appears exactly when the details table leaves some columns out. */
  lemma ColumnLimitNoteIff(schema: Schema)
    ensures ShowsColumnLimitNote(schema) <==> |DetailRows(schema)| < |ColumnMetrics(schema)|
  {
  }
}
