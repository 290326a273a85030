/**
 * Column type inference (`inferColumnType`) and schema inference
 * (`inferSchema`): each column is classified by ratio tests applied in a
 * fixed order, the first that passes deciding, and its null, distinct and
 * sample statistics are recorded.
 */
module SchemaInference {
  import opened Strings
  import opened Seqs
  import opened JsNumber
  import opened Anomaly

  /** `v && v.trim()`: a value that is neither empty nor white space only. */
  predicate NonBlank(v: string) {
    Trim(v) != []
  }

  /** `!isNaN(parseFloat(v))`. */
  predicate IsNumericValue(v: string) {
    ParseFloat(v) != NaN
  }

  /** `\w`: an ASCII letter, digit or underscore. */
  predicate IsWordChar(c: char) {
    IsDigit(c) || ('a' <= c <= 'z') || ('A' <= c <= 'Z') || c == '_'
  }

  predicate DigitsAt(v: string, from: nat, count: nat)
    requires from + count <= |v|
  {
    forall i :: from <= i < from + count ==> IsDigit(v[i])
  }

  predicate WordCharsAt(v: string, from: nat, count: nat)
    requires from + count <= |v|
  {
    forall i :: from <= i < from + count ==> IsWordChar(v[i])
  }

  /** `^\d{4}-\d{2}-\d{2}`. */
  predicate IsoDatePrefix(v: string) {
    |v| >= 10 && DigitsAt(v, 0, 4) && v[4] == '-' && DigitsAt(v, 5, 2) && v[7] == '-' && DigitsAt(v, 8, 2)
  }

  /** `^\d{2}\/\d{2}\/\d{4}`. */
  predicate SlashDatePrefix(v: string) {
    |v| >= 10 && DigitsAt(v, 0, 2) && v[2] == '/' && DigitsAt(v, 3, 2) && v[5] == '/' && DigitsAt(v, 6, 4)
  }

  /** `^\d{1,2}-\w{3}-\d{4}`, with one or with two leading digits. */
  predicate MonthNameDatePrefix(v: string) {
    (|v| >= 10 && DigitsAt(v, 0, 1) && v[1] == '-' && WordCharsAt(v, 2, 3) && v[5] == '-' && DigitsAt(v, 6, 4))
    || (|v| >= 11 && DigitsAt(v, 0, 2) && v[2] == '-' && WordCharsAt(v, 3, 3) && v[6] == '-' && DigitsAt(v, 7, 4))
  }

  /** `datePatterns.some(p => p.test(v))`. */
  predicate IsDateValue(v: string) {
    IsoDatePrefix(v) || SlashDatePrefix(v) || MonthNameDatePrefix(v)
  }

  /** `['true', 'false', '0', '1', 'yes', 'no'].includes(v.toLowerCase())`. */
  predicate IsBooleanValue(v: string) {
    ToLower(v) in ["true", "false", "0", "1", "yes", "no"]
  }

  /** `k / n > num / den` for a positive `n`, cross-multiplied so that it stays linear. */
  predicate RatioAbove(k: nat, n: nat, num: nat, den: nat) {
    k * den > n * num
  }

  /** `k / n < num / den` for a positive `n`, cross-multiplied. */
  predicate RatioBelow(k: nat, n: nat, num: nat, den: nat) {
    k * den < n * num
  }

  /** The cross-multiplied tests are the ratio tests of the source. */
  lemma RatioTestsExact(k: nat, n: nat, num: nat, den: nat)
    requires n > 0 && den > 0
    ensures RatioAbove(k, n, num, den) <==> k as real / n as real > num as real / den as real
    ensures RatioBelow(k, n, num, den) <==> k as real / n as real < num as real / den as real
  {
    var x := k as real / n as real;
    var y := num as real / den as real;
    assert x * (n * den) as real == (k * den) as real;
    assert y * (n * den) as real == (n * num) as real;
  }

  /** The rule chain of `inferColumnType` on the counts it looks at: the number of
      non-blank values and how many of them are numeric, dates, booleans and distinct.
      The thresholds are 0.8 = 4/5, 0.9 = 9/10 and 0.3 = 3/10. */
  function Classify(n: nat, numeric: nat, date: nat, boolean: nat, unique: nat): (r: ColumnType)
    ensures n == 0 ==> r == Text
    ensures date <= numeric ==> r != Datetime
    ensures r != Geo
  {
    if n == 0 then Text
    else if RatioAbove(numeric, n, 4, 5) then Numeric
    else if RatioAbove(date, n, 4, 5) then Datetime
    else if RatioAbove(boolean, n, 4, 5) then Boolean
    else if RatioAbove(unique, n, 9, 10) then Id
    else if RatioBelow(unique, n, 3, 10) then Categorical
    else Text
  }

  /** `inferColumnType`: blank columns are text; otherwise numeric, datetime and
      boolean need more than 80% of the non-blank values, then a distinct ratio
      above 0.9 means an identifier and one below 0.3 a category. */
  function InferColumnType(values: seq<string>): (r: ColumnType)
    ensures Filter(values, NonBlank) == [] ==> r == Text
    ensures r != Datetime && r != Geo
  {
    var sample := Filter(values, NonBlank);
    DatesCountAsNumbers(sample);
    Classify(|sample|, Count(sample, IsNumericValue), Count(sample, IsDateValue),
      Count(sample, IsBooleanValue), |Distinct(sample)|)
  }

  /** Every date pattern begins with a digit, so a date-like value is numeric to `parseFloat`. */
  lemma DateValueIsNumeric(v: string)
    requires IsDateValue(v)
    ensures IsNumericValue(v)
  {
    assert IsDigit(v[0]);
    DigitStartIsNumeric(v);
  }

  /** Every date-like value is also counted as numeric, so no sample has more dates
      than numbers and the date rule never fires. */
  lemma DatesCountAsNumbers(sample: seq<string>)
    ensures Count(sample, IsDateValue) <= Count(sample, IsNumericValue)
  {
    forall v | IsDateValue(v) ensures IsNumericValue(v) {
      DateValueIsNumeric(v);
    }
    CountMonotone(sample, IsDateValue, IsNumericValue);
  }

  /** A column with no non-blank value is text. */
  lemma BlankColumnIsText(values: seq<string>)
    requires forall i :: 0 <= i < |values| ==> !NonBlank(values[i])
    ensures InferColumnType(values) == Text
  {
    FilterNone(values, NonBlank);
  }

  /** A column whose values all start with a digit is numeric, whatever else holds:
      the numeric rule comes before the date, boolean and identifier rules. */
  lemma DigitLeadingColumnIsNumeric(values: seq<string>)
    requires |values| > 0
    requires forall i :: 0 <= i < |values| ==> |values[i]| > 0 && IsDigit(values[i][0])
    ensures InferColumnType(values) == Numeric
  {
    forall i | 0 <= i < |values| ensures NonBlank(values[i]) && IsNumericValue(values[i]) {
      var v := values[i];
      assert !IsWhitespace(v[0]);
      TrimStartOfTrimmed(v);
      DigitStartIsNumeric(v);
    }
    FilterAll(values, NonBlank);
    FilterAll(values, IsNumericValue);
  }

  /** A column of `0` and `1` flags is numeric, never boolean. */
  lemma ZeroOneColumnIsNumeric(values: seq<string>)
    requires |values| > 0
    requires forall i :: 0 <= i < |values| ==> values[i] == "0" || values[i] == "1"
    ensures InferColumnType(values) == Numeric
  {
    DigitLeadingColumnIsNumeric(values);
  }

  /** `row[i] || ''`: a missing cell reads as the empty string. */
  function Cell(row: seq<string>, i: nat): string
  {
    if i < |row| then row[i] else ""
  }

  /** `rows.map(row => row[i] || '')`. */
  function ColumnValues(rows: seq<seq<string>>, i: nat): (r: seq<string>)
    ensures |r| == |rows|
    ensures forall k :: 0 <= k < |rows| ==> r[k] == Cell(rows[k], i)
  {
    seq(|rows|, k requires 0 <= k < |rows| => Cell(rows[k], i))
  }

  /** The statistics of the column at `i`, named `name`. */
  function InferColumn(name: string, i: nat, rows: seq<seq<string>>): (c: SchemaColumn)
    ensures c.name == name
    ensures c.columnType == InferColumnType(ColumnValues(rows, i))
    ensures c.nullCount + |Filter(ColumnValues(rows, i), NonBlank)| == |rows|
    ensures c.uniqueCount == |Distinct(Filter(ColumnValues(rows, i), NonBlank))|
    ensures c.uniqueCount <= |rows| - c.nullCount
    ensures c.sampleValues == Take(Filter(ColumnValues(rows, i), NonBlank), 5)
  {
    var values := ColumnValues(rows, i);
    var nonNull := Filter(values, NonBlank);
    DistinctSize(nonNull);
    SchemaColumn(name, InferColumnType(values), |values| - |nonNull|, |Distinct(nonNull)|, Take(nonNull, 5))
  }

  /** `inferSchema`: one column per header, in header order. */
  function InferSchema(headers: seq<string>, rows: seq<seq<string>>): (s: Schema)
    ensures |s.columns| == |headers| && s.rowCount == |rows|
    ensures forall i :: 0 <= i < |headers| ==> s.columns[i] == InferColumn(headers[i], i, rows)
  {
    Schema(seq(|headers|, i requires 0 <= i < |headers| => InferColumn(headers[i], i, rows)), |rows|)
  }

  /** The samples are at most five non-blank values of the column, in column order. */
  lemma SamplesNonBlank(values: seq<string>)
    ensures var samples := Take(Filter(values, NonBlank), 5);
      |samples| <= 5 && forall j :: 0 <= j < |samples| ==> NonBlank(samples[j]) && samples[j] in values
  {
    var nonNull := Filter(values, NonBlank);
    var samples := Take(nonNull, 5);
    forall j | 0 <= j < |samples|
      ensures NonBlank(samples[j]) && samples[j] in values
    {
      assert samples[j] == nonNull[j];
    }
  }

  /** Each inferred column keeps the invariants of a schema column, is never typed as a
      date or as geographic, and samples only non-blank values of its column. */
  lemma InferColumnFacts(name: string, i: nat, rows: seq<seq<string>>)
    ensures var c := InferColumn(name, i, rows);
      c.nullCount <= |rows| && c.uniqueCount <= |rows| - c.nullCount &&
      c.uniqueCount == |Distinct(Filter(ColumnValues(rows, i), NonBlank))| &&
      c.columnType != Datetime && c.columnType != Geo &&
      |c.sampleValues| <= 5 &&
      forall j :: 0 <= j < |c.sampleValues| ==> NonBlank(c.sampleValues[j]) && c.sampleValues[j] in ColumnValues(rows, i)
  {
    SamplesNonBlank(ColumnValues(rows, i));
  }

  /** An inferred schema is well formed and types no column as a date. */
  lemma InferSchemaWellFormed(headers: seq<string>, rows: seq<seq<string>>)
    ensures WellFormedSchema(InferSchema(headers, rows))
    ensures forall i :: 0 <= i < |headers| ==> InferSchema(headers, rows).columns[i].columnType != Datetime
  {
    var s := InferSchema(headers, rows);
    forall i | 0 <= i < |headers|
      ensures s.columns[i].nullCount <= s.rowCount
      ensures s.columns[i].uniqueCount <= s.rowCount - s.columns[i].nullCount
      ensures |s.columns[i].sampleValues| <= 5
      ensures s.columns[i].columnType != Datetime
    {
      InferColumnFacts(headers[i], i, rows);
    }
  }
}
