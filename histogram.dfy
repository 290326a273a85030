/**
 * The value histogram of the report (`generateDistributionData`): the first
 * numeric column's parseable values are spread over ten equal-width,
 * half-open bins between their minimum and maximum, and a bin is flagged
 * when it is nearly empty or holds more than 30% of the values. Without a
 * numeric column twenty placeholder bins are produced from random draws.
 */
module Histogram {
  import opened Wrappers
  import opened Seqs
  import opened JsNumber
  import opened Anomaly
  import opened SchemaInference

  /** `schema.columns.indexOf(schema.columns.find(c => c.type === 'numeric'))`. */
  function NumericColumnIndex(cols: seq<SchemaColumn>): (r: Option<nat>)
    ensures r.None? <==> forall i :: 0 <= i < |cols| ==> cols[i].columnType != Numeric
    ensures r.Some? ==>
      r.value < |cols| && cols[r.value].columnType == Numeric &&
      forall i :: 0 <= i < r.value ==> cols[i].columnType != Numeric
  {
    if cols == [] then None
    else if cols[0].columnType == Numeric then Some(0)
    else match NumericColumnIndex(cols[1..])
      case None => None
      case Some(i) => Some(i + 1)
  }

  /** The min/max loop: the bounds start at +Infinity and -Infinity, which survive
      only when there are no values (`None` here). */
  method Extremes(values: seq<real>) returns (bounds: Option<(real, real)>)
    ensures values == [] ==> bounds == None
    ensures values != [] ==> bounds == Some((MinOf(values), MaxOf(values)))
  {
    if values == [] {
      return None;
    }
    var lo := values[0];
    var hi := values[0];
    assert values[..1] == [values[0]];
    for i := 1 to |values|
      invariant lo == MinOf(values[..i]) && hi == MaxOf(values[..i])
    {
      ExtremesSnoc(values, i);
      if values[i] < lo {
        lo := values[i];
      }
      if values[i] > hi {
        hi := values[i];
      }
    }
    assert values[..|values|] == values;
    return Some((lo, hi));
  }

  /** The lower edge of bin `i`: `min + i * binSize`. */
  function BinLower(lo: real, size: real, i: nat): real {
    lo + (i as real) * size
  }

  /** `v >= binMin && v < binMax`, with `binMax = binMin + binSize`. */
  predicate InBin(lo: real, size: real, i: nat, v: real) {
    BinLower(lo, size, i) <= v < BinLower(lo, size, i) + size
  }

  function InBinFn(lo: real, size: real, i: nat): real -> bool {
    v => InBin(lo, size, i, v)
  }

  function BinCount(values: seq<real>, lo: real, size: real, i: nat): nat {
    Count(values, InBinFn(lo, size, i))
  }

  /** `count < 3 || count > values.length * 0.3`. */
  predicate Flagged(count: nat, total: nat) {
    count < 3 || count as real > total as real * 0.3
  }

  /** The ten bins between `lo` and `hi`. */
  function HistogramBins(values: seq<real>, lo: real, hi: real): (r: seq<DistributionBin>)
    ensures |r| == 10
    ensures forall i :: 0 <= i < 10 ==>
      r[i].value == BinCount(values, lo, (hi - lo) / 10.0, i) &&
      (r[i].isAnomaly <==> Flagged(BinCount(values, lo, (hi - lo) / 10.0, i), |values|))
  {
    var size := (hi - lo) / 10.0;
    seq(10, i requires 0 <= i < 10 =>
      var count := BinCount(values, lo, size, i);
      DistributionBin(count, Flagged(count, |values|)))
  }

  /** `Array.from({ length: 20 }, ...)`: placeholder bars from draws in [0, 1),
      flagged at the first and the last position. */
  function PlaceholderBins(draws: seq<real>): (r: seq<DistributionBin>)
    requires |draws| == 20
  {
    seq(20, i requires 0 <= i < 20 => DistributionBin((draws[i] * 50.0).Floor + 5, i == 0 || i == 19))
  }

  /** `generateDistributionData`; `draws` stands for the twenty calls to `Math.random()`
      made when there is no numeric column. */
  function DistributionData(rows: seq<seq<string>>, schema: Schema, draws: seq<real>): (r: seq<DistributionBin>)
    requires |draws| == 20
    ensures |r| == 10 || |r| == 20
    ensures |r| == 20 <==> forall c :: 0 <= c < |schema.columns| ==> schema.columns[c].columnType != Numeric
  {
    match NumericColumnIndex(schema.columns)
    case None => PlaceholderBins(draws)
    case Some(index) =>
      var values := FiniteValues(ColumnValues(rows, index));
      if values == [] then seq(10, i => DistributionBin(0, true))
      else HistogramBins(values, MinOf(values), MaxOf(values))
  }

  /** `generateDistributionData` with its min/max loop. */
  method GenerateDistributionData(rows: seq<seq<string>>, schema: Schema, draws: seq<real>)
    returns (bins: seq<DistributionBin>)
    requires |draws| == 20
    ensures bins == DistributionData(rows, schema, draws)
  {
    var index := NumericColumnIndex(schema.columns);
    if index.None? {
      return PlaceholderBins(draws);
    }
    var values := FiniteValues(ColumnValues(rows, index.value));
    var bounds := Extremes(values);
    match bounds
    case None =>
      bins := seq(10, i => DistributionBin(0, true));
    case Some((lo, hi)) =>
      bins := HistogramBins(values, lo, hi);
  }

  /** Twenty placeholder bars, each between 5 and 54, flagged exactly at the two ends. */
  lemma PlaceholderShape(draws: seq<real>)
    requires |draws| == 20
    requires forall i :: 0 <= i < 20 ==> 0.0 <= draws[i] < 1.0
    ensures var r := PlaceholderBins(draws);
      |r| == 20 &&
      forall i :: 0 <= i < 20 ==> 5 <= r[i].value <= 54 && (r[i].isAnomaly <==> i == 0 || i == 19)
  {
    var r := PlaceholderBins(draws);
    forall i | 0 <= i < 20 ensures 5 <= r[i].value <= 54 {
      var x := draws[i] * 50.0;
      assert 0.0 <= x < 50.0;
      assert 0 <= x.Floor < 50;
    }
  }

  /** The upper edge of every bin is at most the maximum, so the maximum itself falls in no bin. */
  lemma MaxNeverCounted(lo: real, hi: real, i: nat)
    requires lo <= hi && i < 10
    ensures !InBin(lo, (hi - lo) / 10.0, i, hi)
  {
    var size := (hi - lo) / 10.0;
    assert BinLower(lo, size, i) + size == lo + (i + 1) as real * size;
    assert (i + 1) as real * size <= 10.0 * size;
  }

  /** When every value is the same, every bin is empty. */
  lemma ConstantColumnEmptyBins(values: seq<real>, x: real)
    ensures forall i :: 0 <= i < 10 ==> HistogramBins(values, x, x)[i].value == 0
  {
    forall i | 0 <= i < 10 ensures BinCount(values, x, 0.0, i) == 0 {
      forall j | 0 <= j < |values| ensures !InBinFn(x, 0.0, i)(values[j]) {
      }
      FilterNone(values, InBinFn(x, 0.0, i));
    }
  }

  /** The sum of the counts of bins `0 .. k - 1`. */
  function TotalBelow(values: seq<real>, lo: real, size: real, k: nat): nat {
    if k == 0 then 0 else TotalBelow(values, lo, size, k - 1) + BinCount(values, lo, size, k - 1)
  }

  /** How many of the bins `0 .. k - 1` hold `v`. */
  function HitsBelow(v: real, lo: real, size: real, k: nat): nat {
    if k == 0 then 0 else HitsBelow(v, lo, size, k - 1) + (if InBin(lo, size, k - 1, v) then 1 else 0)
  }

  lemma {:induction false} TotalEmpty(lo: real, size: real, k: nat)
    ensures TotalBelow([], lo, size, k) == 0
  {
    if k > 0 {
      TotalEmpty(lo, size, k - 1);
    }
  }

  lemma {:induction false} TotalSnoc(values: seq<real>, v: real, lo: real, size: real, k: nat)
    ensures TotalBelow(values + [v], lo, size, k) == TotalBelow(values, lo, size, k) + HitsBelow(v, lo, size, k)
  {
    if k > 0 {
      TotalSnoc(values, v, lo, size, k - 1);
      CountSnoc(values, v, InBinFn(lo, size, k - 1));
    }
  }

  /** With a positive width the bins tile `[lo, BinLower(k))`: a value lies in one bin below `k`
      when it is in that range, and in none otherwise. */
  lemma {:induction false} HitsBelowRange(v: real, lo: real, size: real, k: nat)
    requires size > 0.0
    ensures HitsBelow(v, lo, size, k) == if lo <= v < BinLower(lo, size, k) then 1 else 0
  {
    if k > 0 {
      HitsBelowRange(v, lo, size, k - 1);
      assert BinLower(lo, size, k) == BinLower(lo, size, k - 1) + size;
      assert BinLower(lo, size, k - 1) >= lo;
    }
  }

  predicate InRange(lo: real, hi: real, v: real) {
    lo <= v < hi
  }

  function InRangeFn(lo: real, hi: real): real -> bool {
    v => InRange(lo, hi, v)
  }

  function IsValue(x: real): real -> bool {
    v => v == x
  }

  /** Bins `0 .. bins - 1` together hold exactly the values in `[lo, BinLower(bins))`. */
  lemma {:induction false} TotalIsRangeCount(values: seq<real>, lo: real, size: real, bins: nat)
    requires size > 0.0
    ensures TotalBelow(values, lo, size, bins) == Count(values, InRangeFn(lo, BinLower(lo, size, bins)))
  {
    if values == [] {
      TotalEmpty(lo, size, bins);
    } else {
      var init := values[..|values| - 1];
      var v := values[|values| - 1];
      TotalIsRangeCount(init, lo, size, bins);
      assert values == init + [v];
      TotalSnoc(init, v, lo, size, bins);
      HitsBelowRange(v, lo, size, bins);
      CountSnoc(init, v, InRangeFn(lo, BinLower(lo, size, bins)));
    }
  }

  /** Values between `lo` and `hi` are either below `hi` or equal to it. */
  lemma {:induction false} RangeSplit(values: seq<real>, lo: real, hi: real)
    requires forall j :: 0 <= j < |values| ==> lo <= values[j] <= hi
    ensures Count(values, InRangeFn(lo, hi)) + Count(values, IsValue(hi)) == |values|
  {
    if values != [] {
      var init := values[..|values| - 1];
      var v := values[|values| - 1];
      assert values == init + [v];
      assert forall j :: 0 <= j < |init| ==> init[j] == values[j];
      RangeSplit(init, lo, hi);
      CountSnoc(init, v, InRangeFn(lo, hi));
      CountSnoc(init, v, IsValue(hi));
    }
  }

  /** The upper edge of the last bin is the maximum. */
  lemma LastEdgeIsMax(lo: real, hi: real)
    ensures BinLower(lo, (hi - lo) / 10.0, 10) == hi
  {
  }

  /** The bin counts add up to the number of values less those equal to the maximum. */
  lemma CountsSum(values: seq<real>)
    requires |values| > 0
    ensures var lo := MinOf(values); var hi := MaxOf(values);
      TotalBelow(values, lo, (hi - lo) / 10.0, 10) == |values| - Count(values, IsValue(hi))
  {
    CountsSumOver(values, 10);
  }

  lemma CountsSumOver(values: seq<real>, bins: nat)
    requires |values| > 0 && bins == 10
    ensures var lo := MinOf(values); var hi := MaxOf(values);
      TotalBelow(values, lo, (hi - lo) / 10.0, bins) == |values| - Count(values, IsValue(hi))
  {
    var lo := MinOf(values);
    var hi := MaxOf(values);
    var size := (hi - lo) / 10.0;
    RangeSplit(values, lo, hi);
    if lo < hi {
      TotalIsRangeCount(values, lo, size, bins);
      LastEdgeIsMax(lo, hi);
    } else {
      assert size == 0.0;
      ZeroWidthTotal(values, lo, bins);
      forall j | 0 <= j < |values| ensures !InRangeFn(lo, hi)(values[j]) {
      }
      FilterNone(values, InRangeFn(lo, hi));
    }
  }

  lemma {:induction false} ZeroWidthTotal(values: seq<real>, lo: real, k: nat)
    ensures TotalBelow(values, lo, 0.0, k) == 0
  {
    if k > 0 {
      ZeroWidthTotal(values, lo, k - 1);
      forall j | 0 <= j < |values| ensures !InBinFn(lo, 0.0, k - 1)(values[j]) {
      }
      FilterNone(values, InBinFn(lo, 0.0, k - 1));
    }
  }
}
