/**
 * The quick statistics the uploader computes over the parsed rows of a
 * transactions file: the amounts, the merchant frequency table and its top
 * five, the 24-slot hour histogram, the number of distinct users and the
 * amount summary; and the training step shown for a progress percentage.
 * Rows are the parser's records: a column that is absent reads as
 * `undefined`, and `a || b` falls through empty strings and `undefined`.
 */
module UploadStats {
  import opened Wrappers
  import opened Seqs
  import opened JsNumber
  import opened Records
  import opened Strings

  /** A parsed row: the columns present, with their text. */
  type Row = map<string, string>

  /** `row[key]`. */
  function Field(row: Row, key: string): Option<string> {
    if key in row then Some(row[key]) else None
  }

  /** Whether a cell is truthy: present and non-empty. */
  predicate Truthy(v: Option<string>) {
    v.Some? && v.value != ""
  }

  /** `row[a] || row[b]` when one of them is truthy, `None` when neither is. */
  function FirstTruthy(row: Row, a: string, b: string): (r: Option<string>)
    ensures r.Some? ==> r.value != ""
  {
    if Truthy(Field(row, a)) then Field(row, a)
    else if Truthy(Field(row, b)) then Field(row, b)
    else None
  }

  /** `row.amount || row.Amount || 0`, as the text `parseFloat` reads: `parseFloat(0)`
      converts the number 0 to the text "0". */
  function AmountText(row: Row): string {
    match FirstTruthy(row, "amount", "Amount")
    case Some(t) => t
    case None => "0"
  }

  /** The finite amounts, in row order; amounts that parse to NaN are dropped. */
  function Amounts(rows: seq<Row>): (r: seq<real>)
    ensures |r| <= |rows|
  {
    FiniteValues(seq(|rows|, i requires 0 <= i < |rows| => AmountText(rows[i])))
  }

  /** One more row adds its amount when `parseFloat` reads one, nothing when it reads
      NaN, and 0 when the row has neither amount column. */
  lemma AmountsSnoc(rows: seq<Row>, row: Row)
    ensures ParseFloat(AmountText(row)).Finite? ==>
      Amounts(rows + [row]) == Amounts(rows) + [ParseFloat(AmountText(row)).value]
    ensures ParseFloat(AmountText(row)) == NaN ==> Amounts(rows + [row]) == Amounts(rows)
    ensures !Truthy(Field(row, "amount")) && !Truthy(Field(row, "Amount")) ==>
      Amounts(rows + [row]) == Amounts(rows) + [0.0]
  {
    AmountsAppend(rows, row);
    if !Truthy(Field(row, "amount")) && !Truthy(Field(row, "Amount")) {
      MissingAmountIsZero(row);
    }
  }

  lemma AmountsAppend(rows: seq<Row>, row: Row)
    ensures Amounts(rows + [row]) == FiniteValues(seq(|rows|, i requires 0 <= i < |rows| => AmountText(rows[i])) + [AmountText(row)])
  {
    var all := rows + [row];
    assert seq(|all|, i requires 0 <= i < |all| => AmountText(all[i])) ==
      seq(|rows|, i requires 0 <= i < |rows| => AmountText(rows[i])) + [AmountText(row)];
  }

  lemma MissingAmountIsZero(row: Row)
    requires !Truthy(Field(row, "amount")) && !Truthy(Field(row, "Amount"))
    ensures ParseFloat(AmountText(row)) == Finite(0.0)
  {
    ParseFloatOfNatToString(0);
    assert NatToString(0) == "0";
  }

  /** `row.merchant || row.Merchant || ""`. */
  function MerchantOf(row: Row): string {
    match FirstTruthy(row, "merchant", "Merchant")
    case Some(t) => t
    case None => ""
  }

  function Merchants(rows: seq<Row>): (r: seq<string>)
    ensures |r| == |rows| && forall i :: 0 <= i < |rows| ==> r[i] == MerchantOf(rows[i])
  {
    seq(|rows|, i requires 0 <= i < |rows| => MerchantOf(rows[i]))
  }

  /** `merchantCounts.get(m) || 0`. */
  function CountOrZero(counts: Record<nat>, m: string): nat {
    match Get(counts, m)
    case Some(c) => c
    case None => 0
  }

  /** The merchant map after the `forEach`: each non-empty merchant counted, in order of
      first appearance. */
  function MerchantCounts(ms: seq<string>): (r: Record<nat>)
    ensures DistinctKeys(r)
  {
    if ms == [] then [] else Counted(MerchantCounts(ms[..|ms| - 1]), ms[|ms| - 1])
  }

  /** One step of the `forEach`: `if (m) merchantCounts.set(m, (merchantCounts.get(m) || 0) + 1)`. */
  function Counted(counts: Record<nat>, m: string): (r: Record<nat>)
    requires DistinctKeys(counts)
    ensures DistinctKeys(r)
  {
    if m != "" then SetKey(counts, m, CountOrZero(counts, m) + 1) else counts
  }

  /** The merchant-counting loop. */
  method CountMerchants(rows: seq<Row>) returns (counts: Record<nat>)
    ensures counts == MerchantCounts(Merchants(rows))
  {
    var merchants := Merchants(rows);
    counts := [];
    for i := 0 to |merchants|
      invariant counts == MerchantCounts(merchants[..i])
    {
      MerchantCountsSnoc(merchants, i);
      counts := CountOne(counts, merchants[i]);
    }
    assert merchants[..|merchants|] == merchants;
  }

  lemma MerchantCountsSnoc(ms: seq<string>, i: nat)
    requires i < |ms|
    ensures MerchantCounts(ms[..i + 1]) == Counted(MerchantCounts(ms[..i]), ms[i])
  {
    assert ms[..i + 1][..i] == ms[..i];
  }

  /** The body of the merchant loop, for one merchant. */
  method CountOne(counts: Record<nat>, m: string) returns (counts': Record<nat>)
    requires DistinctKeys(counts)
    ensures counts' == Counted(counts, m)
  {
    counts' := counts;
    if m != "" {
      counts' := SetKey(counts, m, CountOrZero(counts, m) + 1);
    }
  }

  function Equals(m: string): string -> bool {
    (x: string) => x == m
  }

  /** Counting one merchant adds one to its entry, creating it if needed, and leaves
      every other key as it was. */
  lemma CountedGet(counts: Record<nat>, m: string, k: string)
    requires DistinctKeys(counts)
    ensures Get(Counted(counts, m), k).Some? <==> Get(counts, k).Some? || (k == m && m != "")
    ensures CountOrZero(Counted(counts, m), k) == CountOrZero(counts, k) + (if k == m && m != "" then 1 else 0)
  {
    if m != "" {
      var v := CountOrZero(counts, m) + 1;
      GetSetKey(counts, m, v, k);
      var g := Get(Counted(counts, m), k);
      if k == m {
        assert g == Some(v);
      } else {
        assert g == Get(counts, k);
      }
    }
  }

  /** The map holds exactly the non-empty merchants, each with its number of occurrences. */
  lemma {:induction false} MerchantCountsAreOccurrences(ms: seq<string>, k: string)
    ensures Get(MerchantCounts(ms), k).Some? <==> k != "" && k in ms
    ensures CountOrZero(MerchantCounts(ms), k) == if k == "" then 0 else Count(ms, Equals(k))
  {
    if ms != [] {
      var init := ms[..|ms| - 1];
      var m := ms[|ms| - 1];
      MerchantCountsAreOccurrences(init, k);
      assert ms == init + [m];
      CountSnoc(init, m, Equals(k));
      CountedGet(MerchantCounts(init), m, k);
    }
  }

  /** Every entry of the map is a non-empty merchant and its number of occurrences. */
  lemma MerchantEntries(ms: seq<string>, i: nat)
    requires i < |MerchantCounts(ms)|
    ensures var e := MerchantCounts(ms)[i];
      e.0 != "" && e.0 in ms && e.1 == Count(ms, Equals(e.0))
  {
    var counts := MerchantCounts(ms);
    GetAt(counts, i);
    MerchantCountsAreOccurrences(ms, counts[i].0);
  }

  /** The sort key of `(a, b) => b[1] - a[1]`: larger counts first, ties in map order. */
  function ByCountDescending(e: (string, nat)): real {
    -(e.1 as real)
  }

  /** `Array.from(merchantCounts.entries()).sort((a, b) => b[1] - a[1]).slice(0, 5)`. */
  function TopMerchants(counts: Record<nat>): (r: Record<nat>)
    ensures |r| == Min(5, |counts|)
    ensures forall i :: 0 <= i < |r| ==> r[i] in counts
  {
    TopByKey(counts, ByCountDescending, 5);
    Take(SortBy(counts, ByCountDescending), 5)
  }

  /** At most five entries, each from the map, in non-increasing count order, and no
      entry left out has a larger count than one shown. */
  lemma TopMerchantsShape(counts: Record<nat>)
    ensures var top := TopMerchants(counts);
      |top| == Min(5, |counts|) &&
      (forall i :: 0 <= i < |top| ==> top[i] in counts) &&
      (forall i, j :: 0 <= i < j < |top| ==> top[i].1 >= top[j].1) &&
      (forall e, i :: e in counts && e !in top && 0 <= i < |top| ==> top[i].1 >= e.1)
  {
    TopByKey(counts, ByCountDescending, 5);
    var top := TopMerchants(counts);
    forall i, j | 0 <= i < j < |top|
      ensures top[i].1 >= top[j].1
    {
      assert ByCountDescending(top[i]) <= ByCountDescending(top[j]);
    }
    forall e, i | e in counts && e !in top && 0 <= i < |top|
      ensures top[i].1 >= e.1
    {
      assert ByCountDescending(top[i]) <= ByCountDescending(e);
    }
  }

  function CountIs(n: nat): ((string, nat)) -> bool {
    (e: (string, nat)) => e.1 == n
  }

  /** Ties keep map order: the entries shown with count `n` are the first entries of the
      map with that count, in map order. */
  lemma TopMerchantsTies(counts: Record<nat>, n: nat)
    ensures Filter(TopMerchants(counts), CountIs(n)) <= Filter(counts, CountIs(n))
  {
    TopStableBy(counts, ByCountDescending, 5, -(n as real), CountIs(n));
  }

  /** `row.transaction_time || row.time || ""`. */
  function TimeText(row: Row): string {
    match FirstTruthy(row, "transaction_time", "time")
    case Some(t) => t
    case None => ""
  }

  /** The slot a row adds to: `hour` stands for `new Date(time).getHours()` of the row's
      time text (`None` for NaN); rows without a time text, or with a NaN hour, add to
      no slot (-1). */
  function HourSlot(row: Row, hour: Option<nat>): int {
    if TimeText(row) != "" && hour.Some? then hour.value else -1
  }

  function HourSlots(rows: seq<Row>, hours: seq<Option<nat>>): (r: seq<int>)
    requires |hours| == |rows|
    ensures |r| == |rows| && forall i :: 0 <= i < |rows| ==> r[i] == HourSlot(rows[i], hours[i])
  {
    seq(|rows|, i requires 0 <= i < |rows| => HourSlot(rows[i], hours[i]))
  }

  function Slot(x: int): int { x }

  /** The 24 slots as the hour loop leaves them. */
  function HourCounts(slots: seq<int>): (r: seq<nat>)
    ensures |r| == 24
  {
    seq(24, h requires 0 <= h < 24 => Count(slots, HasIndex(Slot, h)))
  }

  /** One more row's slot added to the counts. */
  lemma HourCountsSnoc(slots: seq<int>, s: int)
    ensures HourCounts(slots + [s]) ==
      if 0 <= s < 24 then HourCounts(slots)[s := HourCounts(slots)[s] + 1] else HourCounts(slots)
  {
    forall h | 0 <= h < 24
      ensures HourCounts(slots + [s])[h] == HourCounts(slots)[h] + (if s == h then 1 else 0)
    {
      CountSnoc(slots, s, HasIndex(Slot, h));
    }
  }

  predicate ValidHours(hours: seq<Option<nat>>) {
    forall i :: 0 <= i < |hours| ==> hours[i].Some? ==> hours[i].value < 24
  }

  /** The hour loop over a fresh array of 24 zeros. */
  method HourDistribution(rows: seq<Row>, hours: seq<Option<nat>>) returns (dist: array<nat>)
    requires |hours| == |rows| && ValidHours(hours)
    ensures fresh(dist)
    ensures dist[..] == HourCounts(HourSlots(rows, hours))
  {
    var slots := HourSlots(rows, hours);
    dist := new nat[24](h => 0);
    assert dist[..] == HourCounts([]);
    for i := 0 to |rows|
      invariant dist[..] == HourCounts(slots[..i])
    {
      assert slots[..i + 1] == slots[..i] + [slots[i]];
      HourCountsSnoc(slots[..i], slots[i]);
      var time := TimeText(rows[i]);
      if time != "" {
        var hour := hours[i];
        if hour.Some? {
          dist[hour.value] := dist[hour.value] + 1;
        }
      }
    }
    assert slots[..|rows|] == slots;
  }

  function Total(s: seq<nat>): nat {
    if s == [] then 0 else Total(s[..|s| - 1]) + s[|s| - 1]
  }

  lemma {:induction false} HourTotalTally(slots: seq<int>, k: nat)
    requires k <= 24
    ensures Total(HourCounts(slots)[..k]) == TallyTotal(slots, Slot, k)
  {
    if k > 0 {
      HourTotalTally(slots, k - 1);
      assert HourCounts(slots)[..k][..k - 1] == HourCounts(slots)[..k - 1];
    } else {
      assert HourCounts(slots)[..0] == [];
    }
  }

  /** The 24 slots never count more hours than there are rows. */
  lemma HourTotalAtMostRows(rows: seq<Row>, hours: seq<Option<nat>>)
    requires |hours| == |rows|
    ensures Total(HourCounts(HourSlots(rows, hours))) <= |rows|
  {
    var slots := HourSlots(rows, hours);
    HourTotalTally(slots, 24);
    assert HourCounts(slots)[..24] == HourCounts(slots);
    TallyTotalCount(slots, Slot, 24);
  }

  /** `row.user_id || row.userId`: the user id when truthy, otherwise whatever `userId`
      holds, `undefined` (`None`) included. */
  function UserKey(row: Row): Option<string> {
    if Truthy(Field(row, "user_id")) then Field(row, "user_id") else Field(row, "userId")
  }

  function UserKeys(rows: seq<Row>): (r: seq<Option<string>>)
    ensures |r| == |rows| && forall i :: 0 <= i < |rows| ==> r[i] == UserKey(rows[i])
  {
    seq(|rows|, i requires 0 <= i < |rows| => UserKey(rows[i]))
  }

  /** `new Set(data.map(row => row.user_id || row.userId)).size`. */
  function UniqueUsers(rows: seq<Row>): (r: nat)
    ensures r <= |rows|
    ensures |rows| > 0 ==> r >= 1
  {
    DistinctSize(UserKeys(rows));
    |Distinct(UserKeys(rows))|
  }

  /** At most one user per row and at least one for a non-empty file; rows with neither
      column all share the single `undefined` key. */
  lemma UniqueUsersBounds(rows: seq<Row>)
    ensures UniqueUsers(rows) <= |rows|
    ensures |rows| > 0 ==> UniqueUsers(rows) >= 1
    ensures |rows| > 0 && (forall i :: 0 <= i < |rows| ==> "user_id" !in rows[i] && "userId" !in rows[i]) ==>
      UniqueUsers(rows) == 1
  {
    var keys := UserKeys(rows);
    DistinctSize(keys);
    if |rows| > 0 && forall i :: 0 <= i < |rows| ==> "user_id" !in rows[i] && "userId" !in rows[i] {
      assert Distinct(keys) == {None} by {
        assert keys[0] == None;
      }
    }
  }

  /** `sortedAmounts[Math.floor(n / 2)]`, or 0 when there are no amounts. */
  function MedianAmount(amounts: seq<real>): (r: real)
    ensures amounts == [] ==> r == 0.0
    ensures amounts != [] ==> r in amounts
  {
    if amounts == [] then 0.0
    else
      RankBounds(amounts, |amounts| / 2);
      Ascending(amounts)[|amounts| / 2]
  }

  /** The median is an amount with more than half of the amounts at or below it and at
      least half at or above it (the upper median for an even count). */
  lemma MedianRank(amounts: seq<real>)
    requires amounts != []
    ensures MedianAmount(amounts) in amounts
    ensures Count(amounts, AtMost(MedianAmount(amounts))) >= |amounts| / 2 + 1
    ensures Count(amounts, AtLeast(MedianAmount(amounts))) >= |amounts| - |amounts| / 2
  {
    RankBounds(amounts, |amounts| / 2);
  }

  /** `amounts.reduce((a, b) => a + b, 0) / amounts.length || 0`: the NaN of an empty list reads as 0. */
  function MeanAmount(amounts: seq<real>): (r: real)
    ensures amounts == [] ==> r == 0.0
    ensures amounts != [] ==> r * |amounts| as real == Sum(amounts)
  {
    if amounts == [] then 0.0 else Mean(amounts)
  }

  /** `Math.min(...amounts) || 0`: `Math.min()` of nothing is Infinity, which is truthy. */
  function MinAmount(amounts: seq<real>): (r: JsNum)
    ensures r.Infinity? <==> amounts == []
    ensures r.Finite? ==> r.value in amounts && forall i :: 0 <= i < |amounts| ==> r.value <= amounts[i]
  {
    if amounts == [] then Infinity(false) else Finite(MinOf(amounts))
  }

  /** `Math.max(...amounts) || 0`: `Math.max()` of nothing is -Infinity. */
  function MaxAmount(amounts: seq<real>): (r: JsNum)
    ensures r.Infinity? <==> amounts == []
    ensures r.Finite? ==> r.value in amounts && forall i :: 0 <= i < |amounts| ==> amounts[i] <= r.value
  {
    if amounts == [] then Infinity(true) else Finite(MaxOf(amounts))
  }

  /** The mean of the amounts lies between the minimum and the maximum shown. */
  lemma MeanWithinExtremes(amounts: seq<real>)
    requires amounts != []
    ensures MinAmount(amounts).value <= MeanAmount(amounts) <= MaxAmount(amounts).value
  {
    var lo, hi := MinOf(amounts), MaxOf(amounts);
    MeanBetween(amounts, lo, hi);
  }

  datatype CsvStats = CsvStats(
    rowCount: nat,
    sampleSize: nat,
    meanAmount: real,
    medianAmount: real,
    minAmount: JsNum,
    maxAmount: JsNum,
    topMerchants: Record<nat>,
    hourDistribution: seq<nat>,
    uniqueUsers: nat)

  /** The stats block of the parse callback. */
  method ComputeStats(rows: seq<Row>, hours: seq<Option<nat>>) returns (stats: CsvStats)
    requires |hours| == |rows| && ValidHours(hours)
    ensures stats.rowCount == |rows| && stats.sampleSize == Min(500, |rows|)
    ensures stats.meanAmount == MeanAmount(Amounts(rows))
    ensures stats.medianAmount == MedianAmount(Amounts(rows))
    ensures stats.minAmount == MinAmount(Amounts(rows)) && stats.maxAmount == MaxAmount(Amounts(rows))
    ensures stats.topMerchants == TopMerchants(MerchantCounts(Merchants(rows)))
    ensures stats.hourDistribution == HourCounts(HourSlots(rows, hours))
    ensures stats.uniqueUsers == UniqueUsers(rows)
  {
    var amounts := Amounts(rows);
    var counts := CountMerchants(rows);
    var dist := HourDistribution(rows, hours);
    stats := CsvStats(|rows|, Min(500, |rows|), MeanAmount(amounts), MedianAmount(amounts),
      MinAmount(amounts), MaxAmount(amounts), TopMerchants(counts), dist[..], UniqueUsers(rows));
  }

  datatype TrainingStep = TrainingStep(name: string, low: real, high: real)

  const TrainingSteps: seq<TrainingStep> := [
    TrainingStep("Parsing file", 0.0, 10.0),
    TrainingStep("Feature Extraction", 10.0, 35.0),
    TrainingStep("Uploading & Scheduling Training", 35.0, 50.0),
    TrainingStep("Server Training", 50.0, 99.0),
    TrainingStep("Done", 99.0, 100.0)]

  /** `percent >= step.range[0] && percent <= step.range[1]`. */
  function InStep(percent: real): TrainingStep -> bool {
    (s: TrainingStep) => percent >= s.low && percent <= s.high
  }

  /** `getCurrentStep`: 0 without progress, otherwise the first step whose inclusive range
      holds the percentage, or -1. */
  function CurrentStep(progress: Option<real>): (r: int)
    ensures -1 <= r < |TrainingSteps|
    ensures progress.Some? && r >= 0 ==> InStep(progress.value)(TrainingSteps[r])
  {
    match progress
    case None => 0
    case Some(percent) => FindIndex(TrainingSteps, InStep(percent))
  }

  /** The step shown for each percentage: a shared boundary goes to the earlier step, and
      a percentage outside [0, 100] matches none. */
  lemma CurrentStepTable(percent: real)
    ensures CurrentStep(Some(percent)) ==
      if percent < 0.0 || percent > 100.0 then -1
      else if percent <= 10.0 then 0
      else if percent <= 35.0 then 1
      else if percent <= 50.0 then 2
      else if percent <= 99.0 then 3
      else 4
  {
    var r := CurrentStep(Some(percent));
    var p := InStep(percent);
    assert p(TrainingSteps[0]) <==> 0.0 <= percent <= 10.0;
    assert p(TrainingSteps[1]) <==> 10.0 <= percent <= 35.0;
    assert p(TrainingSteps[2]) <==> 35.0 <= percent <= 50.0;
    assert p(TrainingSteps[3]) <==> 50.0 <= percent <= 99.0;
    assert p(TrainingSteps[4]) <==> 99.0 <= percent <= 100.0;
  }
}
