/**
 * The per-row results of the analysis (`generateMockResults`): about 5% of
 * the row indices are drawn as anomalies, and for each of the first hundred
 * rows a score, flags paired with explanations, and four clamped model
 * votes are produced. Every `Math.random()` call is an explicit draw here.
 */
module MockScoring {
  import opened Wrappers
  import opened Seqs
  import opened Anomaly

  /** `Math.ceil(n * 0.05)` on exact rationals: the least `t` with `20 * t >= n`. */
  function AnomalyTarget(n: nat): (t: nat)
    ensures 20 * t >= n && (t == 0 || 20 * (t - 1) < n)
    ensures t <= n
  {
    (n + 19) / 20
  }

  /** The `while (anomalyIndices.size < anomalyCount)` loop: `picks` are the successive
      values of `Math.floor(Math.random() * rows.length)`, and they are assumed to hold
      enough distinct indices for the loop to finish. */
  method SampleAnomalyIndices(n: nat, picks: seq<nat>) returns (chosen: set<nat>, used: nat)
    requires forall k :: 0 <= k < |picks| ==> picks[k] < n
    requires AnomalyTarget(n) <= |Distinct(picks)|
    ensures used <= |picks| && chosen == Distinct(picks[..used])
    ensures |chosen| == AnomalyTarget(n)
    ensures forall i :: i in chosen ==> i < n
    ensures chosen == AnomalyIndices(n, picks)
  {
    var target := AnomalyTarget(n);
    chosen := {};
    used := 0;
    while |chosen| < target && used < |picks|
      invariant used <= |picks| && chosen == Distinct(picks[..used])
      invariant |chosen| <= target
      invariant PicksUsed(target, picks, used) == PicksUsed(target, picks, 0)
      decreases |picks| - used
    {
      assert picks[..used + 1] == picks[..used] + [picks[used]];
      chosen := chosen + {picks[used]};
      used := used + 1;
    }
    assert used == |picks| ==> picks[..used] == picks;
    forall i | i in chosen ensures i < n {
      var k :| 0 <= k < used && picks[..used][k] == i;
      assert picks[k] == i;
    }
  }

  /** How many picks the sampling loop has consumed when it stops, having consumed `k`
      so far: it stops once it holds `target` distinct indices or the picks run out. */
  function PicksUsed(target: nat, picks: seq<nat>, k: nat): (r: nat)
    requires k <= |picks|
    ensures k <= r <= |picks|
    decreases |picks| - k
  {
    if |Distinct(picks[..k])| >= target || k == |picks| then k
    else PicksUsed(target, picks, k + 1)
  }

  /** The set of anomaly indices the sampling loop ends with. */
  function AnomalyIndices(n: nat, picks: seq<nat>): (r: set<nat>)
    ensures |r| <= AnomalyTarget(n)
    ensures forall i :: i in r ==> i in picks
  {
    assert picks[..0] == [];
    PicksUsedStops(AnomalyTarget(n), picks, 0);
    Distinct(picks[..PicksUsed(AnomalyTarget(n), picks, 0)])
  }

  /** Taking one more pick adds at most one index. */
  lemma DistinctSnocSize(picks: seq<nat>, k: nat)
    requires k < |picks|
    ensures Distinct(picks[..k + 1]) == Distinct(picks[..k]) + {picks[k]}
    ensures |Distinct(picks[..k + 1])| <= |Distinct(picks[..k])| + 1
  {
    assert picks[..k + 1] == picks[..k] + [picks[k]];
  }

  /** From a point where at most `target` indices are held, the loop stops holding at
      most `target`, and exactly `target` unless the picks ran out. */
  lemma {:induction false} PicksUsedStops(target: nat, picks: seq<nat>, k: nat)
    requires k <= |picks| && |Distinct(picks[..k])| <= target
    ensures var r := PicksUsed(target, picks, k);
      |Distinct(picks[..r])| <= target &&
      (|Distinct(picks[..r])| == target || r == |picks|)
    decreases |picks| - k
  {
    if |Distinct(picks[..k])| < target && k < |picks| {
      DistinctSnocSize(picks, k);
      PicksUsedStops(target, picks, k + 1);
    }
  }

  /** When the picks hold enough distinct row indices, the sampled set has exactly the
      target size and holds only row indices. */
  lemma AnomalyIndicesFacts(n: nat, picks: seq<nat>)
    requires forall k :: 0 <= k < |picks| ==> picks[k] < n
    requires AnomalyTarget(n) <= |Distinct(picks)|
    ensures |AnomalyIndices(n, picks)| == AnomalyTarget(n)
    ensures forall i :: i in AnomalyIndices(n, picks) ==> i < n
  {
    var r := PicksUsed(AnomalyTarget(n), picks, 0);
    assert picks[..0] == [];
    PicksUsedStops(AnomalyTarget(n), picks, 0);
    if r == |picks| {
      assert picks[..r] == picks;
    }
    forall i | i in AnomalyIndices(n, picks) ensures i < n {
      var k :| 0 <= k < r && picks[..r][k] == i;
      assert picks[k] == i;
    }
  }

  /** The draws one row consumes: the score, the choice of a numeric column, the two
      coin flips for extra flags, and the four vote perturbations. */
  datatype RowDraws = RowDraws(score: real, column: real, outlier: real, rare: real, votes: seq<real>)

  /** Every draw is a value of `Math.random()`, in `[0, 1)`, and there are four vote draws. */
  predicate ValidDraws(d: RowDraws) {
    0.0 <= d.score < 1.0 && 0.0 <= d.column < 1.0 && 0.0 <= d.outlier < 1.0 && 0.0 <= d.rare < 1.0 &&
    |d.votes| == 4 && forall k :: 0 <= k < 4 ==> 0.0 <= d.votes[k] < 1.0
  }

  /** `Math.max(0, Math.min(1, x))`. */
  function Clamp(x: real): (r: real)
    ensures 0.0 <= r <= 1.0
    ensures 0.0 <= x <= 1.0 ==> r == x
  {
    if x > 1.0 then 1.0 else if x < 0.0 then 0.0 else x
  }

  const VoteModels: seq<string> := ["IsolationForest", "LightGBM", "LOF", "HBOS"]

  /** The four votes, each the score moved by up to 0.1 either way and clamped. */
  function Votes(score: real, draws: seq<real>): (r: seq<ModelVote>)
    requires |draws| == 4
    ensures |r| == 4
    ensures forall k :: 0 <= k < 4 ==> r[k].model == VoteModels[k] && 0.0 <= r[k].score <= 1.0
  {
    seq(4, k requires 0 <= k < 4 => ModelVote(VoteModels[k], Clamp(score + (draws[k] - 0.5) * 0.2)))
  }

  /** The score of a row: `[0.7, 1)` for a drawn anomaly, `[0, 0.4)` otherwise. */
  function Score(isAnomaly: bool, draw: real): real {
    if isAnomaly then draw * 0.3 + 0.7 else draw * 0.4
  }

  datatype Signals = Signals(flags: seq<string>, explanations: seq<Explanation>)

  /** `Math.floor(r * k)` for a draw `r` in `[0, 1)` is an index below `k`. */
  lemma PickInRange(r: real, k: nat)
    requires 0.0 <= r < 1.0 && k > 0
    ensures 0 <= (r * k as real).Floor < k
  {
    assert r * k as real < k as real;
  }

  /** `flags.push(flag); explanations.push(e)`. */
  function Push(s: Signals, flag: string, e: Explanation): Signals {
    Signals(s.flags + [flag], s.explanations + [e])
  }

  /** The flag and explanation naming a randomly chosen numeric column, if there is one. */
  function ColumnSignal(cols: seq<SchemaColumn>, d: RowDraws): Signals
    requires ValidDraws(d)
  {
    var numericCols := Filter(cols, IsNumericColumn);
    if |numericCols| > 0 then
      PickInRange(d.column, |numericCols|);
      var name := numericCols[(d.column * |numericCols| as real).Floor].name;
      Push(Signals([], []), "High z-score in " + name,
        Explanation("Unusual value in " + name,
          "The value for " + name + " was significantly different from the typical distribution."))
    else Signals([], [])
  }

  /** Pushes the pair only when `cond` holds. */
  function PushIf(s: Signals, cond: bool, flag: string, e: Explanation): Signals {
    if cond then Push(s, flag, e) else s
  }

  const OutlierFlag := "Statistical outlier detected"
  const OutlierExplanation := Explanation("Statistical outlier",
    "The data point was identified as a statistical outlier by multiple models.")
  const RareFlag := "Rare pattern combination"
  const RareExplanation := Explanation("Rare feature combination",
    "A rare combination of feature values was observed for this data point.")

  /** The flags and explanations of one row, pushed together. */
  function RowSignals(isAnomaly: bool, cols: seq<SchemaColumn>, d: RowDraws): Signals
    requires ValidDraws(d)
  {
    if !isAnomaly then Signals([], [])
    else
      PushIf(PushIf(ColumnSignal(cols, d), d.outlier > 0.5, OutlierFlag, OutlierExplanation),
        d.rare > 0.7, RareFlag, RareExplanation)
  }

  /** `row[i]`, which is `undefined` past the end of the row. */
  function CellAt(row: seq<string>, i: nat): Option<string> {
    if i < |row| then Some(row[i]) else None
  }

  /** `headers.forEach((h, i) => { raw[h] = row[i]; })`: a later header of the same
      name overwrites an earlier one. */
  function RawRecord(headers: seq<string>, row: seq<string>): (r: map<string, Option<string>>)
    ensures r.Keys == set h | h in headers
  {
    if headers == [] then map[]
    else
      var init := headers[..|headers| - 1];
      assert forall h :: h in headers <==> h in init || h == headers[|headers| - 1];
      RawRecord(init, row)[headers[|headers| - 1] := CellAt(row, |headers| - 1)]
  }

  /** The result for the row at `index`. */
  function ResultFor(index: nat, row: seq<string>, headers: seq<string>, cols: seq<SchemaColumn>,
                     isAnomaly: bool, d: RowDraws): AnomalyResult
    requires ValidDraws(d)
  {
    var score := Score(isAnomaly, d.score);
    var signals := RowSignals(isAnomaly, cols, d);
    AnomalyResult(index, RawRecord(headers, row), score, signals.flags, signals.explanations, Votes(score, d.votes))
  }

  /** The results `generateMockResults` returns for these picks and draws. */
  function MockResults(headers: seq<string>, rows: seq<seq<string>>, cols: seq<SchemaColumn>,
                       picks: seq<nat>, draws: seq<RowDraws>): (r: seq<AnomalyResult>)
    requires |draws| >= Min(100, |rows|) && forall k :: 0 <= k < |draws| ==> ValidDraws(draws[k])
    ensures |r| == Min(100, |rows|)
  {
    var chosen := AnomalyIndices(|rows|, picks);
    seq(Min(100, |rows|), i requires 0 <= i < Min(100, |rows|) =>
      ResultFor(i, rows[i], headers, cols, i in chosen, draws[i]))
  }

  /** `generateMockResults`: the anomaly indices are drawn first, then the first hundred
      rows are scored in order. */
  method GenerateMockResults(headers: seq<string>, rows: seq<seq<string>>, schema: Schema,
                             picks: seq<nat>, draws: seq<RowDraws>)
    returns (results: seq<AnomalyResult>, chosen: set<nat>)
    requires forall k :: 0 <= k < |picks| ==> picks[k] < |rows|
    requires AnomalyTarget(|rows|) <= |Distinct(picks)|
    requires |draws| >= Min(100, |rows|) && forall k :: 0 <= k < |draws| ==> ValidDraws(draws[k])
    ensures |chosen| == AnomalyTarget(|rows|) && forall i :: i in chosen ==> i < |rows|
    ensures |results| == Min(100, |rows|)
    ensures forall i :: 0 <= i < |results| ==>
      results[i] == ResultFor(i, rows[i], headers, schema.columns, i in chosen, draws[i])
    ensures chosen == AnomalyIndices(|rows|, picks)
    ensures results == MockResults(headers, rows, schema.columns, picks, draws)
  {
    var used;
    chosen, used := SampleAnomalyIndices(|rows|, picks);
    var m := Min(100, |rows|);
    results := [];
    for i := 0 to m
      invariant |results| == i
      invariant forall j :: 0 <= j < i ==>
        results[j] == ResultFor(j, rows[j], headers, schema.columns, j in chosen, draws[j])
    {
      results := results + [ResultFor(i, rows[i], headers, schema.columns, i in chosen, draws[i])];
    }
    MockResultsEqual(headers, rows, schema.columns, picks, draws, chosen, results);
  }

  /** A sequence holding the result of every scored row is `MockResults`. */
  lemma MockResultsEqual(headers: seq<string>, rows: seq<seq<string>>, cols: seq<SchemaColumn>,
                         picks: seq<nat>, draws: seq<RowDraws>, chosen: set<nat>, results: seq<AnomalyResult>)
    requires |draws| >= Min(100, |rows|) && forall k :: 0 <= k < |draws| ==> ValidDraws(draws[k])
    requires chosen == AnomalyIndices(|rows|, picks)
    requires |results| == Min(100, |rows|)
    requires forall i :: 0 <= i < |results| ==>
      results[i] == ResultFor(i, rows[i], headers, cols, i in chosen, draws[i])
    ensures results == MockResults(headers, rows, cols, picks, draws)
  {
  }

  /** The title of the explanation pushed together with a flag. */
  predicate Paired(flag: string, e: Explanation) {
    (flag == OutlierFlag && e.title == "Statistical outlier") ||
    (flag == RareFlag && e.title == "Rare feature combination") ||
    (|flag| >= 16 && flag[..16] == "High z-score in " && e.title == "Unusual value in " + flag[16..])
  }

  /** Every flag sits at the same position as its explanation. */
  predicate AllPaired(s: Signals) {
    |s.flags| == |s.explanations| && forall k :: 0 <= k < |s.flags| ==> Paired(s.flags[k], s.explanations[k])
  }

  lemma PushIfPaired(s: Signals, cond: bool, flag: string, e: Explanation)
    requires AllPaired(s) && Paired(flag, e)
    ensures AllPaired(PushIf(s, cond, flag, e)) && |PushIf(s, cond, flag, e).flags| <= |s.flags| + 1
  {
  }

  lemma ColumnSignalPaired(cols: seq<SchemaColumn>, d: RowDraws)
    requires ValidDraws(d)
    ensures AllPaired(ColumnSignal(cols, d)) && |ColumnSignal(cols, d).flags| <= 1
  {
    var numericCols := Filter(cols, IsNumericColumn);
    if |numericCols| > 0 {
      PickInRange(d.column, |numericCols|);
      var name := numericCols[(d.column * |numericCols| as real).Floor].name;
      var flag := "High z-score in " + name;
      assert flag[..16] == "High z-score in " && flag[16..] == name;
      PushIfPaired(Signals([], []), true, flag, Explanation("Unusual value in " + name,
        "The value for " + name + " was significantly different from the typical distribution."));
    }
  }

  /** Flags and explanations come in pairs, at most three, and only for drawn anomalies. */
  lemma SignalsPaired(isAnomaly: bool, cols: seq<SchemaColumn>, d: RowDraws)
    requires ValidDraws(d)
    ensures var s := RowSignals(isAnomaly, cols, d);
      AllPaired(s) && |s.flags| <= 3 && (!isAnomaly ==> s.flags == [] && s.explanations == [])
  {
    if isAnomaly {
      var first := ColumnSignal(cols, d);
      ColumnSignalPaired(cols, d);
      PushIfPaired(first, d.outlier > 0.5, OutlierFlag, OutlierExplanation);
      PushIfPaired(PushIf(first, d.outlier > 0.5, OutlierFlag, OutlierExplanation), d.rare > 0.7, RareFlag, RareExplanation);
    }
  }

  /** Each result keeps its row index, has four clamped votes in the fixed model order,
      and its score lies in `[0.7, 1)` when the row was drawn and in `[0, 0.4)` otherwise. */
  lemma ResultShape(index: nat, row: seq<string>, headers: seq<string>, cols: seq<SchemaColumn>,
                    isAnomaly: bool, d: RowDraws)
    requires ValidDraws(d)
    ensures var r := ResultFor(index, row, headers, cols, isAnomaly, d);
      r.rowIndex == index &&
      |r.modelVotes| == 4 &&
      (forall k :: 0 <= k < 4 ==> r.modelVotes[k].model == VoteModels[k] && 0.0 <= r.modelVotes[k].score <= 1.0) &&
      (isAnomaly ==> 0.7 <= r.anomalyScore < 1.0) &&
      (!isAnomaly ==> 0.0 <= r.anomalyScore < 0.4) &&
      |r.flags| == |r.explanations| <= 3 &&
      (!isAnomaly ==> r.flags == [])
  {
    SignalsPaired(isAnomaly, cols, d);
  }

  /** A result scores above 0.7 exactly when its row was drawn and its score draw is not 0:
      a drawn row with a zero draw scores exactly 0.7 and is not counted as an anomaly. */
  lemma AboveThresholdIff(isAnomaly: bool, draw: real)
    requires 0.0 <= draw < 1.0
    ensures Score(isAnomaly, draw) > 0.7 <==> isAnomaly && draw > 0.0
  {
  }

  /** Each result of the list: its own row index and raw record, a score of at least 0.7
      exactly for a sampled row and above 0.7 exactly for a sampled row with a non-zero
      draw, four votes, and paired flags only on sampled rows. */
  lemma MockResultAt(headers: seq<string>, rows: seq<seq<string>>, cols: seq<SchemaColumn>,
                     picks: seq<nat>, draws: seq<RowDraws>, i: nat)
    requires |draws| >= Min(100, |rows|) && forall k :: 0 <= k < |draws| ==> ValidDraws(draws[k])
    requires i < Min(100, |rows|)
    ensures var r := MockResults(headers, rows, cols, picks, draws)[i];
      var drawn := i in AnomalyIndices(|rows|, picks);
      r.rowIndex == i && r.raw == RawRecord(headers, rows[i]) &&
      (r.anomalyScore >= 0.7 <==> drawn) &&
      (r.anomalyScore > 0.7 <==> drawn && draws[i].score > 0.0) &&
      |r.modelVotes| == 4 &&
      |r.flags| == |r.explanations| <= 3 && (!drawn ==> r.flags == [])
  {
    var drawn := i in AnomalyIndices(|rows|, picks);
    ResultShape(i, rows[i], headers, cols, drawn, draws[i]);
    AboveThresholdIff(drawn, draws[i].score);
  }

  /** For a header that no later header repeats, the raw record holds that row's cell. */
  lemma {:induction false} RawRecordCell(headers: seq<string>, row: seq<string>, j: nat)
    requires j < |headers|
    requires forall k :: j < k < |headers| ==> headers[k] != headers[j]
    ensures RawRecord(headers, row)[headers[j]] == CellAt(row, j)
  {
    if j < |headers| - 1 {
      RawRecordCell(headers[..|headers| - 1], row, j);
    }
  }
}
