/**
 * The anomaly results table: the results sorted by score on a copy, the
 * twenty highest shown, and for each row its status badge, up to two
 * explanation titles, up to three model-vote badges and whether the row can
 * be expanded to show every explanation.
 */
module AnomalyTable {
  import opened Wrappers
  import opened Seqs
  import opened Strings
  import opened Anomaly
  import opened MockScoring

  /** How many rows the table shows. */
  const DisplayLimit: nat := 20

  /** Scores above this are shown as anomalies, for rows and for votes alike. */
  const AnomalyThreshold: real := 0.7

  /** The sort key of `(a, b) => b.anomalyScore - a.anomalyScore`: higher scores first. */
  function ByScoreDescending(r: AnomalyResult): real {
    -r.anomalyScore
  }

  /** `[...results].sort(...).slice(0, 20)`. */
  function DisplayResults(results: seq<AnomalyResult>): (r: seq<AnomalyResult>)
    ensures |r| == Min(20, |results|)
    ensures forall i :: 0 <= i < |r| ==> r[i] in results
  {
    TopByKey(results, ByScoreDescending, DisplayLimit);
    Take(SortBy(results, ByScoreDescending), DisplayLimit)
  }

  /** The table shows the twenty highest-scoring results (all of them when there are
      at most twenty), highest first, and no result left out scores above one shown. */
  lemma DisplayResultsShape(results: seq<AnomalyResult>)
    ensures var shown := DisplayResults(results);
      |shown| == Min(20, |results|) &&
      multiset(shown) <= multiset(results) &&
      (|results| <= 20 ==> multiset(shown) == multiset(results)) &&
      (forall i, j :: 0 <= i < j < |shown| ==> shown[i].anomalyScore >= shown[j].anomalyScore) &&
      (forall r, i :: r in results && r !in shown && 0 <= i < |shown| ==>
        shown[i].anomalyScore >= r.anomalyScore)
  {
    TopByKey(results, ByScoreDescending, DisplayLimit);
    DisplayOrder(results, DisplayResults(results));
  }

  function ScoreIs(v: real): AnomalyResult -> bool {
    (r: AnomalyResult) => r.anomalyScore == v
  }

  /** Ties keep the results' order: the rows shown with score `v` are the first results
      with that score, in result order. */
  lemma DisplayResultsTies(results: seq<AnomalyResult>, v: real)
    ensures Filter(DisplayResults(results), ScoreIs(v)) <= Filter(results, ScoreIs(v))
  {
    TopStableBy(results, ByScoreDescending, DisplayLimit, -v, ScoreIs(v));
  }

  /** Ascending by the negated score is descending by the score. */
  lemma DisplayOrder(results: seq<AnomalyResult>, shown: seq<AnomalyResult>)
    requires forall i, j :: 0 <= i < j < |shown| ==> ByScoreDescending(shown[i]) <= ByScoreDescending(shown[j])
    requires forall r, i :: r in results && r !in shown && 0 <= i < |shown| ==>
      ByScoreDescending(shown[i]) <= ByScoreDescending(r)
    ensures forall i, j :: 0 <= i < j < |shown| ==> shown[i].anomalyScore >= shown[j].anomalyScore
    ensures forall r, i :: r in results && r !in shown && 0 <= i < |shown| ==>
      shown[i].anomalyScore >= r.anomalyScore
  {
    forall i, j | 0 <= i < j < |shown|
      ensures shown[i].anomalyScore >= shown[j].anomalyScore
    {
      assert ByScoreDescending(shown[i]) <= ByScoreDescending(shown[j]);
    }
    forall r, i | r in results && r !in shown && 0 <= i < |shown|
      ensures shown[i].anomalyScore >= r.anomalyScore
    {
      assert ByScoreDescending(shown[i]) <= ByScoreDescending(r);
    }
  }

  /** One model-vote badge: its label, its hover title, and whether it is highlighted. */
  datatype VoteBadge = VoteBadge(caption: string, title: string, highlighted: bool)

  /** `vote.model.slice(0, 3).toUpperCase()`: the name's first three characters, upper-cased. */
  function VoteLabel(model: string): (caption: string)
    ensures |caption| == Min(3, |model|)
    ensures forall i :: 0 <= i < |caption| ==> caption[i] == ToUpperChar(model[i])
  {
    ToUpper(Take(model, 3))
  }

  function BadgeOf(vote: ModelVote): VoteBadge {
    VoteBadge(VoteLabel(vote.model), vote.model, vote.score > AnomalyThreshold)
  }

  /** What one row renders; `titles` is `None` where the row shows a dash instead. */
  datatype RowView = RowView(
    rowIndex: nat,
    isAnomaly: bool,
    titles: Option<seq<string>>,
    badges: seq<VoteBadge>,
    expandable: bool,
    details: seq<Explanation>)

  function Titles(explanations: seq<Explanation>): seq<string> {
    seq(|explanations|, i requires 0 <= i < |explanations| => explanations[i].title)
  }

  function Badges(votes: seq<ModelVote>): seq<VoteBadge> {
    seq(|votes|, i requires 0 <= i < |votes| => BadgeOf(votes[i]))
  }

  /** `AnomalyRow`: a row is flagged exactly when its score exceeds 0.7; it lists the
      titles of its first two explanations, or a dash when it has none; it shows a badge
      for each of its first three votes, highlighted exactly when the vote exceeds 0.7;
      and it can be expanded exactly when it has an explanation, to show all of them. */
  function RowOf(result: AnomalyResult): (row: RowView)
    ensures var exps := result.explanations;
      var votes := result.modelVotes;
      row.rowIndex == result.rowIndex &&
      (row.isAnomaly <==> result.anomalyScore > 0.7) &&
      (row.titles.None? <==> exps == []) &&
      (row.titles.Some? ==>
        |row.titles.value| == Min(2, |exps|) &&
        (forall i :: 0 <= i < |row.titles.value| ==> row.titles.value[i] == exps[i].title)) &&
      |row.badges| == Min(3, |votes|) &&
      (forall i :: 0 <= i < |row.badges| ==>
        row.badges[i].title == votes[i].model &&
        (row.badges[i].highlighted <==> votes[i].score > 0.7)) &&
      (row.expandable <==> exps != []) &&
      row.details == exps
  {
    var exps := result.explanations;
    RowView(
      result.rowIndex,
      result.anomalyScore > AnomalyThreshold,
      if |exps| > 0 then Some(Titles(Take(exps, 2))) else None,
      Badges(Take(result.modelVotes, 3)),
      |exps| > 0,
      exps)
  }

  /** The rows of the table, in display order. */
  function Rows(results: seq<AnomalyResult>): (r: seq<RowView>)
    ensures |r| == Min(20, |results|)
    ensures forall i :: 0 <= i < |r| ==>
      exists k :: 0 <= k < |results| && r[i].rowIndex == results[k].rowIndex &&
        (r[i].isAnomaly <==> results[k].anomalyScore > AnomalyThreshold)
  {
    var shown := DisplayResults(results);
    seq(|shown|, i requires 0 <= i < |shown| => RowOf(shown[i]))
  }

  /** The four voting models get four different labels. */
  lemma VoteModelLabelsDistinct()
    ensures forall i, j :: 0 <= i < j < |VoteModels| ==> VoteLabel(VoteModels[i]) != VoteLabel(VoteModels[j])
  {
    assert VoteLabel(VoteModels[0])[..2] == "IS";
    assert VoteLabel(VoteModels[1])[..2] == "LI";
    assert VoteLabel(VoteModels[2])[..2] == "LO";
    assert VoteLabel(VoteModels[3])[..2] == "HB";
  }

  /** The rows are the displayed results, in order, and the rows flagged as anomalies
      come first: every row above a flagged row is flagged too. */
  lemma RowsFollowResults(results: seq<AnomalyResult>)
    ensures var rows := Rows(results);
      var shown := DisplayResults(results);
      |rows| == Min(20, |results|) &&
      (forall i :: 0 <= i < |rows| ==> rows[i] == RowOf(shown[i])) &&
      (forall i, j :: 0 <= i < j < |rows| && rows[j].isAnomaly ==> rows[i].isAnomaly)
  {
    DisplayResultsShape(results);
    var shown := DisplayResults(results);
    forall i, j | 0 <= i < j < |shown| && shown[j].anomalyScore > 0.7
      ensures shown[i].anomalyScore > 0.7
    {
      assert shown[i].anomalyScore >= shown[j].anomalyScore;
    }
  }
}
