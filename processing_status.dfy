/**
 * The processing status panel: the six pipeline stages, each marked done,
 * active or pending relative to the current stage, with its icon, and the
 * progress bar's width.
 */
module ProcessingStatus {
  import opened Wrappers
  import opened Seqs
  import opened Anomaly

  /** The stages the panel lists, in pipeline order. */
  const StageKeys: seq<ProcessingStage> := [Uploading, Parsing, Inferring, Preprocessing, Training, Evaluating]

  const StageLabels: seq<string> :=
    ["Uploading file", "Parsing CSV", "Inferring schema", "Preprocessing data", "Training models", "Evaluating results"]

  predicate InPipeline(stage: ProcessingStage) {
    !(stage.Idle? || stage.Complete? || stage.Error?)
  }

  function IsKey(stage: ProcessingStage): ProcessingStage -> bool {
    (k: ProcessingStage) => k == stage
  }

  /** `getStageIndex`: the stage's position in the list, or -1 for idle, complete and
      error, which are not listed. */
  function StageIndex(stage: ProcessingStage): (r: int)
    ensures -1 <= r < 6
    ensures r == -1 <==> !InPipeline(stage)
    ensures r >= 0 ==> StageKeys[r] == stage
  {
    FindIndex(StageKeys, IsKey(stage))
  }

  datatype Icon = Check | Spinner | Alert | Ring

  /** How one listed stage is drawn. */
  datatype StageRow = StageRow(caption: string, active: bool, done: bool, pending: bool, icon: Icon)

  /** The row of the stage at `index`, for the current stage. No row is both done and
      pending; a row is active exactly at the current stage of a running pipeline and is
      then neither done nor pending; outside the error state every row is done, active or
      pending; the check mark marks exactly the done rows and the spinner exactly the
      active one. When complete every row is done; on error the current index is -1, so
      every row is pending and the error icon is never drawn. */
  function RowAt(stage: ProcessingStage, index: nat): (row: StageRow)
    requires index < 6
    ensures !(row.done && row.pending)
    ensures row.active <==> InPipeline(stage) && index == StageIndex(stage)
    ensures row.active ==> !row.done && !row.pending
    ensures stage != Error ==> row.done || row.active || row.pending
    ensures row.icon == Check <==> row.done
    ensures row.icon == Spinner <==> row.active
    ensures stage == Complete ==> row.done && !row.active && !row.pending
    ensures stage == Error ==> row.pending && !row.done && !row.active && row.icon == Ring
  {
    var current := StageIndex(stage);
    var complete := stage == Complete;
    var error := stage == Error;
    var active := index == current && !complete && !error;
    var done := complete || index < current;
    var pending := index > current && !complete;
    var icon :=
      if done then Check
      else if active then Spinner
      else if error && index == current then Alert
      else Ring;
    StageRow(StageLabels[index], active, done, pending, icon)
  }

  /** The bar's width in percent: full when complete, otherwise the share of stages up to
      and including the current one, so empty on error. */
  function Width(stage: ProcessingStage): (r: real)
    ensures 0.0 <= r <= 100.0
    ensures stage == Complete ==> r == 100.0
    ensures stage == Error ==> r == 0.0
  {
    if stage == Complete then 100.0 else (StageIndex(stage) + 1) as real / 6.0 * 100.0
  }

  /** What the panel renders: nothing while idle. */
  datatype Panel = Panel(completeBadge: bool, errorBadge: bool, rows: seq<StageRow>, width: real)

  function PanelOf(stage: ProcessingStage): (r: Option<Panel>)
    ensures r.None? <==> stage == Idle
    ensures r.Some? ==> |r.value.rows| == 6 && forall i :: 0 <= i < 6 ==> r.value.rows[i] == RowAt(stage, i)
  {
    if stage == Idle then None
    else Some(Panel(stage == Complete, stage == Error, seq(6, i requires 0 <= i < 6 => RowAt(stage, i)), Width(stage)))
  }

  /** The width grows along the pipeline: each listed stage fills one more sixth, and the
      complete state fills the bar. */
  lemma WidthMonotone(i: nat, j: nat)
    requires i <= j < 6
    ensures Width(StageKeys[i]) == (i + 1) as real / 6.0 * 100.0
    ensures Width(StageKeys[i]) <= Width(StageKeys[j]) <= Width(Complete)
  {
    KeyIndex(i);
    KeyIndex(j);
  }

  /** Each listed stage sits at its own position. */
  lemma KeyIndex(i: nat)
    requires i < 6
    ensures StageIndex(StageKeys[i]) == i
  {
  }
}
