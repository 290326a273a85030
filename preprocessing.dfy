/**
 * The preprocessing plan (`generatePreprocessingSteps`): for each column in
 * schema order, numeric columns are normalized and, when they have nulls,
 * imputed; categorical columns are frequency-encoded; date columns have
 * their calendar features extracted; other columns get no step.
 */
module Preprocessing {
  import opened Strings
  import opened Seqs
  import opened Anomaly

  const NormalizeDetails := "Applied RobustScaler normalization"
  const ExtractDetails := "Extracted: timestamp, hour, weekday, month features"

  function ImputeDetails(nullCount: nat): string {
    "Median imputation for " + NatToString(nullCount) + " missing values"
  }

  function EncodeDetails(uniqueCount: nat): string {
    "Frequency encoding (" + NatToString(uniqueCount) + " categories)"
  }

  /** The steps planned for one column, in the order they are pushed: at most two, each
      naming that column and an action it needs. */
  function StepsFor(col: SchemaColumn): (r: seq<PreprocessingStep>)
    ensures |r| <= 2
    ensures forall k :: 0 <= k < |r| ==> r[k].column == col.name && Needs(r[k].action, col)
  {
    match col.columnType
    case Numeric =>
      [PreprocessingStep(col.name, Normalize, NormalizeDetails)]
      + (if col.nullCount > 0 then [PreprocessingStep(col.name, Impute, ImputeDetails(col.nullCount))] else [])
    case Categorical => [PreprocessingStep(col.name, Encode, EncodeDetails(col.uniqueCount))]
    case Datetime => [PreprocessingStep(col.name, Extract, ExtractDetails)]
    case _ => []
  }

  /** The plan for a list of columns: the plan for all but the last, then the last one's steps. */
  function Plan(cols: seq<SchemaColumn>): (r: seq<PreprocessingStep>)
    ensures |r| <= 2 * |cols|
  {
    if cols == [] then [] else Plan(cols[..|cols| - 1]) + StepsFor(cols[|cols| - 1])
  }

  /** The plan of one more column. */
  lemma PlanSnoc(cols: seq<SchemaColumn>, i: nat)
    requires i < |cols|
    ensures Plan(cols[..i + 1]) == Plan(cols[..i]) + StepsFor(cols[i])
  {
    assert cols[..i + 1][..i] == cols[..i];
  }

  /** `generatePreprocessingSteps`: pushes each column's steps in schema order. */
  method GeneratePreprocessingSteps(schema: Schema) returns (steps: seq<PreprocessingStep>)
    ensures steps == Plan(schema.columns)
  {
    steps := [];
    for i := 0 to |schema.columns|
      invariant steps == Plan(schema.columns[..i])
    {
      var col := schema.columns[i];
      PlanSnoc(schema.columns, i);
      if col.columnType == Numeric {
        steps := steps + [PreprocessingStep(col.name, Normalize, NormalizeDetails)];
        if col.nullCount > 0 {
          steps := steps + [PreprocessingStep(col.name, Impute, ImputeDetails(col.nullCount))];
        }
      } else if col.columnType == Categorical {
        steps := steps + [PreprocessingStep(col.name, Encode, EncodeDetails(col.uniqueCount))];
      } else if col.columnType == Datetime {
        steps := steps + [PreprocessingStep(col.name, Extract, ExtractDetails)];
      }
    }
    assert schema.columns[..|schema.columns|] == schema.columns;
  }

  /** Which columns call for a step with action `a`. */
  predicate Needs(a: Action, col: SchemaColumn) {
    match a
    case Normalize => col.columnType == Numeric
    case Impute => col.columnType == Numeric && col.nullCount > 0
    case Encode => col.columnType == Categorical
    case Extract => col.columnType == Datetime
  }

  function WithAction(a: Action): PreprocessingStep -> bool {
    (s: PreprocessingStep) => s.action == a
  }

  function Needing(a: Action): SchemaColumn -> bool {
    (col: SchemaColumn) => Needs(a, col)
  }

  /** Counting one or two steps. */
  lemma CountSteps(x: PreprocessingStep, y: PreprocessingStep, a: Action)
    ensures Count([x], WithAction(a)) == (if x.action == a then 1 else 0)
    ensures Count([x, y], WithAction(a)) == (if x.action == a then 1 else 0) + (if y.action == a then 1 else 0)
  {
    assert [] + [x] == [x];
    assert [x] + [y] == [x, y];
    CountSnoc([], x, WithAction(a));
    CountSnoc([x], y, WithAction(a));
  }

  /** A column gets a step with a given action exactly when it needs one, and then exactly one. */
  lemma StepsForActionCount(col: SchemaColumn, a: Action)
    ensures Count(StepsFor(col), WithAction(a)) == if Needs(a, col) then 1 else 0
  {
    var normalize := PreprocessingStep(col.name, Normalize, NormalizeDetails);
    var impute := PreprocessingStep(col.name, Impute, ImputeDetails(col.nullCount));
    var encode := PreprocessingStep(col.name, Encode, EncodeDetails(col.uniqueCount));
    var extract := PreprocessingStep(col.name, Extract, ExtractDetails);
    match col.columnType
    case Numeric =>
      CountSteps(normalize, impute, a);
      if col.nullCount > 0 {
        assert StepsFor(col) == [normalize, impute];
      } else {
        assert StepsFor(col) == [normalize];
      }
    case Categorical =>
      CountSteps(encode, encode, a);
    case Datetime =>
      CountSteps(extract, extract, a);
    case _ =>
      assert StepsFor(col) == [];
  }

  /** The plan holds one step of each action per column that needs it: one normalize per
      numeric column, one impute per numeric column with nulls, one encode per
      categorical column and one extract per date column. */
  lemma {:induction false} PlanActionCount(cols: seq<SchemaColumn>, a: Action)
    ensures Count(Plan(cols), WithAction(a)) == Count(cols, Needing(a))
  {
    if cols != [] {
      var init := cols[..|cols| - 1];
      var last := cols[|cols| - 1];
      calc {
        Count(Plan(cols), WithAction(a));
        Count(Plan(init) + StepsFor(last), WithAction(a));
        { FilterAppend(Plan(init), StepsFor(last), WithAction(a)); }
        Count(Plan(init), WithAction(a)) + Count(StepsFor(last), WithAction(a));
        { PlanActionCount(init, a); StepsForActionCount(last, a); }
        Count(init, Needing(a)) + (if Needing(a)(last) then 1 else 0);
        { CountSnoc(init, last, Needing(a)); }
        Count(init + [last], Needing(a));
        { assert cols == init + [last]; }
        Count(cols, Needing(a));
      }
    }
  }

  /** A step is justified by the column at `i` when it names that column and the column needs its action. */
  predicate JustifiedBy(cols: seq<SchemaColumn>, i: int, step: PreprocessingStep)
  {
    0 <= i < |cols| && cols[i].name == step.column && Needs(step.action, cols[i])
  }

  /** Some column justifies the step. */
  predicate Justified(cols: seq<SchemaColumn>, step: PreprocessingStep)
  {
    exists i :: 0 <= i < |cols| && JustifiedBy(cols, i, step)
  }

  /** Every planned step names a column that needs its action. */
  lemma {:induction false} PlanStepsJustified(cols: seq<SchemaColumn>)
    ensures forall k :: 0 <= k < |Plan(cols)| ==> Justified(cols, Plan(cols)[k])
  {
    if cols != [] {
      var init := cols[..|cols| - 1];
      var last := cols[|cols| - 1];
      PlanStepsJustified(init);
      var p := Plan(cols);
      assert p == Plan(init) + StepsFor(last);
      forall k | 0 <= k < |p|
        ensures Justified(cols, p[k])
      {
        if k < |Plan(init)| {
          var i :| 0 <= i < |init| && JustifiedBy(init, i, Plan(init)[k]);
          assert cols[i] == init[i] && p[k] == Plan(init)[k];
          assert JustifiedBy(cols, i, p[k]);
        } else {
          assert p[k] == StepsFor(last)[k - |Plan(init)|];
          assert JustifiedBy(cols, |cols| - 1, p[k]);
        }
      }
    }
  }

  /** Without date columns the plan has no extraction step. */
  lemma NoDatesNoExtraction(cols: seq<SchemaColumn>)
    requires forall i :: 0 <= i < |cols| ==> cols[i].columnType != Datetime
    ensures Count(Plan(cols), WithAction(Extract)) == 0
  {
    NoDateNeedsExtraction(cols);
    PlanActionCount(cols, Extract);
  }

  lemma NoDateNeedsExtraction(cols: seq<SchemaColumn>)
    requires forall i :: 0 <= i < |cols| ==> cols[i].columnType != Datetime
    ensures Count(cols, Needing(Extract)) == 0
  {
    FilterNone(cols, Needing(Extract));
  }

  /** A column that is neither numeric, categorical nor a date adds no step. */
  lemma OtherTypesPlanNothing(col: SchemaColumn)
    requires col.columnType !in {Numeric, Categorical, Datetime}
    ensures StepsFor(col) == []
  {
  }
}
