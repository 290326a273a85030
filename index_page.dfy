/**
 * The analysis page's state: the current processing stage and the last
 * analysis result. Selecting a file walks the stage through the six pipeline
 * stages, runs the analysis and completes; a failure moves it to the error
 * stage; resetting returns it to idle. The delays between stages are not
 * modelled, only the order in which stages are set.
 */
module IndexPage {
  import opened Wrappers
  import opened Strings
  import opened Seqs
  import opened Anomaly
  import opened Analysis
  import ProcessingStatus

  class Page {
    var stage: ProcessingStage
    var result: Option<AnalysisResult>
    /** Every stage set so far, in order. */
    ghost var history: seq<ProcessingStage>

    /** A stage of complete always has a result to show. */
    predicate Valid()
      reads this
    {
      stage == Complete ==> result.Some?
    }

    constructor()
      ensures stage == Idle && result == None && history == []
      ensures Valid()
    {
      stage := Idle;
      result := None;
      history := [];
    }

    /** `isProcessing`: the stage is one of the six listed pipeline stages, i.e. it has
        an index in the status panel. */
    function IsProcessing(): (r: bool)
      reads this
      ensures r <==> ProcessingStatus.StageIndex(stage) >= 0
    {
      stage != Idle && stage != Complete && stage != Error
    }

    /** `showResults`: the analysis is complete and a result is held; in a valid page
        completion alone decides it, and results are never shown while processing. */
    function ShowResults(): (r: bool)
      reads this
      ensures r ==> !IsProcessing()
      ensures Valid() ==> (r <==> stage == Complete)
    {
      stage == Complete && result.Some?
    }

    /** Sets one stage. */
    method SetStage(s: ProcessingStage)
      modifies this
      ensures stage == s && result == old(result)
      ensures history == old(history) + [s]
    {
      stage := s;
      history := history + [s];
    }

    /** The loop over the six pipeline stages; the result is left as it was. */
    method RunStages()
      modifies this
      ensures stage == Evaluating && result == old(result)
      ensures history == old(history) + ProcessingStatus.StageKeys
    {
      var stages := ProcessingStatus.StageKeys;
      for i := 0 to |stages|
        invariant history == old(history) + stages[..i]
        invariant result == old(result)
        invariant i > 0 ==> stage == stages[i - 1]
      {
        assert stages[..i + 1] == stages[..i] + [stages[i]];
        SetStage(stages[i]);
      }
      assert stages[..|stages|] == stages;
    }

    /** `simulateProcessing`: uploading, parsing, inferring, preprocessing, training and
        evaluating in that order, then the analysis result is stored and the stage set to
        complete. */
    method SimulateProcessing(content: string, oracle: Oracle)
      requires OracleFits(content, oracle)
      modifies this
      ensures history == old(history) + ProcessingStatus.StageKeys + [Complete]
      ensures stage == Complete && result.Some?
      ensures result.value.summary.rows == Occurrences(Trim(content), '\n')
      ensures |result.value.results| == Min(100, result.value.summary.rows)
      ensures result == Some(Analyze(content, oracle))
      ensures Valid() && ShowResults()
    {
      RunStages();
      CompleteAnalysis(content, oracle);
    }

    /** The last step of `simulateProcessing`: the analysis result is stored, then the
        stage is set to complete. */
    method CompleteAnalysis(content: string, oracle: Oracle)
      requires OracleFits(content, oracle)
      modifies this
      ensures history == old(history) + [Complete]
      ensures stage == Complete && result == Some(Analyze(content, oracle))
    {
      StoreAnalysis(content, oracle);
      SetStage(Complete);
    }

    /** `setResult(analyzeCSV(content))`: only the result changes. */
    method StoreAnalysis(content: string, oracle: Oracle)
      requires OracleFits(content, oracle)
      modifies this`result
      ensures result == Some(Analyze(content, oracle))
    {
      var analysis := AnalyzeCsv(content, oracle);
      result := Some(analysis);
    }

    /** `handleFileSelect`: `content` is the file's text, or `None` when reading it
        fails, in which case the stage moves straight to error and the result is kept. */
    method HandleFileSelect(content: Option<string>, oracle: Oracle)
      requires content.Some? ==> OracleFits(content.value, oracle)
      requires Valid()
      modifies this
      ensures Valid()
      ensures content.None? ==> stage == Error && result == old(result) && history == old(history) + [Error]
      ensures content.Some? ==> stage == Complete && ShowResults()
      ensures content.Some? ==> history == old(history) + ProcessingStatus.StageKeys + [Complete]
      ensures content.Some? ==> result == Some(Analyze(content.value, oracle))
    {
      match content
      case None =>
        SetStage(Error);
      case Some(text) =>
        SimulateProcessing(text, oracle);
    }

    /** `handleReset`: back to idle with no result. */
    method HandleReset()
      modifies this
      ensures stage == Idle && result == None
      ensures history == old(history) + [Idle]
      ensures Valid() && !ShowResults() && !IsProcessing()
    {
      SetStage(Idle);
      result := None;
    }
  }
}
