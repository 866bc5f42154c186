/** The workflow's node functions. Each reads the run record and returns a
    `Command`: where to go next and which record keys to overwrite. The calls
    into other components that are not modelled here (the metadata fetch, the
    PDF-to-Markdown conversion) are the `Adapters` given to every node. */
module WorkflowNodes {
  import opened Py
  import opened WorkflowState
  import PaperRelevanceChecker

  /** The six named stages of the graph, with their position along the pipeline. */
  datatype StageId =
    | ExtractPaperInformation
    | FilterPaperRelevance
    | ExtractPaperContent
    | EmbedPaper
    | AnalyzePaper
    | PublishResults
  {
    function Rank(): nat {
      match this
      case ExtractPaperInformation => 0
      case FilterPaperRelevance => 1
      case ExtractPaperContent => 2
      case EmbedPaper => 3
      case AnalyzePaper => 4
      case PublishResults => 5
    }
  }

  /** `Command.goto`: a stage or the graph's `END`. */
  datatype Goto = End | GotoStage(stage: StageId)

  datatype Command = Command(goto: Goto, update: Update)

  /** The results of the external calls the nodes make:
      `PaperMetadataExtractor(paper_id).extract_metadata()` and
      `PaperContentExtractor(source).extract_content()`. */
  datatype Adapters = Adapters(
    fetchMetadata: string -> Result<Option<map<string, Value>>>,
    extractContent: Value -> Result<string>)

  /** A command never sends the run backwards. */
  predicate MovesForward(from: StageId, c: Command) {
    c.goto.GotoStage? ==> c.goto.stage.Rank() > from.Rank()
  }

  /** Only a command that ends the run writes a final status. */
  predicate FinalStatusEnds(c: Command) {
    c.update.status == Some(Failed) || c.update.status == Some(Completed) ==> c.goto == End
  }

  const NoPaperIdError: string := "No paper ID provided."
  const MissingMetadataError: string := "Missing metadata or required keywords for relevance check."
  const MissingUrlMessage: string := "Error: arxiv url is missing or None."

  const MetadataFailedPrefix: string := "Metadata extraction failed for paper "

  /** The failure message names the paper: the id can be read back from it. */
  function MetadataFailedError(paperId: string): (r: string)
    ensures |r| == |MetadataFailedPrefix| + |paperId| + 1
    ensures r[..|MetadataFailedPrefix|] == MetadataFailedPrefix && r[|r| - 1] == '.'
    ensures r[|MetadataFailedPrefix|..|r| - 1] == paperId
  {
    MetadataFailedPrefix + paperId + "."
  }

  /** `extract_paper_information_node`. */
  function ExtractPaperInformationNode(s: State, adapters: Adapters): (r: Result<Command>)
    ensures s.paperId == "" ==> r == Ok(Command(End, Update(None, None, None, Some(NoPaperIdError))))
    ensures s.paperId != "" && adapters.fetchMetadata(s.paperId) == Ok(None) ==>
      r == Ok(Command(End, Update(Some(Failed), None, None, Some(MetadataFailedError(s.paperId)))))
    ensures s.paperId != "" && adapters.fetchMetadata(s.paperId).Ok? && adapters.fetchMetadata(s.paperId).value.Some? ==>
      r == Ok(Command(GotoStage(FilterPaperRelevance), Update(Some(Running), adapters.fetchMetadata(s.paperId).value, None, None)))
    ensures s.paperId != "" && adapters.fetchMetadata(s.paperId).Raise? ==> r == Raise(adapters.fetchMetadata(s.paperId).exc)
    ensures r.Ok? ==> MovesForward(ExtractPaperInformation, r.value) && FinalStatusEnds(r.value)
  {
    if s.paperId == "" then Ok(Command(End, Update(None, None, None, Some(NoPaperIdError))))
    else
      var metadata :- adapters.fetchMetadata(s.paperId);
      if metadata.None? then
        Ok(Command(End, Update(Some(Failed), None, None, Some(MetadataFailedError(s.paperId)))))
      else
        Ok(Command(GotoStage(FilterPaperRelevance), Update(Some(Running), metadata, None, None)))
  }

  /** `filter_paper_relevance_node` as written: line 104 passes the state to
      `check_relevance`, which takes no argument, so the call raises TypeError. */
  function FilterPaperRelevanceNodeAsWritten(s: State): (r: Result<Command>)
    ensures (s.metadata.None? || s.metadata.value == map[]) ==>
      r == Ok(Command(End, Update(Some(Failed), None, None, Some(MissingMetadataError))))
    ensures s.metadata.Some? && s.metadata.value != map[] && s.requiredKeywords == [] ==>
      r == Ok(Command(GotoStage(ExtractPaperContent), StatusUpdate(Running)))
    ensures s.metadata.Some? && s.metadata.value != map[] && s.requiredKeywords != [] ==> r == Raise(TypeError)
  {
    if s.metadata.None? || s.metadata.value == map[] then
      Ok(Command(End, Update(Some(Failed), None, None, Some(MissingMetadataError))))
    else if s.requiredKeywords == [] then
      Ok(Command(GotoStage(ExtractPaperContent), StatusUpdate(Running)))
    else
      Raise(TypeError)
  }

  /** `filter_paper_relevance_node` with the zero-argument `check_relevance()` the
      checker defines: relevant continues to content extraction, irrelevant ends
      the run as completed. */
  function FilterPaperRelevanceNode(s: State): (r: Result<Command>)
    ensures (s.metadata.None? || s.metadata.value == map[]) ==>
      r == Ok(Command(End, Update(Some(Failed), None, None, Some(MissingMetadataError))))
    ensures s.metadata.Some? && s.metadata.value != map[] && s.requiredKeywords == [] ==>
      r == Ok(Command(GotoStage(ExtractPaperContent), StatusUpdate(Running)))
    ensures s.metadata.Some? && s.metadata.value != map[] && s.requiredKeywords != [] ==>
      var decision := PaperRelevanceChecker.CheckRelevance(
        PaperRelevanceChecker.NewChecker(s.metadata, s.requiredKeywords, PaperRelevanceChecker.DefaultMinMatchThreshold));
      (decision == Ok(true) ==> r == Ok(Command(GotoStage(ExtractPaperContent), StatusUpdate(Running)))) &&
      (decision == Ok(false) ==> r == Ok(Command(End, StatusUpdate(Completed)))) &&
      (decision.Raise? ==> r == Raise(decision.exc))
    ensures r.Ok? ==> MovesForward(FilterPaperRelevance, r.value) && FinalStatusEnds(r.value)
  {
    if s.metadata.None? || s.metadata.value == map[] then
      Ok(Command(End, Update(Some(Failed), None, None, Some(MissingMetadataError))))
    else if s.requiredKeywords == [] then
      Ok(Command(GotoStage(ExtractPaperContent), StatusUpdate(Running)))
    else
      var checker := PaperRelevanceChecker.NewChecker(
        s.metadata, s.requiredKeywords, PaperRelevanceChecker.DefaultMinMatchThreshold);
      var isRelevant :- PaperRelevanceChecker.CheckRelevance(checker);
      if isRelevant then Ok(Command(GotoStage(ExtractPaperContent), StatusUpdate(Running)))
      else Ok(Command(End, StatusUpdate(Completed)))
  }

  /** `extract_paper_content_node`. The record always holds the `metadata` key, so a
      None there fails on `.get`; a falsy `arxiv_pdf_url` raises ValueError. */
  function ExtractPaperContentNode(s: State, adapters: Adapters): (r: Result<Command>)
    ensures s.metadata.None? ==> r == Raise(AttributeError)
    ensures s.metadata.Some? && !Truthy(Get(s.metadata.value, "arxiv_pdf_url", Null)) ==>
      r == Raise(ValueError(MissingUrlMessage))
    ensures s.metadata.Some? && Truthy(Get(s.metadata.value, "arxiv_pdf_url", Null)) ==>
      var content := adapters.extractContent(Get(s.metadata.value, "arxiv_pdf_url", Null));
      (content.Ok? ==> r == Ok(Command(GotoStage(AnalyzePaper), Update(None, None, Some(content.value), None)))) &&
      (content.Raise? ==> r == Raise(content.exc))
    ensures r.Ok? ==> MovesForward(ExtractPaperContent, r.value) && r.value.update.status.None?
  {
    if s.metadata.None? then Raise(AttributeError)
    else
      var source := Get(s.metadata.value, "arxiv_pdf_url", Null);
      if !Truthy(source) then Raise(ValueError(MissingUrlMessage))
      else
        var content :- adapters.extractContent(source);
        Ok(Command(GotoStage(AnalyzePaper), Update(None, None, Some(content), None)))
  }

  /** `analyze_paper_node`: a stub that hands over to publishing and changes nothing. */
  function AnalyzePaperNode(s: State): (r: Result<Command>)
    ensures r.Ok? && r.value.goto == GotoStage(PublishResults) && r.value.update == NoUpdate
    ensures MovesForward(AnalyzePaper, r.value)
  {
    Ok(Command(GotoStage(PublishResults), NoUpdate))
  }

  /** `publish_results_node`: a stub that ends the run as completed. */
  function PublishResultsNode(s: State): (r: Result<Command>)
    ensures r.Ok? && r.value.goto == End && r.value.update == StatusUpdate(Completed)
  {
    Ok(Command(End, StatusUpdate(Completed)))
  }

  /** Irrelevance ends a run as completed, never as failed: a failure status in
      the filter stage comes only from missing or empty metadata. */
  lemma IrrelevantIsCompletedNotFailed(s: State)
    requires FilterPaperRelevanceNode(s).Ok?
    ensures var c := FilterPaperRelevanceNode(s).value;
      c.update.status == Some(Failed) <==> s.metadata.None? || s.metadata.value == map[]
    ensures var c := FilterPaperRelevanceNode(s).value;
      c.goto == End && s.metadata.Some? && s.metadata.value != map[] ==> c.update.status == Some(Completed)
  {
  }

  /** Without required keywords the checker is never consulted: the decision does
      not depend on the metadata's keywords at all. */
  lemma NoKeywordsSkipsChecker(s: State, m: map<string, Value>)
    requires s.requiredKeywords == [] && s.metadata.Some? && s.metadata.value != map[] && m != map[]
    ensures FilterPaperRelevanceNode(s) == FilterPaperRelevanceNode(s.(metadata := Some(m)))
    ensures FilterPaperRelevanceNode(s) == FilterPaperRelevanceNodeAsWritten(s)
  {
  }

  /** The as-written filter raises TypeError exactly where the corrected one asks the checker. */
  lemma AsWrittenFilterRaises(s: State)
    ensures FilterPaperRelevanceNodeAsWritten(s) == Raise(TypeError) <==>
      s.metadata.Some? && s.metadata.value != map[] && s.requiredKeywords != []
    ensures !(s.metadata.Some? && s.metadata.value != map[] && s.requiredKeywords != []) ==>
      FilterPaperRelevanceNodeAsWritten(s) == FilterPaperRelevanceNode(s)
  {
  }
}
