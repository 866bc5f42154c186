/** Whole runs of the compiled graph: which stages execute and how the record
    ends, branch by branch, and what the metadata extractor guarantees the
    later stages. */
module WorkflowRuns {
  import opened Py
  import opened WorkflowState
  import opened WorkflowNodes
  import opened WorkflowGraph
  import PaperRelevanceChecker
  import PaperMetadata

  /** The relevance decision the filter takes on metadata `m`. */
  function Decision(m: map<string, Value>, required: seq<string>): Result<bool> {
    PaperRelevanceChecker.CheckRelevance(
      PaperRelevanceChecker.NewChecker(Some(m), required, PaperRelevanceChecker.DefaultMinMatchThreshold))
  }

  /** The record after the metadata stage stored `m`. */
  function AfterMetadata(s: State, m: map<string, Value>): State {
    Merge(s, Update(Some(Running), Some(m), None, None))
  }

  /** An empty paper id ends the run at once with the error and no status change. */
  lemma RunWithoutPaperId(s: State, adapters: Adapters)
    requires s.paperId == ""
    ensures Run(s, adapters) == RunResult([ExtractPaperInformation], s.(error := Some(NoPaperIdError)), Finished)
  {
  }

  /** No metadata: the run ends at once as failed, with an error naming the paper. */
  lemma RunWithoutMetadata(s: State, adapters: Adapters)
    requires s.paperId != "" && adapters.fetchMetadata(s.paperId) == Ok(None)
    ensures Run(s, adapters) ==
      RunResult([ExtractPaperInformation], s.(status := Failed, error := Some(MetadataFailedError(s.paperId))), Finished)
  {
  }

  /** An exception from the metadata fetch propagates out of the run. */
  lemma RunWhenFetchRaises(s: State, adapters: Adapters)
    requires s.paperId != "" && adapters.fetchMetadata(s.paperId).Raise?
    ensures Run(s, adapters).visited == [ExtractPaperInformation]
    ensures Run(s, adapters).outcome == Raised(adapters.fetchMetadata(s.paperId).exc)
  {
  }

  /** An empty metadata dictionary passes the `is None` test but fails the filter's `not metadata`. */
  lemma RunWithEmptyMetadata(s: State, adapters: Adapters)
    requires s.paperId != "" && adapters.fetchMetadata(s.paperId) == Ok(Some(map[]))
    ensures Run(s, adapters) == RunResult([ExtractPaperInformation, FilterPaperRelevance],
      AfterMetadata(s, map[]).(status := Failed, error := Some(MissingMetadataError)), Finished)
  {
    var s1 := AfterMetadata(s, map[]);
    assert RunFrom(FilterPaperRelevance, s1, adapters) ==
      RunResult([FilterPaperRelevance], s1.(status := Failed, error := Some(MissingMetadataError)), Finished);
  }

  /** One step of the loop: a node that ends the run. */
  lemma RunFromEnd(stage: StageId, s: State, adapters: Adapters, c: Command)
    requires stage != EmbedPaper
    requires Step(stage, s, adapters) == Ok(c) && c.goto == End
    ensures RunFrom(stage, s, adapters) == RunResult([stage], Merge(s, c.update), Finished)
  {
  }

  /** One step of the loop: a node that hands over to another stage. */
  lemma RunFromNext(stage: StageId, s: State, adapters: Adapters, c: Command)
    requires stage != EmbedPaper
    requires Step(stage, s, adapters) == Ok(c) && c.goto.GotoStage?
    ensures var rest := RunFrom(c.goto.stage, Merge(s, c.update), adapters);
      RunFrom(stage, s, adapters) == RunResult([stage] + rest.visited, rest.state, rest.outcome)
  {
  }

  /** The metadata stage with metadata `m` hands `m` to the filter. */
  lemma MetadataStep(s: State, adapters: Adapters, m: map<string, Value>)
    requires s.paperId != "" && adapters.fetchMetadata(s.paperId) == Ok(Some(m))
    ensures Step(ExtractPaperInformation, s, adapters) ==
      Ok(Command(GotoStage(FilterPaperRelevance), Update(Some(Running), Some(m), None, None)))
  {
  }

  lemma FilterStep(s1: State, adapters: Adapters, m: map<string, Value>)
    requires s1.metadata == Some(m) && m != map[]
    ensures s1.requiredKeywords != [] && Decision(m, s1.requiredKeywords) == Ok(false) ==>
      Step(FilterPaperRelevance, s1, adapters) == Ok(Command(End, StatusUpdate(Completed)))
    ensures s1.requiredKeywords == [] || Decision(m, s1.requiredKeywords) == Ok(true) ==>
      Step(FilterPaperRelevance, s1, adapters) == Ok(Command(GotoStage(ExtractPaperContent), StatusUpdate(Running)))
  {
  }

  /** An irrelevant paper ends the run after the filter, as completed and not failed. */
  lemma RunNotRelevant(s: State, adapters: Adapters, m: map<string, Value>)
    requires s.paperId != "" && adapters.fetchMetadata(s.paperId) == Ok(Some(m))
    requires m != map[] && s.requiredKeywords != [] && Decision(m, s.requiredKeywords) == Ok(false)
    ensures Run(s, adapters) == RunResult([ExtractPaperInformation, FilterPaperRelevance],
      AfterMetadata(s, m).(status := Completed), Finished)
  {
    var s1 := AfterMetadata(s, m);
    MetadataStep(s, adapters, m);
    RunFromNext(ExtractPaperInformation, s, adapters,
      Command(GotoStage(FilterPaperRelevance), Update(Some(Running), Some(m), None, None)));
    FilterStep(s1, adapters, m);
    RunFromEnd(FilterPaperRelevance, s1, adapters, Command(End, StatusUpdate(Completed)));
  }

  /** The full path: metadata, a passed filter, extracted content, the stubs; the run ends completed with the content stored. */
  lemma RunFullPath(s: State, adapters: Adapters, m: map<string, Value>, content: string)
    requires s.paperId != "" && adapters.fetchMetadata(s.paperId) == Ok(Some(m)) && m != map[]
    requires s.requiredKeywords == [] || Decision(m, s.requiredKeywords) == Ok(true)
    requires Truthy(Get(m, "arxiv_pdf_url", Null))
    requires adapters.extractContent(Get(m, "arxiv_pdf_url", Null)) == Ok(content)
    ensures Run(s, adapters).visited ==
      [ExtractPaperInformation, FilterPaperRelevance, ExtractPaperContent, AnalyzePaper, PublishResults]
    ensures Run(s, adapters).outcome == Finished
    ensures Run(s, adapters).state == AfterMetadata(s, m).(content := Some(content), status := Completed)
  {
    var s1 := AfterMetadata(s, m);
    var s2 := s1.(status := Running);
    MetadataStep(s, adapters, m);
    RunFromNext(ExtractPaperInformation, s, adapters,
      Command(GotoStage(FilterPaperRelevance), Update(Some(Running), Some(m), None, None)));
    FilterToEnd(s1, adapters, m, content);
  }

  /** From a passed filter on. */
  lemma FilterToEnd(s1: State, adapters: Adapters, m: map<string, Value>, content: string)
    requires s1.metadata == Some(m) && m != map[]
    requires s1.requiredKeywords == [] || Decision(m, s1.requiredKeywords) == Ok(true)
    requires Truthy(Get(m, "arxiv_pdf_url", Null))
    requires adapters.extractContent(Get(m, "arxiv_pdf_url", Null)) == Ok(content)
    ensures RunFrom(FilterPaperRelevance, s1, adapters) ==
      RunResult([FilterPaperRelevance, ExtractPaperContent, AnalyzePaper, PublishResults],
        s1.(status := Running).(content := Some(content), status := Completed), Finished)
  {
    var s2 := s1.(status := Running);
    FilterStep(s1, adapters, m);
    RunFromNext(FilterPaperRelevance, s1, adapters, Command(GotoStage(ExtractPaperContent), StatusUpdate(Running)));
    ContentToEnd(s2, adapters, m, content);
  }

  /** From the content stage on: the content is stored, the two stubs run, and the run completes. */
  lemma ContentToEnd(s2: State, adapters: Adapters, m: map<string, Value>, content: string)
    requires s2.metadata == Some(m) && Truthy(Get(m, "arxiv_pdf_url", Null))
    requires adapters.extractContent(Get(m, "arxiv_pdf_url", Null)) == Ok(content)
    ensures RunFrom(ExtractPaperContent, s2, adapters) ==
      RunResult([ExtractPaperContent, AnalyzePaper, PublishResults],
        s2.(content := Some(content), status := Completed), Finished)
  {
    var s3 := s2.(content := Some(content));
    var c2 := Command(GotoStage(AnalyzePaper), Update(None, None, Some(content), None));
    assert Step(ExtractPaperContent, s2, adapters) == Ok(c2);
    RunFromNext(ExtractPaperContent, s2, adapters, c2);
    RunFromNext(AnalyzePaper, s3, adapters, Command(GotoStage(PublishResults), NoUpdate));
    RunFromEnd(PublishResults, s3, adapters, Command(End, StatusUpdate(Completed)));
  }

  /** A run that stops normally, from a stage other than the missing-id exit, always
      leaves a final status: completed or failed, never pending or running. */
  lemma {:induction false} FinishedRunsHaveFinalStatus(stage: StageId, s: State, adapters: Adapters)
    requires stage != EmbedPaper && (stage != ExtractPaperInformation || s.paperId != "")
    requires RunFrom(stage, s, adapters).outcome == Finished
    ensures RunFrom(stage, s, adapters).state.status in {Completed, Failed}
    decreases 6 - stage.Rank()
  {
    match Step(stage, s, adapters)
    case Raise(e) =>
    case Ok(c) =>
      if c.goto != End {
        FinishedRunsHaveFinalStatus(c.goto.stage, Merge(s, c.update), adapters);
      }
  }

  /** From the entry point with a paper id: a finished run is completed or failed. */
  lemma RunEndsCompletedOrFailed(s: State, adapters: Adapters)
    requires s.paperId != "" && Run(s, adapters).outcome == Finished
    ensures Run(s, adapters).state.status in {Completed, Failed}
  {
    FinishedRunsHaveFinalStatus(EntryPoint, s, adapters);
  }

  /** A run fails only when the metadata is missing or empty; relevance decisions
      and the later stages never produce `failed`. */
  lemma FailedOnlyForMissingMetadata(s: State, adapters: Adapters)
    requires s.paperId != ""
    requires Run(s, adapters).outcome == Finished && Run(s, adapters).state.status == Failed
    ensures adapters.fetchMetadata(s.paperId) == Ok(None) || adapters.fetchMetadata(s.paperId) == Ok(Some(map[]))
  {
    var f := adapters.fetchMetadata(s.paperId);
    if f.Ok? && f.value.Some? && f.value.value != map[] {
      var m := f.value.value;
      var s1 := AfterMetadata(s, m);
      assert Run(s, adapters).outcome == RunFrom(FilterPaperRelevance, s1, adapters).outcome;
      assert Run(s, adapters).state == RunFrom(FilterPaperRelevance, s1, adapters).state;
      NoFailureAfterMetadata(s1, adapters);
      assert false;
    }
  }

  /** From the filter on, with non-empty metadata in the record, no stage writes `failed`. */
  lemma NoFailureAfterMetadata(s1: State, adapters: Adapters)
    requires s1.metadata.Some? && s1.metadata.value != map[]
    requires RunFrom(FilterPaperRelevance, s1, adapters).outcome == Finished
    ensures RunFrom(FilterPaperRelevance, s1, adapters).state.status == Completed
  {
    var r := Step(FilterPaperRelevance, s1, adapters);
    var c := r.value;
    assert c.update.status != Some(Failed) by {
      IrrelevantIsCompletedNotFailed(s1);
    }
    if c.goto != End {
      assert c.goto == GotoStage(ExtractPaperContent);
      var s2 := Merge(s1, c.update);
      ContentOnwardCompletes(s2, adapters);
    }
  }

  /** From content extraction on, a finished run is completed. */
  lemma ContentOnwardCompletes(s2: State, adapters: Adapters)
    requires RunFrom(ExtractPaperContent, s2, adapters).outcome == Finished
    ensures RunFrom(ExtractPaperContent, s2, adapters).state.status == Completed
  {
    var r := Step(ExtractPaperContent, s2, adapters);
    if r.Ok? {
      var c2 := r.value;
      var s3 := Merge(s2, c2.update);
      var c3 := Command(GotoStage(PublishResults), NoUpdate);
      RunFromNext(ExtractPaperContent, s2, adapters, c2);
      RunFromNext(AnalyzePaper, s3, adapters, c3);
      RunFromEnd(PublishResults, Merge(s3, c3.update), adapters, Command(End, StatusUpdate(Completed)));
    }
  }

  /** The smoke scenario: required keywords ["LLM"], metadata without `ai_keywords`. */
  const SmokeMetadata: map<string, Value> := map[
    "title" := Str("Fake Paper Title"),
    "authors" := List([Str("Dr. Test")]),
    "date" := Str("2025-01-01")]

  function SmokeState(): State {
    State("test-123", "2510.fake_paper", None, None, Pending, None, ["LLM"])
  }

  /** As written the smoke test stops at importing `graph.py`. With the import and the
      filter corrected, the scenario ends completed after the filter (no paper
      keywords, so not relevant); the filter as written would raise TypeError there. */
  lemma SmokeRun(adapters: Adapters)
    requires adapters.fetchMetadata("2510.fake_paper") == Ok(Some(SmokeMetadata))
    ensures ImportThenRun(NodesModuleNames(), SmokeState(), adapters) == Raise(ImportError("embed_paper_node"))
    ensures Run(SmokeState(), adapters).outcome == Finished
    ensures Run(SmokeState(), adapters).state.status == Completed
    ensures Run(SmokeState(), adapters).visited == [ExtractPaperInformation, FilterPaperRelevance]
    ensures FilterPaperRelevanceNodeAsWritten(AfterMetadata(SmokeState(), SmokeMetadata)) == Raise(TypeError)
  {
    PaperRelevanceChecker.MissingPaperKeywordsNotRelevant(SmokeMetadata, ["LLM"], 1);
    assert "title" in SmokeMetadata;
    assert Decision(SmokeMetadata, ["LLM"]) == Ok(false);
    RunNotRelevant(SmokeState(), adapters, SmokeMetadata);
    NoRunAsWritten(SmokeState(), adapters);
  }

  // ------------------------------------------- with the real metadata extractor

  /** The metadata adapter is `PaperMetadataExtractor` over the given responses. */
  predicate FetchesWithExtractor(adapters: Adapters, paperId: string,
                                 hf: PaperMetadata.HfResponse, arxiv: PaperMetadata.ArxivResponse) {
    adapters.fetchMetadata(paperId) == PaperMetadata.ExtractMetadata(paperId, hf, arxiv)
  }

  /** The PDF converter is foreign code; it does not raise the node's own message. */
  ghost predicate ConverterNeverRaisesUrlError(adapters: Adapters) {
    forall v :: adapters.extractContent(v) != Raise(ValueError(MissingUrlMessage))
  }

  /** Metadata from the extractor always carries a PDF URL, so the content stage
      never raises its "arxiv url is missing" ValueError. */
  lemma ExtractorMetadataHasUrl(s: State, adapters: Adapters, hf: PaperMetadata.HfResponse, arxiv: PaperMetadata.ArxivResponse)
    requires s.paperId != "" && FetchesWithExtractor(adapters, s.paperId, hf, arxiv)
    requires ConverterNeverRaisesUrlError(adapters)
    ensures Run(s, adapters).outcome != Raised(ValueError(MissingUrlMessage))
  {
    var f := adapters.fetchMetadata(s.paperId);
    if f.Ok? && f.value.Some? {
      var m := f.value.value;
      PaperMetadata.PdfUrlAlwaysPresent(s.paperId, hf, arxiv);
      MetadataStep(s, adapters, m);
      var c0 := Command(GotoStage(FilterPaperRelevance), Update(Some(Running), Some(m), None, None));
      RunFromNext(ExtractPaperInformation, s, adapters, c0);
      UrlKeepsContentStageQuiet(FilterPaperRelevance, AfterMetadata(s, m), adapters);
    }
  }

  /** After the metadata stage no node touches the metadata, so a record holding a
      PDF URL never reaches the missing-URL error. */
  lemma {:induction false} UrlKeepsContentStageQuiet(stage: StageId, s: State, adapters: Adapters)
    requires stage != ExtractPaperInformation && stage != EmbedPaper && ConverterNeverRaisesUrlError(adapters)
    requires s.metadata.Some? && Truthy(Get(s.metadata.value, "arxiv_pdf_url", Null))
    ensures RunFrom(stage, s, adapters).outcome != Raised(ValueError(MissingUrlMessage))
    decreases 6 - stage.Rank()
  {
    match Step(stage, s, adapters)
    case Raise(e) =>
      assert e != ValueError(MissingUrlMessage);
    case Ok(c) =>
      if c.goto != End {
        assert c.update.metadata.None?;
        UrlKeepsContentStageQuiet(c.goto.stage, Merge(s, c.update), adapters);
      }
  }

  /** When Hugging Face fails and ArXiv answers, the fallback has no keywords, so a
      run with required keywords is never relevant: it ends completed after the filter. */
  lemma ArxivFallbackWithKeywordsEndsAtFilter(s: State, adapters: Adapters, arxiv: PaperMetadata.ArxivResponse)
    requires s.paperId != "" && s.requiredKeywords != []
    requires FetchesWithExtractor(adapters, s.paperId, PaperMetadata.HfRequestFailed, arxiv)
    requires PaperMetadata.ArxivFallback(s.paperId, arxiv).Some?
    ensures Run(s, adapters).visited == [ExtractPaperInformation, FilterPaperRelevance]
    ensures Run(s, adapters).outcome == Finished && Run(s, adapters).state.status == Completed
  {
    var m := PaperMetadata.ArxivFallback(s.paperId, arxiv).value;
    PaperMetadata.FallbackFields(s.paperId, arxiv);
    assert "id" in m;
    PaperRelevanceChecker.MissingPaperKeywordsNotRelevant(m, s.requiredKeywords, 1);
    RunNotRelevant(s, adapters, m);
  }
}
