/** `build_graph` and the run of the compiled graph. The builder is a small
    mutable object (`add_node`, `set_entry_point`); the compiled graph runs a
    node, merges its update into the record and follows its `goto` until `END`. */
module WorkflowGraph {
  import opened Py
  import opened WorkflowState
  import opened WorkflowNodes

  /** The node functions a stage can be bound to. */
  datatype NodeFunction =
    | ExtractPaperInformationNodeFn
    | FilterPaperRelevanceNodeFn
    | ExtractPaperContentNodeFn
    /** Registered for the embed stage; the nodes module has no such function,
        so the model gives it no behaviour. */
    | EmbedPaperNodeFn
    | AnalyzePaperNodeFn
    | PublishResultsNodeFn

  /** Calling a node function that has a body on the record. */
  function Invoke(f: NodeFunction, s: State, adapters: Adapters): (r: Result<Command>)
    requires f != EmbedPaperNodeFn
  {
    match f
    case ExtractPaperInformationNodeFn => ExtractPaperInformationNode(s, adapters)
    case FilterPaperRelevanceNodeFn => FilterPaperRelevanceNode(s)
    case ExtractPaperContentNodeFn => ExtractPaperContentNode(s, adapters)
    case AnalyzePaperNodeFn => AnalyzePaperNode(s)
    case PublishResultsNodeFn => PublishResultsNode(s)
  }

  /** `StateGraph(WorkflowState)` while it is being built. */
  class StateGraph {
    var nodes: map<StageId, NodeFunction>
    var entryPoint: Option<StageId>
    var edges: set<(StageId, StageId)>

    constructor ()
      ensures nodes == map[] && entryPoint == None && edges == {}
    {
      nodes := map[];
      entryPoint := None;
      edges := {};
    }

    /** `add_node(name, fn)`: a name can be added once. */
    method AddNode(name: StageId, f: NodeFunction)
      requires name !in nodes
      modifies this
      ensures nodes == old(nodes)[name := f]
      ensures entryPoint == old(entryPoint) && edges == old(edges)
    {
      nodes := nodes[name := f];
    }

    /** `set_entry_point(name)`. */
    method SetEntryPoint(name: StageId)
      modifies this
      ensures entryPoint == Some(name)
      ensures nodes == old(nodes) && edges == old(edges)
    {
      entryPoint := Some(name);
    }
  }

  // ------------------------------------------------------------ importing graph.py

  /** The top-level names `nodes.py` binds: its imports, `logger` and its five node
      functions. There is no `embed_paper_node` among them. */
  function NodesModuleNames(): (r: set<string>)
    ensures "embed_paper_node" !in r
    ensures "extract_paper_information_node" in r && "filter_paper_relevance_node" in r
    ensures "extract_paper_content_node" in r && "analyze_paper_node" in r && "publish_results_node" in r
  {
    {"logging", "END", "Command", "WorkflowState", "WorkflowStatus",
     "PaperMetadataExtractor", "PaperRelevanceChecker", "PaperContentExtractor",
     "EXTRACT_PAPER_CONTENT", "ANALYZE_PAPER", "PUBLISH_RESULTS", "FILTER_PAPER_RELEVANCE",
     "logger",
     "extract_paper_information_node", "filter_paper_relevance_node",
     "extract_paper_content_node", "analyze_paper_node", "publish_results_node"}
  }

  /** The names `graph.py` imports from the nodes module, in order. */
  const GraphImports: seq<string> :=
    ["extract_paper_information_node", "filter_paper_relevance_node",
     "extract_paper_content_node", "embed_paper_node",
     "analyze_paper_node", "publish_results_node"]

  /** `from m import n1, n2, ...` against the names `defined` that `m` binds: the
      first name the module lacks raises ImportError, and nothing after it is bound. */
  function ImportFrom(defined: set<string>, names: seq<string>): (r: Result<()>)
    ensures r.Ok? <==> forall i :: 0 <= i < |names| ==> names[i] in defined
    ensures r.Raise? ==>
      exists i :: 0 <= i < |names| && r.exc == ImportError(names[i]) &&
                  names[i] !in defined && forall j :: 0 <= j < i ==> names[j] in defined
  {
    if names == [] then Ok(())
    else if names[0] !in defined then Raise(ImportError(names[0]))
    else
      var r := ImportFrom(defined, names[1..]);
      if r.Ok? then r
      else
        assert forall i :: 0 <= i < |names[1..]| ==> names[1..][i] == names[i + 1];
        r
  }

  /** Loading `graph.py` and then building and running the graph, as `workflow.py`
      and the smoke test do: the module-level import comes first. */
  function ImportThenRun(defined: set<string>, s: State, adapters: Adapters): (r: Result<RunResult>)
    ensures r.Ok? <==> forall i :: 0 <= i < |GraphImports| ==> GraphImports[i] in defined
    ensures r.Ok? ==> r.value == Run(s, adapters)
  {
    var _ :- ImportFrom(defined, GraphImports);
    Ok(Run(s, adapters))
  }

  /** As written, importing `graph.py` fails on `embed_paper_node`, so no run of the
      workflow starts, whatever the record and the collaborators. */
  lemma NoRunAsWritten(s: State, adapters: Adapters)
    ensures ImportFrom(NodesModuleNames(), GraphImports) == Raise(ImportError("embed_paper_node"))
    ensures ImportThenRun(NodesModuleNames(), s, adapters) == Raise(ImportError("embed_paper_node"))
  {
    var names := NodesModuleNames();
    assert GraphImports[0] in names && GraphImports[1] in names && GraphImports[2] in names;
    assert GraphImports[3] !in names;
    var r := ImportFrom(names, GraphImports);
    assert r.Raise?;
  }

  /** With `embed_paper_node` defined in the nodes module the import succeeds, and the
      run is the corrected graph's: the embed stage is registered but never reached. */
  lemma CorrectedImportRuns(s: State, adapters: Adapters)
    ensures ImportThenRun(NodesModuleNames() + {"embed_paper_node"}, s, adapters) == Ok(Run(s, adapters))
    ensures EmbedPaper in Registry() && EmbedPaper !in Run(s, adapters).visited
  {
    var names := NodesModuleNames() + {"embed_paper_node"};
    assert forall i :: 0 <= i < |GraphImports| ==> GraphImports[i] in names;
  }

  /** What `compile()` keeps: the registry, the entry stage and the static edges. */
  datatype CompiledGraph = CompiledGraph(nodes: map<StageId, NodeFunction>, entryPoint: StageId, edges: set<(StageId, StageId)>)

  /** The registry `build_graph` produces: each of the six stages bound to its own node function. */
  function Registry(): (r: map<StageId, NodeFunction>)
    ensures r.Keys == {ExtractPaperInformation, FilterPaperRelevance, ExtractPaperContent,
                       EmbedPaper, AnalyzePaper, PublishResults}
    ensures |r.Keys| == 6
    ensures forall a, b :: a in r && b in r && r[a] == r[b] ==> a == b
  {
    var r := map[
      ExtractPaperInformation := ExtractPaperInformationNodeFn,
      FilterPaperRelevance := FilterPaperRelevanceNodeFn,
      ExtractPaperContent := ExtractPaperContentNodeFn,
      EmbedPaper := EmbedPaperNodeFn,
      AnalyzePaper := AnalyzePaperNodeFn,
      PublishResults := PublishResultsNodeFn];
    r
  }

  /** Every stage there is has a node. */
  lemma RegistryCoversEveryStage(st: StageId)
    ensures st in Registry()
  {
  }

  const EntryPoint: StageId := ExtractPaperInformation

  /** `build_graph()`: six `add_node` calls and the entry point; no edges are added. */
  method BuildGraph() returns (g: CompiledGraph)
    ensures g.nodes == Registry() && g.entryPoint == EntryPoint && g.edges == {}
  {
    var flow := new StateGraph();
    flow.AddNode(ExtractPaperInformation, ExtractPaperInformationNodeFn);
    flow.AddNode(FilterPaperRelevance, FilterPaperRelevanceNodeFn);
    flow.AddNode(ExtractPaperContent, ExtractPaperContentNodeFn);
    flow.AddNode(EmbedPaper, EmbedPaperNodeFn);
    flow.AddNode(AnalyzePaper, AnalyzePaperNodeFn);
    flow.AddNode(PublishResults, PublishResultsNodeFn);
    flow.SetEntryPoint(ExtractPaperInformation);
    g := CompiledGraph(flow.nodes, flow.entryPoint.value, flow.edges);
  }

  /** The node function `build_graph` binds to a stage. */
  function NodeOf(stage: StageId): NodeFunction {
    match stage
    case ExtractPaperInformation => ExtractPaperInformationNodeFn
    case FilterPaperRelevance => FilterPaperRelevanceNodeFn
    case ExtractPaperContent => ExtractPaperContentNodeFn
    case EmbedPaper => EmbedPaperNodeFn
    case AnalyzePaper => AnalyzePaperNodeFn
    case PublishResults => PublishResultsNodeFn
  }

  /** The registry binds each stage to exactly that node function. */
  lemma RegistryBindsNodeOf(stage: StageId)
    ensures stage in Registry() && Registry()[stage] == NodeOf(stage)
  {
  }

  /** Running the registered node of a stage other than the bodiless embed stage: it
      never sends the run backwards,
      never targets the embed stage, and a command that ends the run carries a
      final status unless it is the missing-id exit. */
  function Step(stage: StageId, s: State, adapters: Adapters): (r: Result<Command>)
    requires stage != EmbedPaper
    ensures r.Ok? ==> MovesForward(stage, r.value) && FinalStatusEnds(r.value)
    ensures r.Ok? ==> r.value.goto != GotoStage(EmbedPaper)
    ensures r.Ok? && r.value.goto == End ==>
      r.value.update.status == Some(Failed) || r.value.update.status == Some(Completed) ||
      (stage == ExtractPaperInformation && s.paperId == "" && r.value.update.status.None?)
  {
    Invoke(NodeOf(stage), s, adapters)
  }

  datatype Outcome = Finished | Raised(exc: Exc)

  /** A run: the stages executed in order, the final record and how it stopped. */
  datatype RunResult = RunResult(visited: seq<StageId>, state: State, outcome: Outcome)

  predicate StrictlyForward(visited: seq<StageId>) {
    forall i, j :: 0 <= i < j < |visited| ==> visited[i].Rank() < visited[j].Rank()
  }

  /** The compiled graph's loop from a given stage. There are no static edges,
      so the next stage is always the node's own `goto`. */
  function RunFrom(stage: StageId, s: State, adapters: Adapters): (r: RunResult)
    requires stage != EmbedPaper
    ensures |r.visited| >= 1 && r.visited[0] == stage
    ensures StrictlyForward(r.visited)
    ensures EmbedPaper !in r.visited
    ensures r.state.paperId == s.paperId && r.state.workflowId == s.workflowId
    decreases 6 - stage.Rank()
  {
    match Step(stage, s, adapters)
    case Raise(e) => RunResult([stage], s, Raised(e))
    case Ok(c) =>
      var next := Merge(s, c.update);
      if c.goto == End then RunResult([stage], next, Finished)
      else
        var rest := RunFrom(c.goto.stage, next, adapters);
        RunResult([stage] + rest.visited, rest.state, rest.outcome)
  }

  /** `app.invoke(state)`. */
  function Run(s: State, adapters: Adapters): (r: RunResult)
    ensures |r.visited| >= 1 && r.visited[0] == EntryPoint
    ensures StrictlyForward(r.visited) && EmbedPaper !in r.visited
    ensures |r.visited| <= 5
  {
    var r := RunFrom(EntryPoint, s, adapters);
    ForwardRunsAreShort(r.visited);
    r
  }

  lemma {:induction false} ForwardRunsAreShort(visited: seq<StageId>)
    requires |visited| >= 1 && visited[0] == ExtractPaperInformation
    requires StrictlyForward(visited)
    requires forall i :: 1 <= i < |visited| ==> visited[i] != EmbedPaper
    ensures EmbedPaper !in visited
    ensures |visited| <= 5
  {
    RanksClimb(visited, |visited| - 1);
  }

  /** Along a forward run from rank 0 each step gains a rank, and the step past the
      embed stage's rank gains two. */
  lemma {:induction false} RanksClimb(visited: seq<StageId>, i: nat)
    requires i < |visited| && visited[0] == ExtractPaperInformation
    requires StrictlyForward(visited)
    requires forall k :: 1 <= k < |visited| ==> visited[k] != EmbedPaper
    ensures visited[i].Rank() >= i
    ensures i >= 3 ==> visited[i].Rank() >= i + 1
  {
    if i > 0 {
      RanksClimb(visited, i - 1);
      assert visited[i - 1].Rank() < visited[i].Rank();
      assert visited[i].Rank() != 3;
    }
  }
}
