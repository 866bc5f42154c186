/** The run record threaded through the workflow graph and the status enum
    stored in it. */
module WorkflowState {
  import opened Py

  /** `WorkflowStatus`, a `str` enum: each member equals its string value. */
  datatype WorkflowStatus = Pending | Running | Completed | Failed {
    /** The member's `.value`, the string the nodes store in the record. */
    function Value(): string {
      match this
      case Pending => "pending"
      case Running => "running"
      case Completed => "completed"
      case Failed => "failed"
    }
  }

  /** `WorkflowStatus(v)`: the member whose value is `v`, if any. */
  function StatusOf(v: string): Option<WorkflowStatus> {
    if v == "pending" then Some(Pending)
    else if v == "running" then Some(Running)
    else if v == "completed" then Some(Completed)
    else if v == "failed" then Some(Failed)
    else None
  }

  /** Looking up a member's value gives the member back, so the four values are distinct. */
  lemma StatusValueRoundTrip(st: WorkflowStatus)
    ensures StatusOf(st.Value()) == Some(st)
  {
  }

  /** Only the four literals name a status. */
  lemma StatusOfExactlyFour(v: string)
    ensures StatusOf(v).Some? <==> v in {"pending", "running", "completed", "failed"}
    ensures StatusOf(v).Some? ==> StatusOf(v).value.Value() == v
  {
  }

  /** `WorkflowState`. `workflow_id`, `paper_id` and `status` are always present;
      `metadata`, `content` and `error` are optional (None = Python None).
      `required_keywords` is not a declared key: the nodes read it with the
      default `[]`, which is how an absent key is represented here. */
  datatype State = State(
    workflowId: string,
    paperId: string,
    metadata: Option<map<string, Value>>,
    content: Option<string>,
    status: WorkflowStatus,
    error: Option<string>,
    requiredKeywords: seq<string>)

  /** The `update` dictionary of a `Command`: a field is `Some` when the key is present. */
  datatype Update = Update(
    status: Option<WorkflowStatus>,
    metadata: Option<map<string, Value>>,
    content: Option<string>,
    error: Option<string>)

  const NoUpdate := Update(None, None, None, None)

  function StatusUpdate(st: WorkflowStatus): Update {
    Update(Some(st), None, None, None)
  }

  function Overwrite<T>(old_: Option<T>, new_: Option<T>): Option<T> {
    if new_.Some? then new_ else old_
  }

  /** The graph applies a node's update to the record: a shallow merge in which the update's keys win. */
  function Merge(s: State, u: Update): (r: State)
    ensures r.workflowId == s.workflowId && r.paperId == s.paperId
    ensures r.requiredKeywords == s.requiredKeywords
    ensures r.status == (if u.status.Some? then u.status.value else s.status)
    ensures u.metadata.Some? ==> r.metadata == u.metadata
    ensures u.metadata.None? ==> r.metadata == s.metadata
    ensures u.content.Some? ==> r.content == u.content
    ensures u.content.None? ==> r.content == s.content
    ensures u.error.Some? ==> r.error == u.error
    ensures u.error.None? ==> r.error == s.error
  {
    s.(status := if u.status.Some? then u.status.value else s.status,
       metadata := Overwrite(s.metadata, u.metadata),
       content := Overwrite(s.content, u.content),
       error := Overwrite(s.error, u.error))
  }

  /** An empty update leaves the record as it is. */
  lemma MergeNoUpdate(s: State)
    ensures Merge(s, NoUpdate) == s
  {
  }

  /** Applying the same update twice is applying it once. */
  lemma MergeIdempotent(s: State, u: Update)
    ensures Merge(Merge(s, u), u) == Merge(s, u)
  {
  }

  /** The record `workflow.py` starts a run with. */
  function InitialState(workflowId: string, paperId: string, requiredKeywords: seq<string>): (r: State)
    ensures r.status == Pending && r.status.Value() == "pending"
    ensures r.metadata == None && r.content == None && r.error == None
    ensures r.paperId == paperId && r.workflowId == workflowId && r.requiredKeywords == requiredKeywords
  {
    State(workflowId, paperId, None, None, Pending, None, requiredKeywords)
  }
}
