/** The workflow executor as a function from run state to run state, with a record of its handler calls. */
module RunModel {
  import opened Wrappers
  import opened Digraph
  import opened Workflow
  import opened Permissions
  import Topo

  type Key = string

  datatype Status = Queued | Running | Succeeded | Failed | NeedsReview | Cancelled

  datatype NodeStatus = NodeRunning | NodeSucceeded | NodeFailed | NodeNeedsApproval

  /** What is recorded beside a node's status: nothing, a cache hit, a computed output, or the last error. */
  datatype Detail = NoDetail | CacheHit(key: Key) | Computed(key: Key, output: HandlerOutcome) | LastError(message: string)

  datatype NodeState = NodeState(status: NodeStatus, attempts: int, detail: Detail)

  /** A handler raises an exception, or returns a result: tokens spent, an artifact path or none (empty), a payload. */
  datatype HandlerOutcome = Raised(message: string) | Result(tokens: int, artifact: string, payload: string)

  /** While it runs, a handler or the approval callback may ask for the run to be cancelled. */
  datatype Reply = Reply(outcome: HandlerOutcome, cancels: bool)
  datatype Answer = Answer(approved: bool, cancels: bool)

  /** The world outside: what the handler of a node does on the n-th call of the run, and what the approval callback
      says to the n-th request. */
  datatype Env = Env(handle: (Id, int) -> Reply, approve: (Id, nat) -> Answer)

  datatype Budget = StepBudget | TokenBudget | FileBudget

  datatype Event =
    | RunStarted(resume: bool)
    | SkippedOnResume(id: Id)
    | BudgetExceeded(budget: Budget)
    | ApprovalRequired(id: Id)
    | HitCache(id: Id)
    | Committed(id: Id)
    | Retried(id: Id, attempt: int)
    | GaveUpOn(id: Id)
    | VerifyFailed
    | RunSucceeded
    | RunCancelled

  datatype RunError = OverBudget(budget: Budget) | HandlerError(message: string) | CancelledByUser | CriteriaUnmet

  datatype Approval = Approval(id: Id, approved: bool)

  datatype Run = Run(
    status: Status,
    nodeStates: map<Id, NodeState>,
    events: seq<Event>,
    approvals: seq<Approval>,
    cache: map<Key, HandlerOutcome>,
    steps: int,
    tokens: int,
    files: int,
    artifacts: seq<string>,
    error: Option<RunError>,
    cancelRequested: bool)

  /** A workflow as the executor reads it. A `maxSteps` of zero stands for a missing or zero budget. */
  datatype Job = Job(
    ids: seq<Id>,
    links: seq<Topo.Edge>,
    nodes: map<Id, Node>,
    keys: map<Id, Key>,
    maxSteps: int,
    maxTokens: Option<int>,
    maxFiles: Option<int>,
    criteria: bool)

  ghost predicate ValidJob(job: Job) {
    Distinct(job.ids) && Topo.Between(job.ids, job.links) && forall id :: id in job.ids ==> id in job.nodes && id in job.keys
  }

  function StepLimit(job: Job): int {
    if job.maxSteps == 0 then 80 else job.maxSteps
  }

  /** One handler call: the node, and the run as it is when the handler starts. */
  datatype Call = Call(id: Id, before: Run)

  // ---------------------------------------------------------------- cancelling, saving, loading

  function Cancel(run: Run): Run {
    var r := run.(cancelRequested := true);
    if r.status in {Succeeded, Failed, Cancelled} then r
    else r.(status := Cancelled, error := if r.error.Some? then r.error else Some(CancelledByUser), events := r.events + [RunCancelled])
  }

  /** The saved form of a run. It does not hold the cache. */
  datatype Saved = Saved(
    status: Status,
    nodeStates: map<Id, NodeState>,
    events: seq<Event>,
    approvals: seq<Approval>,
    steps: int,
    tokens: int,
    files: int,
    artifacts: seq<string>,
    error: Option<RunError>,
    cancelRequested: bool)

  function ToDict(run: Run): Saved {
    Saved(run.status, run.nodeStates, run.events, run.approvals, run.steps, run.tokens, run.files, run.artifacts, run.error, run.cancelRequested)
  }

  function FromDict(s: Saved): Run {
    Run(s.status, s.nodeStates, s.events, s.approvals, map[], s.steps, s.tokens, s.files, s.artifacts, s.error, s.cancelRequested)
  }

  // ---------------------------------------------------------------- one node

  predicate IsSucceeded(run: Run, id: Id) {
    id in run.nodeStates && run.nodeStates[id].status == NodeSucceeded
  }

  function SetNode(run: Run, id: Id, state: NodeState): Run {
    run.(nodeStates := run.nodeStates[id := state])
  }

  function OverBudgetRun(run: Run, budget: Budget): Run {
    run.(status := Failed, error := Some(OverBudget(budget)), events := run.events + [BudgetExceeded(budget)])
  }

  /** What one returned or raised outcome does to the run: commit the node, halt the run, or count as a failed attempt. */
  datatype Settled = Commit(run: Run) | Halt(run: Run) | FailedAttempt(run: Run, message: string)

  const UNSAFE_PATH := "unsafe write path"

  function Settle(job: Job, id: Id, run: Run, attempt: int, outcome: HandlerOutcome): Settled
    requires id in job.nodes && id in job.keys
  {
    if outcome.Raised? then FailedAttempt(run, outcome.message)
    else
      var spent := run.(tokens := run.tokens + outcome.tokens);
      var cls := job.nodes[id].permissionClass;
      if outcome.tokens != 0 && job.maxTokens.Some? && spent.tokens > job.maxTokens.value then Halt(OverBudgetRun(spent, TokenBudget))
      else if outcome.artifact != "" && MayAutoApply(ClassOrDefault(cls)) && !EvaluateNodeAction(cls, outcome.artifact).ok then
        FailedAttempt(spent, UNSAFE_PATH)
      else
        var written := if outcome.artifact == "" then spent
                       else spent.(artifacts := spent.artifacts + [outcome.artifact], files := spent.files + 1);
        var kept := written.(cache := written.cache[job.keys[id] := outcome]);
        Commit(SetNode(kept, id, NodeState(NodeSucceeded, attempt, Computed(job.keys[id], outcome))).(events := kept.events + [Committed(id)]))
  }

  /** How the attempts at a node end: committed; given up with a message; passed over without success and without an
      error to report; or the whole run halted. */
  datatype Verdict = Done | GaveUp(message: string) | PassedOver | Halted

  datatype Attempts = Attempts(run: Run, calls: seq<Call>, verdict: Verdict)

  function RetryMax(job: Job, id: Id): int
    requires id in job.nodes
  {
    job.nodes[id].retryMax
  }

  /** The run at the moment the handler starts its next attempt. */
  function Starting(run: Run, id: Id, attempt: int): Run
    requires id in run.nodeStates
  {
    SetNode(run, id, run.nodeStates[id].(attempts := attempt + 1)).(steps := run.steps + 1)
  }

  function AfterReply(run: Run, reply: Reply): Run {
    if reply.cancels then run.(cancelRequested := true) else run
  }

  /** The retry loop. An empty message is no message: a node whose last attempt fails with one is passed over. */
  function TryNode(job: Job, env: Env, id: Id, run: Run, attempt: int, lastErr: string): Attempts
    requires id in job.nodes && id in job.keys && id in run.nodeStates
    decreases RetryMax(job, id) + 1 - attempt
  {
    if attempt > RetryMax(job, id) then Attempts(run, [], if lastErr == "" then PassedOver else GaveUp(lastErr))
    else if run.cancelRequested then Attempts(Cancel(run), [], Halted)
    else
      var starting := Starting(run, id, attempt);
      var reply := env.handle(id, starting.steps);
      var call := Call(id, starting);
      match Settle(job, id, AfterReply(starting, reply), attempt + 1, reply.outcome)
      case Commit(r) => Attempts(r, [call], Done)
      case Halt(r) => Attempts(r, [call], Halted)
      case FailedAttempt(r, message) =>
        var rest := TryNode(job, env, id, r.(events := r.events + [Retried(id, attempt + 1)]), attempt + 1, message);
        Attempts(rest.run, [call] + rest.calls, rest.verdict)
  }

  datatype Visit = Visit(run: Run, calls: seq<Call>, halted: bool)

  function AttemptsBefore(run: Run, id: Id): int {
    if id in run.nodeStates then run.nodeStates[id].attempts else 0
  }

  predicate NeedsApproval(job: Job, id: Id)
    requires id in job.nodes
  {
    EvaluateNodeAction(job.nodes[id].permissionClass, "").approvalRequired
  }

  function Asked(run: Run, id: Id, answer: Answer): Run {
    var r := run.(approvals := run.approvals + [Approval(id, answer.approved)]);
    if answer.cancels then r.(cancelRequested := true) else r
  }

  /** A node whose budgets and approvals are in order: from the cache, or by its handler. */
  function Perform(job: Job, env: Env, id: Id, run: Run): Visit
    requires id in job.nodes && id in job.keys && id in run.nodeStates
  {
    if job.keys[id] in run.cache then
      Visit(SetNode(run, id, NodeState(NodeSucceeded, run.nodeStates[id].attempts, CacheHit(job.keys[id]))).(events := run.events + [HitCache(id)]), [], false)
    else
      var t := TryNode(job, env, id, run, 0, "");
      match t.verdict
      case Done => Visit(t.run, t.calls, false)
      case PassedOver => Visit(t.run, t.calls, false)
      case Halted => Visit(t.run, t.calls, true)
      case GaveUp(message) =>
        var r := SetNode(t.run, id, NodeState(NodeFailed, RetryMax(job, id) + 1, LastError(message)));
        Visit(r.(status := Failed, error := Some(HandlerError(message)), events := r.events + [GaveUpOn(id)]), t.calls, true)
  }

  function Denied(run: Run, id: Id): Run
    requires id in run.nodeStates
  {
    SetNode(run, id, NodeState(NodeNeedsApproval, run.nodeStates[id].attempts, NoDetail)).(status := NeedsReview, events := run.events + [ApprovalRequired(id)])
  }

  function VisitNode(job: Job, env: Env, id: Id, run: Run, resume: bool): Visit
    requires id in job.nodes && id in job.keys
  {
    if run.cancelRequested then Visit(Cancel(run), [], true)
    else if resume && IsSucceeded(run, id) then Visit(run.(events := run.events + [SkippedOnResume(id)]), [], false)
    else
      var r := SetNode(run, id, NodeState(NodeRunning, AttemptsBefore(run, id), NoDetail));
      if r.steps >= StepLimit(job) then Visit(OverBudgetRun(r, StepBudget), [], true)
      else if job.maxTokens.Some? && r.tokens >= job.maxTokens.value then Visit(OverBudgetRun(r, TokenBudget), [], true)
      else if job.maxFiles.Some? && r.files >= job.maxFiles.value then Visit(OverBudgetRun(r, FileBudget), [], true)
      else if NeedsApproval(job, id) then
        var answer := env.approve(id, |r.approvals|);
        var asked := Asked(r, id, answer);
        if answer.approved then Perform(job, env, id, asked) else Visit(Denied(asked, id), [], true)
      else Perform(job, env, id, r)
  }

  // ---------------------------------------------------------------- a whole run

  function VisitAll(job: Job, env: Env, order: seq<Id>, run: Run, resume: bool): Visit
    requires forall id :: id in order ==> id in job.nodes && id in job.keys
    decreases |order|
  {
    if order == [] then Visit(run, [], false)
    else
      assert order[0] in order;
      var v := VisitNode(job, env, order[0], run, resume);
      if v.halted then v
      else
        var rest := VisitAll(job, env, order[1..], v.run, resume);
        Visit(rest.run, v.calls + rest.calls, rest.halted)
  }

  datatype Session = Session(run: Run, calls: seq<Call>)

  function Started(run: Run, resume: bool): Run {
    run.(status := Running, events := run.events + [RunStarted(resume)])
  }

  function Finish(job: Job, run: Run): Run {
    if job.criteria && run.artifacts == [] then
      run.(status := NeedsReview, error := Some(CriteriaUnmet), events := run.events + [VerifyFailed])
    else run.(status := Succeeded, events := run.events + [RunSucceeded])
  }

  function OrderOf(job: Job): (order: seq<Id>)
    requires ValidJob(job)
    ensures forall id :: id in order <==> id in job.ids
  {
    var t := Topo.Run(job.ids, job.links, Topo.Start(job.ids, job.links));
    Topo.OrderFits(job.ids, t.order);
    Topo.TopoOrder(job.ids, job.links)
  }

  function Execute(job: Job, env: Env, run: Run, resume: bool): Session
    requires ValidJob(job)
  {
    if run.cancelRequested || run.status == Cancelled then Session(Cancel(run), [])
    else
      var v := VisitAll(job, env, OrderOf(job), Started(run, resume), resume);
      Session(if v.halted then v.run else Finish(job, v.run), v.calls)
  }

  const FRESH := Run(Queued, map[], [], [], map[], 0, 0, 0, [], None, false)

  /** The workflow with the cache keys that its nodes have for one input. */
  function WithKeys(job: Job, key: Id -> Key): Job {
    job.(keys := map id | id in job.ids :: key(id))
  }

  /** What a user can do with a run: execute it on some input, resuming or from the start; cancel it; save it and load it again. */
  datatype Action = Execution(env: Env, key: Id -> Key, resume: bool) | CancelIt | SaveAndLoad

  function Act(job: Job, run: Run, action: Action): Session
    requires ValidJob(job)
  {
    match action
    case Execution(env, key, resume) => Execute(WithKeys(job, key), env, run, resume)
    case CancelIt => Session(Cancel(run), [])
    case SaveAndLoad => Session(FromDict(ToDict(run)), [])
  }

  /** Any sequence of such actions, with all handler calls made on the way. */
  function History(job: Job, run: Run, actions: seq<Action>): Session
    requires ValidJob(job)
    decreases |actions|
  {
    if actions == [] then Session(run, [])
    else
      var n := |actions| - 1;
      var before := History(job, run, actions[..n]);
      var last := Act(job, before.run, actions[n]);
      Session(last.run, before.calls + last.calls)
  }
}
