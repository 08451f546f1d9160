/** What the executor keeps over single nodes, whole runs, and any sequence of runs. */
module RunLaws {
  import opened Wrappers
  import opened Digraph
  import opened Workflow
  import opened Permissions
  import opened RunModel
  import Topo

  // ---------------------------------------------------------------- counting commits

  function Commits(events: seq<Event>, id: Id): nat {
    if events == [] then 0 else Commits(events[..|events| - 1], id) + if events[|events| - 1] == Committed(id) then 1 else 0
  }

  lemma CommitsSnoc(events: seq<Event>, e: Event)
    ensures forall x :: Commits(events + [e], x) == Commits(events, x) + if e == Committed(x) then 1 else 0
  {
    assert (events + [e])[..|events|] == events;
  }

  // ---------------------------------------------------------------- the retry loop

  /** Other nodes, the approvals and past events are untouched, and a cancel request stays. */
  ghost predicate Touches(a: Run, b: Run, id: Id) {
    && a.nodeStates.Keys + {id} == b.nodeStates.Keys + {id}
    && (forall x :: x in a.nodeStates && x != id ==> b.nodeStates[x] == a.nodeStates[x])
    && a.approvals == b.approvals && a.events <= b.events && a.artifacts <= b.artifacts
    && (a.cancelRequested ==> b.cancelRequested)
  }

  lemma TouchesTransitive(a: Run, b: Run, c: Run, id: Id)
    requires Touches(a, b, id) && Touches(b, c, id)
    ensures Touches(a, c, id)
  {
    forall x | x in a.nodeStates && x != id
      ensures x in c.nodeStates && c.nodeStates[x] == a.nodeStates[x]
    {
      assert x in b.nodeStates.Keys + {id};
      assert x in c.nodeStates.Keys + {id};
    }
  }

  /** At the start of a handler call: no cancel request, the node not yet succeeded, everything else as before the node. */
  ghost predicate CallOk(run: Run, id: Id, c: Call) {
    c.id == id && !c.before.cancelRequested && !IsSucceeded(c.before, id) && Touches(run, c.before, id)
  }

  ghost predicate CallsOk(run: Run, id: Id, calls: seq<Call>) {
    forall i :: 0 <= i < |calls| ==> CallOk(run, id, calls[i])
  }

  function PlusIf(n: nat, b: bool): nat {
    if b then n + 1 else n
  }

  /** The books of one step on a node: commits, artifacts, tokens. */
  ghost predicate Booked(job: Job, a: Run, b: Run, id: Id, done: bool) {
    && (IsSucceeded(b, id) <==> done)
    && Commits(b.events, id) == PlusIf(Commits(a.events, id), done)
    && (forall x :: x != id ==> Commits(b.events, x) == Commits(a.events, x))
    && (done ==> FromHandler(job, b, id))
    && (if done && b.nodeStates[id].detail.output.artifact != ""
        then b.artifacts == a.artifacts + [b.nodeStates[id].detail.output.artifact] && b.files == a.files + 1
        else b.artifacts == a.artifacts && b.files == a.files)
  }

  /** The node's output came from its handler; an artifact of an auto-apply node lies in the overlay. */
  ghost predicate FromHandler(job: Job, run: Run, id: Id) {
    && id in job.nodes && IsSucceeded(run, id) && run.nodeStates[id].detail.Computed?
    && var out := run.nodeStates[id].detail.output;
       out.Result? && (out.artifact != "" && MayAutoApply(ClassOrDefault(job.nodes[id].permissionClass)) ==> AssertPathSafeOverlay(out.artifact))
  }

  ghost predicate WithinTokens(job: Job, run: Run) {
    job.maxTokens.Some? ==> run.tokens <= job.maxTokens.value
  }

  lemma SettleTouches(job: Job, id: Id, run: Run, attempt: int, outcome: HandlerOutcome)
    requires id in job.nodes && id in job.keys && id in run.nodeStates && !IsSucceeded(run, id) && run.status == Running
    ensures var s := Settle(job, id, run, attempt, outcome);
      && Touches(run, s.run, id) && s.run.steps == run.steps && id in s.run.nodeStates
      && (WithinTokens(job, run) ==> WithinTokens(job, s.run) || s.Halt?)
      && s.run.status == (if s.Halt? then Failed else Running)
      && (s.FailedAttempt? && s.message == "" <==> outcome == Raised(""))
  {
    hide EvaluateNodeAction, MayAutoApply, ClassOrDefault;
  }

  lemma SettleBooks(job: Job, id: Id, run: Run, attempt: int, outcome: HandlerOutcome)
    requires id in job.nodes && id in job.keys && id in run.nodeStates && !IsSucceeded(run, id) && run.status == Running
    ensures var s := Settle(job, id, run, attempt, outcome); Booked(job, run, s.run, id, s.Commit?)
  {
    NoApprovalIffSafe(job.nodes[id].permissionClass, if outcome.Raised? then "" else outcome.artifact);
    CommitsSnoc(run.events, Committed(id));
    CommitsSnoc(run.events, BudgetExceeded(TokenBudget));
    hide Commits, AssertPathSafeOverlay, MayAutoApply, ClassOrDefault;
  }

  lemma SettleFacts(job: Job, id: Id, run: Run, attempt: int, outcome: HandlerOutcome)
    requires id in job.nodes && id in job.keys && id in run.nodeStates && !IsSucceeded(run, id) && run.status == Running
    ensures var s := Settle(job, id, run, attempt, outcome);
      && Touches(run, s.run, id) && Booked(job, run, s.run, id, s.Commit?) && s.run.steps == run.steps
      && id in s.run.nodeStates
      && (WithinTokens(job, run) ==> WithinTokens(job, s.run) || s.Halt?)
      && s.run.status == (if s.Halt? then Failed else Running)
      && (s.FailedAttempt? && s.message == "" <==> outcome == Raised(""))
  {
    hide Settle, Touches, Booked, WithinTokens;
    SettleTouches(job, id, run, attempt, outcome);
    SettleBooks(job, id, run, attempt, outcome);
  }

  ghost predicate TryOk(job: Job, env: Env, id: Id, run: Run, left: int, t: Attempts) {
    && Touches(run, t.run, id) && CallsOk(run, id, t.calls) && id in t.run.nodeStates
    && t.run.steps == run.steps + |t.calls| && |t.calls| <= (if left < 0 then 0 else left)
    && Booked(job, run, t.run, id, t.verdict.Done?)
    && (WithinTokens(job, run) ==> WithinTokens(job, t.run) || t.verdict.Halted?)
    && (if t.verdict.Halted? then t.run.status in {Failed, Cancelled} else t.run.status == Running)
  }

  lemma EventOnly(job: Job, run: Run, id: Id, e: Event)
    requires !e.Committed? && !IsSucceeded(run, id)
    ensures Touches(run, run.(events := run.events + [e]), id) && Booked(job, run, run.(events := run.events + [e]), id, false)
  {
    CommitsSnoc(run.events, e);
  }

  lemma CancelIsOk(job: Job, run: Run, id: Id)
    requires !IsSucceeded(run, id) && run.status == Running
    ensures Touches(run, Cancel(run), id) && Booked(job, run, Cancel(run), id, false) && Cancel(run).status == Cancelled
  {
    CommitsSnoc(run.events, RunCancelled);
  }

  lemma BookedTransitive(job: Job, a: Run, b: Run, c: Run, id: Id, done: bool)
    requires Booked(job, a, b, id, false) && Booked(job, b, c, id, done)
    ensures Booked(job, a, c, id, done)
  {
  }

  lemma StartingIsOk(job: Job, run: Run, id: Id, attempt: int, reply: Reply)
    requires id in run.nodeStates && !IsSucceeded(run, id) && !run.cancelRequested && run.status == Running
    ensures var s := Starting(run, id, attempt);
      && CallOk(run, id, Call(id, s)) && s.steps == run.steps + 1
      && Touches(run, AfterReply(s, reply), id) && Booked(job, run, AfterReply(s, reply), id, false)
      && id in AfterReply(s, reply).nodeStates && AfterReply(s, reply).status == Running && AfterReply(s, reply).tokens == run.tokens
      && AfterReply(s, reply).steps == s.steps
  {
  }

  lemma CallsShift(a: Run, b: Run, id: Id, calls: seq<Call>)
    requires Touches(a, b, id) && CallsOk(b, id, calls)
    ensures CallsOk(a, id, calls)
  {
    forall i | 0 <= i < |calls|
      ensures CallOk(a, id, calls[i])
    {
      assert CallOk(b, id, calls[i]);
      TouchesTransitive(a, b, calls[i].before, id);
    }
  }

  lemma {:induction false} TryNodeIsOk(job: Job, env: Env, id: Id, run: Run, attempt: int, lastErr: string)
    requires id in job.nodes && id in job.keys && id in run.nodeStates && !IsSucceeded(run, id) && run.status == Running
    ensures TryOk(job, env, id, run, RetryMax(job, id) + 1 - attempt, TryNode(job, env, id, run, attempt, lastErr))
    decreases RetryMax(job, id) + 1 - attempt
  {
    hide Touches, Booked, CallOk, Settle, Starting, IsSucceeded;
    if attempt > RetryMax(job, id) {
      SameIsOk(job, run, id);
    } else if run.cancelRequested {
      CancelIsOk(job, run, id);
    } else {
      var starting := Starting(run, id, attempt);
      var reply := env.handle(id, starting.steps);
      var after := AfterReply(starting, reply);
      StartingIsOk(job, run, id, attempt, reply);
      BookedMeansNot(job, run, after, id);
      SettleFacts(job, id, after, attempt + 1, reply.outcome);
      var s := Settle(job, id, after, attempt + 1, reply.outcome);
      TouchesTransitive(run, after, s.run, id);
      BookedTransitive(job, run, after, s.run, id, s.Commit?);
      if s.FailedAttempt? {
        BookedMeansNot(job, run, s.run, id);
        var next := s.run.(events := s.run.events + [Retried(id, attempt + 1)]);
        EventOnly(job, s.run, id, Retried(id, attempt + 1));
        TouchesTransitive(run, s.run, next, id);
        BookedTransitive(job, run, s.run, next, id, false);
        BookedMeansNot(job, run, next, id);
        TryNodeIsOk(job, env, id, next, attempt + 1, s.message);
        var rest := TryNode(job, env, id, next, attempt + 1, s.message);
        TouchesTransitive(run, next, rest.run, id);
        BookedTransitive(job, run, next, rest.run, id, rest.verdict.Done?);
        CallsShift(run, next, id, rest.calls);
      }
    }
  }

  lemma SameIsOk(job: Job, run: Run, id: Id)
    requires !IsSucceeded(run, id)
    ensures Touches(run, run, id) && Booked(job, run, run, id, false)
  {
  }

  lemma BookedMeansNot(job: Job, a: Run, b: Run, id: Id)
    requires Booked(job, a, b, id, false)
    ensures !IsSucceeded(b, id)
  {
  }

  function Spent(outcome: HandlerOutcome): int {
    if outcome.Raised? then 0 else outcome.tokens
  }

  /** An attempt that neither commits the node nor halts the run: an exception, or an unsafe artifact within the token budget. */
  predicate Fails(job: Job, id: Id, tokens: int, outcome: HandlerOutcome)
    requires id in job.nodes
  {
    outcome.Raised? ||
    (&& !(outcome.tokens != 0 && job.maxTokens.Some? && tokens + outcome.tokens > job.maxTokens.value)
     && outcome.artifact != "" && MayAutoApply(ClassOrDefault(job.nodes[id].permissionClass))
     && !EvaluateNodeAction(job.nodes[id].permissionClass, outcome.artifact).ok)
  }

  /** The attempts that are left all fail, none but the last asks for cancellation, and the last raises an exception with an empty
      message; all this from the handler and from the steps and tokens spent so far. */
  ghost predicate StaysSilent(job: Job, env: Env, id: Id, steps: int, tokens: int, attempt: int)
    requires id in job.nodes
    decreases RetryMax(job, id) + 1 - attempt
  {
    attempt <= RetryMax(job, id) &&
    var reply := env.handle(id, steps + 1);
    if attempt == RetryMax(job, id) then reply.outcome == Raised("")
    else
      && !reply.cancels && Fails(job, id, tokens, reply.outcome)
      && StaysSilent(job, env, id, steps + 1, tokens + Spent(reply.outcome), attempt + 1)
  }

  lemma SettleFails(job: Job, id: Id, run: Run, attempt: int, outcome: HandlerOutcome)
    requires id in job.nodes && id in job.keys
    ensures var s := Settle(job, id, run, attempt, outcome);
      && (s.FailedAttempt? <==> Fails(job, id, run.tokens, outcome))
      && (s.FailedAttempt? ==> s.run == run.(tokens := run.tokens + Spent(outcome)) && (s.message == "" <==> outcome == Raised("")))
  {
    hide EvaluateNodeAction, MayAutoApply, ClassOrDefault;
  }

  /** A node is passed over exactly when it gets no attempt at all, or every attempt fails and the last one raises an exception with an
      empty message. */
  lemma {:induction false} PassedOverIff(job: Job, env: Env, id: Id, run: Run, attempt: int, lastErr: string)
    requires id in job.nodes && id in job.keys && id in run.nodeStates
    ensures TryNode(job, env, id, run, attempt, lastErr).verdict.PassedOver? <==>
      if attempt > RetryMax(job, id) then lastErr == ""
      else !run.cancelRequested && StaysSilent(job, env, id, run.steps, run.tokens, attempt)
    decreases RetryMax(job, id) + 1 - attempt
  {
    hide Settle, Fails;
    if attempt <= RetryMax(job, id) && !run.cancelRequested {
      var starting := Starting(run, id, attempt);
      var reply := env.handle(id, starting.steps);
      var after := AfterReply(starting, reply);
      SettleFails(job, id, after, attempt + 1, reply.outcome);
      RaisedFails(job, id, after.tokens, reply.outcome);
      var s := Settle(job, id, after, attempt + 1, reply.outcome);
      if s.FailedAttempt? {
        PassedOverIff(job, env, id, s.run.(events := s.run.events + [Retried(id, attempt + 1)]), attempt + 1, s.message);
      }
    }
  }

  lemma RaisedFails(job: Job, id: Id, tokens: int, outcome: HandlerOutcome)
    requires id in job.nodes
    ensures outcome.Raised? ==> Fails(job, id, tokens, outcome)
  {
  }

  // ---------------------------------------------------------------- one node of a resumed run

  /** What a visit to a node may change in the run. */
  ghost predicate NodeStep(job: Job, id: Id, a: Run, b: Run) {
    && SameOthers(a, b, id)
    && (IsSucceeded(a, id) ==> id in b.nodeStates && b.nodeStates[id] == a.nodeStates[id])
    && a.approvals <= b.approvals && a.events <= b.events && a.artifacts <= b.artifacts && (a.cancelRequested ==> b.cancelRequested)
    && (forall x :: x != id ==> Commits(b.events, x) == Commits(a.events, x))
    && Commits(b.events, id) <= PlusIf(Commits(a.events, id), !IsSucceeded(a, id) && IsSucceeded(b, id))
    && (WithinTokens(job, a) ==> WithinTokens(job, b) || !IsSucceeded(b, id))
    && (!WithinTokens(job, a) ==> b.tokens == a.tokens && (IsSucceeded(b, id) ==> IsSucceeded(a, id)))
    && ((b.artifacts == a.artifacts && b.files == a.files) || Wrote(job, id, a, b))
  }

  ghost predicate SameOthers(a: Run, b: Run, id: Id) {
    && (forall x :: x != id ==> (x in a.nodeStates <==> x in b.nodeStates))
    && (forall x :: x in a.nodeStates && x != id ==> b.nodeStates[x] == a.nodeStates[x])
  }

  /** The node committed an artifact, within the file budget and approved if it needs that. */
  ghost predicate Wrote(job: Job, id: Id, a: Run, b: Run) {
    && FromHandler(job, b, id) && ApprovedIfNeeded(job, id, b) && !IsSucceeded(a, id) && b.nodeStates[id].detail.output.artifact != ""
    && b.artifacts == a.artifacts + [b.nodeStates[id].detail.output.artifact] && b.files == a.files + 1
    && (job.maxFiles.Some? ==> a.files < job.maxFiles.value)
  }

  ghost predicate ApprovedIfNeeded(job: Job, id: Id, run: Run) {
    id in job.nodes && (NeedsApproval(job, id) ==> Approval(id, true) in run.approvals)
  }

  /** The run with the node prepared: marked as running, its approval recorded. */
  ghost predicate Prepared(a: Run, r: Run, id: Id) {
    && SameOthers(a, r, id) && !IsSucceeded(a, id) && !IsSucceeded(r, id) && id in r.nodeStates
    && r.events == a.events && r.artifacts == a.artifacts && r.tokens == a.tokens && r.steps == a.steps && r.files == a.files
    && a.approvals <= r.approvals && (a.cancelRequested ==> r.cancelRequested) && r.status == a.status
  }

  lemma TouchesSameOthers(a: Run, b: Run, id: Id)
    requires Touches(a, b, id)
    ensures SameOthers(a, b, id)
  {
    forall x | x != id
      ensures x in a.nodeStates <==> x in b.nodeStates
    {
      assert x in a.nodeStates.Keys + {id} <==> x in b.nodeStates.Keys + {id};
    }
  }

  lemma PreparedThenTouched(job: Job, id: Id, a: Run, r: Run, b: Run, done: bool)
    requires Prepared(a, r, id) && Touches(r, b, id) && Booked(job, r, b, id, done)
    requires WithinTokens(job, a) && (job.maxFiles.Some? ==> a.files < job.maxFiles.value)
    requires (WithinTokens(job, b) && ApprovedIfNeeded(job, id, r)) || !done
    ensures NodeStep(job, id, a, b)
  {
    TouchesSameOthers(r, b, id);
  }

  /** Only the status, the error, a cancel request or a non-commit event changed. */
  ghost predicate Quiet(a: Run, b: Run) {
    && b.nodeStates == a.nodeStates && b.approvals == a.approvals && b.artifacts == a.artifacts && b.tokens == a.tokens
    && b.files == a.files && b.steps == a.steps && (a.cancelRequested ==> b.cancelRequested)
    && a.events <= b.events && forall x :: Commits(b.events, x) == Commits(a.events, x)
  }

  lemma QuietEvent(a: Run, b: Run, e: Event)
    requires b == a.(status := b.status, error := b.error, cache := b.cache, cancelRequested := b.cancelRequested, events := a.events + [e])
    requires !e.Committed? && (a.cancelRequested ==> b.cancelRequested)
    ensures Quiet(a, b)
  {
    CommitsSnoc(a.events, e);
  }

  lemma QuietCancel(a: Run)
    ensures Quiet(a, Cancel(a)) && Cancel(a).cancelRequested
    ensures Cancel(a).status == if a.status in {Succeeded, Failed, Cancelled} then a.status else Cancelled
  {
    CommitsSnoc(a.events, RunCancelled);
  }

  lemma QuietStep(job: Job, id: Id, a: Run, b: Run)
    requires Quiet(a, b)
    ensures NodeStep(job, id, a, b)
  {
  }

  lemma PreparedThenQuiet(job: Job, id: Id, a: Run, r: Run, b: Run)
    requires Prepared(a, r, id) && Quiet(r, b)
    ensures NodeStep(job, id, a, b)
  {
  }

  /** A handler call during the visit: not cancelled, other nodes as before the visit, and a required approval just given. */
  ghost predicate VisitCall(job: Job, id: Id, a: Run, c: Call) {
    && c.id == id && id in job.nodes && !c.before.cancelRequested && SameOthers(a, c.before, id)
    && a.approvals <= c.before.approvals && !a.cancelRequested
    && !IsSucceeded(a, id) && !IsSucceeded(c.before, id)
    && (NeedsApproval(job, id) ==> c.before.approvals == a.approvals + [Approval(id, true)])
  }

  ghost predicate VisitOk(job: Job, id: Id, a: Run, v: Visit)
    requires id in job.nodes
  {
    && NodeStep(job, id, a, v.run)
    && (forall i :: 0 <= i < |v.calls| ==> VisitCall(job, id, a, v.calls[i]))
    && v.run.steps == a.steps + |v.calls|
    && (v.calls != [] ==> a.steps < StepLimit(job) && |v.calls| <= RetryMax(job, id) + 1)
    && (if v.halted then v.run.status in {Failed, Cancelled, NeedsReview} else v.run.status == Running)
    && (!v.halted && !IsSucceeded(a, id) ==> WithinTokens(job, a))
    && (!v.halted && WithinTokens(job, a) ==> WithinTokens(job, v.run))
  }

  lemma PerformIsOk(job: Job, env: Env, id: Id, a: Run, r: Run)
    requires id in job.nodes && id in job.keys && Prepared(a, r, id) && a.status == Running && !a.cancelRequested
    requires WithinTokens(job, a) && (job.maxFiles.Some? ==> a.files < job.maxFiles.value) && a.steps < StepLimit(job)
    requires NeedsApproval(job, id) ==> r.approvals == a.approvals + [Approval(id, true)]
    ensures VisitOk(job, id, a, Perform(job, env, id, r))
  {
    hide TryNode, Booked, Touches, NodeStep, Commits, NeedsApproval, StepLimit;
    if job.keys[id] in r.cache {
      CacheHitIsOk(job, id, a, r);
    } else {
      var t := TryNode(job, env, id, r, 0, "");
      TryNodeIsOk(job, env, id, r, 0, "");
      PreparedThenTouched(job, id, a, r, t.run, t.verdict.Done?);
      forall i | 0 <= i < |t.calls|
        ensures VisitCall(job, id, a, t.calls[i])
      {
        assert CallOk(r, id, t.calls[i]);
        TouchesSameOthers(r, t.calls[i].before, id);
        TouchesApprovals(r, t.calls[i].before, id);
      }
      if t.verdict.GaveUp? {
        GaveUpIsOk(job, id, a, r, t);
      }
    }
  }

  lemma TouchesApprovals(a: Run, b: Run, id: Id)
    requires Touches(a, b, id)
    ensures a.approvals == b.approvals
  {
  }

  lemma CacheHitIsOk(job: Job, id: Id, a: Run, r: Run)
    requires id in job.nodes && id in job.keys && Prepared(a, r, id) && WithinTokens(job, a)
    ensures NodeStep(job, id, a, SetNode(r, id, NodeState(NodeSucceeded, r.nodeStates[id].attempts, CacheHit(job.keys[id]))).(events := r.events + [HitCache(id)]))
  {
    CommitsSnoc(r.events, HitCache(id));
  }

  lemma GaveUpIsOk(job: Job, id: Id, a: Run, r: Run, t: Attempts)
    requires id in job.nodes && Prepared(a, r, id) && t.verdict.GaveUp? && id in t.run.nodeStates
    requires Touches(r, t.run, id) && Booked(job, r, t.run, id, false) && WithinTokens(job, a)
    ensures var s := SetNode(t.run, id, NodeState(NodeFailed, RetryMax(job, id) + 1, LastError(t.verdict.message)));
      NodeStep(job, id, a, s.(status := Failed, error := Some(HandlerError(t.verdict.message)), events := s.events + [GaveUpOn(id)]))
  {
    CommitsSnoc(t.run.events, GaveUpOn(id));
    TouchesSameOthers(r, t.run, id);
  }

  lemma VisitNodeIsOk(job: Job, env: Env, id: Id, a: Run)
    requires id in job.nodes && id in job.keys && a.status == Running
    ensures VisitOk(job, id, a, VisitNode(job, env, id, a, true))
  {
    hide Perform, NodeStep, NeedsApproval, StepLimit, Commits;
    if a.cancelRequested {
      QuietCancel(a);
      QuietStep(job, id, a, Cancel(a));
    } else if IsSucceeded(a, id) {
      QuietEvent(a, a.(events := a.events + [SkippedOnResume(id)]), SkippedOnResume(id));
      QuietStep(job, id, a, a.(events := a.events + [SkippedOnResume(id)]));
    } else {
      var r := SetNode(a, id, NodeState(NodeRunning, AttemptsBefore(a, id), NoDetail));
      var over := r.steps >= StepLimit(job) || (job.maxTokens.Some? && r.tokens >= job.maxTokens.value) || (job.maxFiles.Some? && r.files >= job.maxFiles.value);
      if over {
        OverBudgetIsOk(job, id, a, r, StepBudget);
        OverBudgetIsOk(job, id, a, r, TokenBudget);
        OverBudgetIsOk(job, id, a, r, FileBudget);
      } else if NeedsApproval(job, id) {
        var answer := env.approve(id, |r.approvals|);
        var asked := Asked(r, id, answer);
        if answer.approved {
          PerformIsOk(job, env, id, a, asked);
        } else {
          DeniedIsOk(job, id, a, asked);
        }
      } else {
        PerformIsOk(job, env, id, a, r);
      }
    }
  }

  lemma OverBudgetIsOk(job: Job, id: Id, a: Run, r: Run, budget: Budget)
    requires Prepared(a, r, id)
    ensures NodeStep(job, id, a, OverBudgetRun(r, budget))
  {
    QuietEvent(r, OverBudgetRun(r, budget), BudgetExceeded(budget));
    PreparedThenQuiet(job, id, a, r, OverBudgetRun(r, budget));
  }

  lemma DeniedIsOk(job: Job, id: Id, a: Run, r: Run)
    requires Prepared(a, r, id)
    ensures NodeStep(job, id, a, Denied(r, id))
  {
    CommitsSnoc(r.events, ApprovalRequired(id));
  }

  // ---------------------------------------------------------------- executions from the start

  /** The run as a visit takes it: an execution that does not resume takes up a succeeded node again. */
  function Faced(a: Run, id: Id, resume: bool): Run {
    if resume || a.cancelRequested || !IsSucceeded(a, id) then a
    else SetNode(a, id, NodeState(NodeRunning, a.nodeStates[id].attempts, NoDetail))
  }

  lemma VisitFaces(job: Job, env: Env, id: Id, a: Run, resume: bool)
    requires id in job.nodes && id in job.keys
    ensures VisitNode(job, env, id, a, resume) == VisitNode(job, env, id, Faced(a, id, resume), true)
  {
    hide Perform, NeedsApproval, StepLimit;
    if !resume && !a.cancelRequested && IsSucceeded(a, id) {
      var faced, state := Faced(a, id, false), NodeState(NodeRunning, a.nodeStates[id].attempts, NoDetail);
      assert SetNode(a, id, state).nodeStates == SetNode(faced, id, state).nodeStates;
    }
  }
}
