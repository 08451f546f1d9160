/** The executor over a run state updated in place, step by step equal to the functional model. */
module DagExecutor {
  import opened Wrappers
  import opened Digraph
  import opened Workflow
  import opened Permissions
  import opened RunModel
  import opened RunLaws
  import opened RunSafety
  import Topo

  class RunState {
    var status: Status
    var nodeStates: map<Id, NodeState>
    var events: seq<Event>
    var approvals: seq<Approval>
    var cache: map<Key, HandlerOutcome>
    var steps: int
    var tokens: int
    var files: int
    var artifacts: seq<string>
    var error: Option<RunError>
    var cancelRequested: bool

    constructor ()
      ensures Snapshot() == FRESH
    {
      status, nodeStates, events, approvals, cache := Queued, map[], [], [], map[];
      steps, tokens, files, artifacts, error, cancelRequested := 0, 0, 0, [], None, false;
    }

    constructor Load(saved: Saved)
      ensures Snapshot() == FromDict(saved)
    {
      status, nodeStates, events, approvals, cache := saved.status, saved.nodeStates, saved.events, saved.approvals, map[];
      steps, tokens, files, artifacts := saved.steps, saved.tokens, saved.files, saved.artifacts;
      error, cancelRequested := saved.error, saved.cancelRequested;
    }

    function Snapshot(): Run
      reads this
    {
      Run(status, nodeStates, events, approvals, cache, steps, tokens, files, artifacts, error, cancelRequested)
    }

    method Save() returns (saved: Saved)
      ensures saved == ToDict(Snapshot())
    {
      saved := Saved(status, nodeStates, events, approvals, steps, tokens, files, artifacts, error, cancelRequested);
    }

    method Emit(e: Event)
      modifies this
      ensures Snapshot() == old(Snapshot()).(events := old(Snapshot()).events + [e])
    {
      events := events + [e];
    }

    method RequestCancel()
      modifies this
      ensures Snapshot() == old(Snapshot()).(cancelRequested := true)
    {
      cancelRequested := true;
    }

    method CancelRun()
      modifies this
      ensures Snapshot() == Cancel(old(Snapshot()))
    {
      cancelRequested := true;
      if status != Succeeded && status != Failed && status != Cancelled {
        status := Cancelled;
        error := if error.Some? then error else Some(CancelledByUser);
        events := events + [RunCancelled];
      }
    }

    method FailBudget(budget: Budget)
      modifies this
      ensures Snapshot() == OverBudgetRun(old(Snapshot()), budget)
    {
      status := Failed;
      error := Some(OverBudget(budget));
      events := events + [BudgetExceeded(budget)];
    }

    method Begin(resume: bool)
      modifies this
      ensures Snapshot() == Started(old(Snapshot()), resume)
    {
      status := Running;
      events := events + [RunStarted(resume)];
    }

    method SetNodeState(id: Id, state: NodeState)
      modifies this
      ensures Snapshot() == SetNode(old(Snapshot()), id, state)
    {
      nodeStates := nodeStates[id := state];
    }

    method StartAttempt(id: Id, attempt: int)
      requires id in Snapshot().nodeStates
      modifies this
      ensures Snapshot() == Starting(old(Snapshot()), id, attempt)
    {
      nodeStates := nodeStates[id := nodeStates[id].(attempts := attempt + 1)];
      steps := steps + 1;
    }

    method Spend(n: int)
      modifies this
      ensures Snapshot() == old(Snapshot()).(tokens := old(Snapshot()).tokens + n)
    {
      tokens := tokens + n;
    }

    method RecordArtifact(path: string)
      modifies this
      ensures Snapshot() == old(Snapshot()).(artifacts := old(Snapshot()).artifacts + [path], files := old(Snapshot()).files + 1)
    {
      artifacts := artifacts + [path];
      files := files + 1;
    }

    method CommitNode(id: Id, attempt: int, key: Key, outcome: HandlerOutcome)
      modifies this
      ensures var run := old(Snapshot());
        Snapshot() == SetNode(run.(cache := run.cache[key := outcome]), id, NodeState(NodeSucceeded, attempt, Computed(key, outcome)))
                        .(events := run.events + [Committed(id)])
    {
      cache := cache[key := outcome];
      nodeStates := nodeStates[id := NodeState(NodeSucceeded, attempt, Computed(key, outcome))];
      events := events + [Committed(id)];
    }

    method RecordAnswer(id: Id, answer: Answer)
      modifies this
      ensures Snapshot() == Asked(old(Snapshot()), id, answer)
    {
      if answer.cancels {
        cancelRequested := true;
      }
      approvals := approvals + [Approval(id, answer.approved)];
    }

    method Deny(id: Id)
      requires id in Snapshot().nodeStates
      modifies this
      ensures Snapshot() == Denied(old(Snapshot()), id)
    {
      nodeStates := nodeStates[id := NodeState(NodeNeedsApproval, nodeStates[id].attempts, NoDetail)];
      status := NeedsReview;
      events := events + [ApprovalRequired(id)];
    }

    method FailNode(id: Id, attempts: int, message: string)
      modifies this
      ensures var r := SetNode(old(Snapshot()), id, NodeState(NodeFailed, attempts, LastError(message)));
        Snapshot() == r.(status := Failed, error := Some(HandlerError(message)), events := r.events + [GaveUpOn(id)])
    {
      nodeStates := nodeStates[id := NodeState(NodeFailed, attempts, LastError(message))];
      status := Failed;
      error := Some(HandlerError(message));
      events := events + [GaveUpOn(id)];
    }

    /** The outcome verifier at the end of a run. */
    method Verify(job: Job)
      modifies this
      ensures Snapshot() == Finish(job, old(Snapshot()))
    {
      if job.criteria && |artifacts| == 0 {
        status := NeedsReview;
        error := Some(CriteriaUnmet);
        events := events + [VerifyFailed];
      } else {
        status := Succeeded;
        events := events + [RunSucceeded];
      }
    }
  }

  datatype AttemptResult = Finished | Stopped | Raises(message: string)

  class Executor {
    const env: Env

    constructor (env: Env)
      ensures this.env == env
    {
      this.env := env;
    }

    /** The body of the attempt: spend the tokens, check and record the artifact, commit the node. */
    method TakeResult(job: Job, s: RunState, id: Id, attempt: int, outcome: HandlerOutcome) returns (r: AttemptResult)
      requires id in job.nodes && id in job.keys
      modifies s
      ensures var settled := Settle(job, id, old(s.Snapshot()), attempt, outcome);
        s.Snapshot() == settled.run
        && r == match settled case Commit(_) => Finished case Halt(_) => Stopped case FailedAttempt(_, m) => Raises(m)
    {
      hide RunState.Snapshot, EvaluateNodeAction, MayAutoApply, ClassOrDefault;
      if outcome.Raised? {
        return Raises(outcome.message);
      }
      if outcome.tokens != 0 {
        s.Spend(outcome.tokens);
        if job.maxTokens.Some? && s.Snapshot().tokens > job.maxTokens.value {
          s.FailBudget(TokenBudget);
          return Stopped;
        }
      }
      if outcome.artifact != "" {
        var cls := job.nodes[id].permissionClass;
        if MayAutoApply(ClassOrDefault(cls)) {
          if !EvaluateNodeAction(cls, outcome.artifact).ok {
            return Raises(UNSAFE_PATH);
          }
        }
        s.RecordArtifact(outcome.artifact);
      }
      s.CommitNode(id, attempt, job.keys[id], outcome);
      return Finished;
    }

    /** The retry loop of one node. */
    method Attempt(job: Job, s: RunState, id: Id) returns (verdict: Verdict, ghost calls: seq<Call>)
      requires id in job.nodes && id in job.keys && id in s.Snapshot().nodeStates
      modifies s
      ensures Attempts(s.Snapshot(), calls, verdict) == TryNode(job, env, id, old(s.Snapshot()), 0, "")
    {
      hide RunState.Snapshot, Settle;
      ghost var whole := TryNode(job, env, id, s.Snapshot(), 0, "");
      var attempt, lastErr := 0, "";
      calls := [];
      while attempt <= RetryMax(job, id)
        invariant id in s.Snapshot().nodeStates
        invariant whole == var rest := TryNode(job, env, id, s.Snapshot(), attempt, lastErr);
                           Attempts(rest.run, calls + rest.calls, rest.verdict)
        decreases RetryMax(job, id) + 1 - attempt
      {
        if s.Snapshot().cancelRequested {
          s.CancelRun();
          return Halted, calls;
        }
        s.StartAttempt(id, attempt);
        ghost var call := Call(id, s.Snapshot());
        var reply := env.handle(id, s.Snapshot().steps);
        if reply.cancels {
          s.RequestCancel();
        }
        SettleKeepsNode(job, id, s.Snapshot(), attempt + 1, reply.outcome);
        var r := TakeResult(job, s, id, attempt + 1, reply.outcome);
        if r.Finished? {
          return Done, calls + [call];
        }
        if r.Stopped? {
          return Halted, calls + [call];
        }
        attempt, lastErr := attempt + 1, r.message;
        s.Emit(Retried(id, attempt));
        ghost var rest := TryNode(job, env, id, s.Snapshot(), attempt, lastErr);
        assert calls + ([call] + rest.calls) == calls + [call] + rest.calls;
        calls := calls + [call];
      }
      if lastErr == "" {
        return PassedOver, calls;
      }
      return GaveUp(lastErr), calls;
    }

    lemma SettleKeepsNode(job: Job, id: Id, run: Run, attempt: int, outcome: HandlerOutcome)
      requires id in job.nodes && id in job.keys && id in run.nodeStates
      ensures id in Settle(job, id, run, attempt, outcome).run.nodeStates
    {
    }

    method PerformNode(job: Job, s: RunState, id: Id) returns (halted: bool, ghost calls: seq<Call>)
      requires id in job.nodes && id in job.keys && id in s.Snapshot().nodeStates
      modifies s
      ensures Visit(s.Snapshot(), calls, halted) == Perform(job, env, id, old(s.Snapshot()))
    {
      hide RunState.Snapshot, TryNode;
      var ck := job.keys[id];
      if ck in s.Snapshot().cache {
        s.SetNodeState(id, NodeState(NodeSucceeded, s.Snapshot().nodeStates[id].attempts, CacheHit(ck)));
        s.Emit(HitCache(id));
        return false, [];
      }
      var verdict;
      verdict, calls := Attempt(job, s, id);
      if verdict.GaveUp? {
        s.FailNode(id, RetryMax(job, id) + 1, verdict.message);
      }
      halted := verdict.GaveUp? || verdict.Halted?;
    }

    method VisitOne(job: Job, s: RunState, id: Id, resume: bool) returns (halted: bool, ghost calls: seq<Call>)
      requires id in job.nodes && id in job.keys
      modifies s
      ensures Visit(s.Snapshot(), calls, halted) == VisitNode(job, env, id, old(s.Snapshot()), resume)
    {
      hide RunState.Snapshot, Perform, NeedsApproval, StepLimit;
      calls := [];
      if s.Snapshot().cancelRequested {
        s.CancelRun();
        return true, calls;
      }
      if resume && IsSucceeded(s.Snapshot(), id) {
        s.Emit(SkippedOnResume(id));
        return false, calls;
      }
      s.SetNodeState(id, NodeState(NodeRunning, AttemptsBefore(s.Snapshot(), id), NoDetail));
      if s.Snapshot().steps >= StepLimit(job) {
        s.FailBudget(StepBudget);
        return true, calls;
      }
      if job.maxTokens.Some? && s.Snapshot().tokens >= job.maxTokens.value {
        s.FailBudget(TokenBudget);
        return true, calls;
      }
      if job.maxFiles.Some? && s.Snapshot().files >= job.maxFiles.value {
        s.FailBudget(FileBudget);
        return true, calls;
      }
      if NeedsApproval(job, id) {
        var answer := env.approve(id, |s.Snapshot().approvals|);
        s.RecordAnswer(id, answer);
        if !answer.approved {
          s.Deny(id);
          return true, calls;
        }
      }
      halted, calls := PerformNode(job, s, id);
    }

    /** The walk over the ordered nodes, ended early by the first visit that halts the run. */
    method WalkNodes(job: Job, s: RunState, order: seq<Id>, resume: bool) returns (halted: bool, ghost calls: seq<Call>)
      requires forall id :: id in order ==> id in job.nodes && id in job.keys
      modifies s
      ensures Visit(s.Snapshot(), calls, halted) == VisitAll(job, env, order, old(s.Snapshot()), resume)
    {
      hide RunState.Snapshot, VisitNode;
      halted, calls := false, [];
      ghost var whole := VisitAll(job, env, order, s.Snapshot(), resume);
      assert order[0..] == order;
      for i := 0 to |order|
        invariant whole == Prepend(calls, VisitAll(job, env, order[i..], s.Snapshot(), resume))
      {
        assert order[i..][0] == order[i] && order[i..][1..] == order[i + 1..] && order[i] in order;
        ghost var now, before := [], s.Snapshot();
        halted, now := VisitOne(job, s, order[i], resume);
        PrependStep(job, env, order[i..], before, resume, calls);
        calls := calls + now;
        if halted {
          return;
        }
      }
    }

    ghost function Prepend(calls: seq<Call>, v: Visit): Visit {
      Visit(v.run, calls + v.calls, v.halted)
    }

    lemma PrependStep(job: Job, env: Env, order: seq<Id>, run: Run, resume: bool, calls: seq<Call>)
      requires order != [] && forall id :: id in order ==> id in job.nodes && id in job.keys
      ensures order[0] in order
      ensures var v := VisitNode(job, env, order[0], run, resume);
        Prepend(calls, VisitAll(job, env, order, run, resume)) ==
          if v.halted then Prepend(calls, v) else Prepend(calls + v.calls, VisitAll(job, env, order[1..], v.run, resume))
    {
      var v := VisitNode(job, env, order[0], run, resume);
      if !v.halted {
        var rest := VisitAll(job, env, order[1..], v.run, resume);
        assert calls + (v.calls + rest.calls) == calls + v.calls + rest.calls;
      }
    }

    /** One execution of the workflow on the run state. */
    method ExecuteRun(job: Job, s: RunState, resume: bool) returns (ghost calls: seq<Call>)
      requires ValidJob(job)
      modifies s
      ensures Session(s.Snapshot(), calls) == Execute(job, env, old(s.Snapshot()), resume)
    {
      hide RunState.Snapshot, VisitAll;
      calls := [];
      if s.Snapshot().cancelRequested || s.Snapshot().status == Cancelled {
        s.CancelRun();
        return;
      }
      s.Begin(resume);
      var order := Topo.TopoLayers(job.ids, job.links);
      assert order == OrderOf(job);
      var halted;
      halted, calls := WalkNodes(job, s, order, resume);
      if !halted {
        s.Verify(job);
      }
    }
  }
}
