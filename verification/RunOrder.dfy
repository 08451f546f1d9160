/** Dependency order: handlers start after their predecessors, and success means that every node succeeded. */
module RunOrder {
  import opened Wrappers
  import opened Digraph
  import opened Workflow
  import opened Permissions
  import opened RunModel
  import opened RunLaws
  import opened RunSafety
  import opened RunSilence
  import Topo

  /** Every node gets at least one attempt, and no handler raises an exception with an empty message. */
  ghost predicate Loud(job: Job, env: Env) {
    && (forall id :: id in job.ids ==> id in job.nodes && RetryMax(job, id) >= 0)
    && (forall id, n :: env.handle(id, n).outcome != Raised(""))
  }

  lemma {:induction false} SilentIsNotLoud(job: Job, env: Env, id: Id, steps: int, tokens: int, attempt: int)
    requires id in job.nodes && StaysSilent(job, env, id, steps, tokens, attempt)
    ensures exists n :: env.handle(id, n).outcome == Raised("")
    decreases RetryMax(job, id) + 1 - attempt
  {
    if attempt != RetryMax(job, id) {
      SilentIsNotLoud(job, env, id, steps + 1, tokens + Spent(env.handle(id, steps + 1).outcome), attempt + 1);
    }
  }

  lemma LoudPassesNothingOver(job: Job, env: Env, id: Id, a: Run)
    requires id in job.ids && id in job.nodes && id in job.keys && Loud(job, env)
    ensures !PassesOver(job, env, id, a)
  {
    hide StaysSilent, GetsToHandler;
    if PassesOver(job, env, id, a) {
      SilentIsNotLoud(job, env, id, a.steps, a.tokens, 0);
    }
  }

  lemma {:induction false} LoudWalk(job: Job, env: Env, order: seq<Id>, a: Run, resume: bool)
    requires Listed(job, order) && Loud(job, env)
    ensures Skipped(job, env, order, a, resume) == {}
    decreases |order|
  {
    hide VisitNode, PassesOver, Loud;
    if order != [] {
      assert order[0] in order && order == [order[0]] + order[1..];
      LoudPassesNothingOver(job, env, order[0], Faced(a, order[0], resume));
      LoudWalk(job, env, order[1..], VisitNode(job, env, order[0], a, resume).run, resume);
    }
  }

  /** When the handler starts, every predecessor has succeeded or is one of the given nodes. */
  ghost predicate PredsDone(job: Job, passed: set<Id>, c: Call) {
    forall i :: 0 <= i < |job.links| && job.links[i].1 == c.id ==> IsSucceeded(c.before, job.links[i].0) || job.links[i].0 in passed
  }

  ghost predicate AllPredsDone(job: Job, passed: set<Id>, calls: seq<Call>) {
    forall i :: 0 <= i < |calls| ==> PredsDone(job, passed, calls[i])
  }

  ghost predicate DoneOrPassed(run: Run, passed: set<Id>, id: Id) {
    IsSucceeded(run, id) || id in passed
  }

  lemma VisitCallsInOrder(job: Job, order: seq<Id>, k: nat, a: Run, v: Visit, passed: set<Id>)
    requires k < |order| && Distinct(order) && Topo.Forward(job.links, order) && order[k] in job.nodes
    requires forall i :: 0 <= i < k ==> DoneOrPassed(a, passed, order[i])
    requires VisitOk(job, order[k], a, v)
    ensures AllPredsDone(job, passed, v.calls)
  {
    forall n | 0 <= n < |v.calls|
      ensures PredsDone(job, passed, v.calls[n])
    {
      var c := v.calls[n];
      assert VisitCall(job, order[k], a, c);
      forall i | 0 <= i < |job.links| && job.links[i].1 == c.id
        ensures IsSucceeded(c.before, job.links[i].0) || job.links[i].0 in passed
      {
        var u := job.links[i].0;
        assert u in order[..k];
        var j :| 0 <= j < k && order[..k][j] == u;
        assert order[j] == u && u != order[k] && DoneOrPassed(a, passed, u);
      }
    }
  }

  /** A visit leaves the earlier nodes done or passed over, and adds its own node to them. */
  lemma VisitAddsDone(job: Job, env: Env, order: seq<Id>, k: nat, a: Run, passed: set<Id>, resume: bool)
    requires Listed(job, order) && Distinct(order) && k < |order| && a.status == Running && order[k] in job.nodes && order[k] in job.keys
    requires forall i :: 0 <= i < k ==> DoneOrPassed(a, passed, order[i])
    requires var v := VisitNode(job, env, order[k], a, resume); !v.halted && (IsSucceeded(v.run, order[k]) || order[k] in passed)
    ensures forall i :: 0 <= i < k + 1 ==> DoneOrPassed(VisitNode(job, env, order[k], a, resume).run, passed, order[i])
  {
    hide VisitNode, IsSucceeded;
    var v := VisitNode(job, env, order[k], a, resume);
    forall i | 0 <= i < k + 1
      ensures DoneOrPassed(v.run, passed, order[i])
    {
      if i < k {
        OthersStay(job, env, order[k], a, order[i], resume);
      }
    }
  }

  lemma FacedDone(a: Run, id: Id, resume: bool, x: Id)
    requires x != id
    ensures IsSucceeded(Faced(a, id, resume), x) <==> IsSucceeded(a, x)
  {
  }

  lemma {:induction false} VisitAllInOrder(job: Job, env: Env, order: seq<Id>, k: nat, a: Run, passed: set<Id>, resume: bool)
    requires Listed(job, order) && Distinct(order) && Topo.Forward(job.links, order) && k <= |order| && a.status == Running
    requires Listed(job, order[k..]) && Skipped(job, env, order[k..], a, resume) <= passed
    requires forall i :: 0 <= i < k ==> DoneOrPassed(a, passed, order[i])
    ensures AllPredsDone(job, passed, VisitAll(job, env, order[k..], a, resume).calls)
    decreases |order| - k
  {
    hide VisitNode, Topo.Forward, VisitCall, NodeStep, PredsDone, IsSucceeded, WithinTokens, NeedsApproval, PassesOver, Faced;
    if k < |order| {
      var id := order[k];
      assert id in order && order[k..][0] == id && order[k..][1..] == order[k + 1..];
      var v, f := VisitNode(job, env, id, a, resume), Faced(a, id, resume);
      VisitFaces(job, env, id, a, resume);
      FacedStatus(a, id, resume);
      VisitNodeIsOk(job, env, id, f);
      forall i | 0 <= i < k
        ensures DoneOrPassed(f, passed, order[i])
      {
        FacedDone(a, id, resume, order[i]);
      }
      VisitCallsInOrder(job, order, k, f, v, passed);
      if !v.halted {
        VisitLeavesUnfinishedIff(job, env, id, a, resume);
        VisitAddsDone(job, env, order, k, a, passed, resume);
        RunsOn(job, env, id, a, resume);
        VisitAllInOrder(job, env, order, k + 1, v.run, passed, resume);
      }
    }
  }

  lemma FacedStatus(a: Run, id: Id, resume: bool)
    ensures Faced(a, id, resume).status == a.status
  {
  }

  ghost predicate SuccessIsComplete(job: Job, run: Run) {
    run.status == Succeeded ==> AllSucceeded(job, run)
  }

  /** On an acyclic workflow: a handler starts only when every predecessor has succeeded or was passed over in the same execution;
      and when nothing was passed over, reported success means that every node succeeded. */
  lemma ExecuteInOrder(job: Job, env: Env, a: Run, resume: bool)
    requires ValidJob(job) && Acyclic(Topo.ArcsIn(job.links))
    ensures var s, passed := Execute(job, env, a, resume), Skipped(job, env, OrderOf(job), Started(a, resume), resume);
      AllPredsDone(job, passed, s.calls) && (passed == {} && SuccessIsComplete(job, a) ==> SuccessIsComplete(job, s.run))
  {
    hide Acyclic, VisitAll, Topo.TopoOrder, Topo.Forward, IsSucceeded, Skipped;
    if a.cancelRequested || a.status == Cancelled {
      QuietCancel(a);
      assert Cancel(a).nodeStates == a.nodeStates;
      if SuccessIsComplete(job, a) {
        SameNodesComplete(job, a, Cancel(a));
      }
    } else {
      var order, started := OrderOf(job), Started(a, resume);
      Topo.TopoOrderIsTopological(job.ids, job.links);
      OrderListed(job);
      assert order[0..] == order;
      VisitAllInOrder(job, env, order, 0, started, Skipped(job, env, order, started, resume), resume);
      if Execute(job, env, a, resume).run.status == Succeeded {
        forall id | id in job.ids
          ensures !IsSucceeded(Execute(job, env, a, resume).run, id) <==> id in Skipped(job, env, order, started, resume)
        {
          SuccessIsIncompleteIff(job, env, a, id, resume);
        }
      }
    }
  }

  lemma SameNodesComplete(job: Job, a: Run, b: Run)
    requires a.nodeStates == b.nodeStates && SuccessIsComplete(job, a) && (b.status == Succeeded ==> a.status == Succeeded)
    ensures SuccessIsComplete(job, b)
  {
  }

  /** The nodes that one action passes over. */
  ghost function SkippedBy(job: Job, action: Action, run: Run): set<Id>
    requires ValidJob(job)
  {
    if action.Execution? then
      Skipped(WithKeys(job, action.key), action.env, OrderOf(WithKeys(job, action.key)), Started(run, action.resume), action.resume)
    else {}
  }

  /** No execution of the sequence passes a node over. */
  ghost predicate NeverPassesOver(job: Job, actions: seq<Action>)
    requires ValidJob(job)
  {
    forall i :: 0 <= i < |actions| ==> SkippedBy(job, actions[i], History(job, FRESH, actions[..i]).run) == {}
  }

  lemma NeverPassesEarlier(job: Job, actions: seq<Action>)
    requires ValidJob(job) && NeverPassesOver(job, actions) && actions != []
    ensures NeverPassesOver(job, actions[..|actions| - 1])
  {
    hide History, SkippedBy;
    var front := actions[..|actions| - 1];
    assert forall i :: 0 <= i < |front| ==> front[..i] == actions[..i] && front[i] == actions[i];
  }

  /** Handlers that are never silent pass nothing over. */
  lemma LoudNeverPassesOver(job: Job, actions: seq<Action>)
    requires ValidJob(job) && forall i :: 0 <= i < |actions| && actions[i].Execution? ==> Loud(job, actions[i].env)
    ensures NeverPassesOver(job, actions)
  {
    hide Loud, SkippedBy, History, OrderOf;
    forall i | 0 <= i < |actions|
      ensures SkippedBy(job, actions[i], History(job, FRESH, actions[..i]).run) == {}
    {
      LoudAction(job, actions[i], History(job, FRESH, actions[..i]).run);
    }
  }

  lemma LoudAction(job: Job, action: Action, run: Run)
    requires ValidJob(job) && (action.Execution? ==> Loud(job, action.env))
    ensures SkippedBy(job, action, run) == {}
  {
    hide Skipped, OrderOf;
    if action.Execution? {
      var keyed := WithKeys(job, action.key);
      OrderListed(keyed);
      LoudWalk(keyed, action.env, OrderOf(keyed), Started(run, action.resume), action.resume);
    }
  }

  /** Over every sequence of executions on any inputs, resumed or not, cancellations and save-and-load steps from a fresh run in which
      nothing is passed over: handlers start after all their predecessors have succeeded, and reported success means that every node
      succeeded. */
  lemma {:induction false} HistoryInOrder(job: Job, actions: seq<Action>)
    requires ValidJob(job) && Acyclic(Topo.ArcsIn(job.links)) && NeverPassesOver(job, actions)
    ensures var h := History(job, FRESH, actions); AllPredsDone(job, {}, h.calls) && SuccessIsComplete(job, h.run)
    decreases |actions|
  {
    hide Acyclic, Execute, PredsDone, Skipped;
    if actions != [] {
      var n := |actions| - 1;
      NeverPassesEarlier(job, actions);
      HistoryInOrder(job, actions[..n]);
      var before := History(job, FRESH, actions[..n]).run;
      assert SkippedBy(job, actions[n], before) == {};
      match actions[n]
      case Execution(env, key, resume) =>
        ExecuteInOrder(WithKeys(job, key), env, before, resume);
        KeyedPredsDone(job, key, Act(job, before, actions[n]).calls);
      case CancelIt => SameNodesComplete(job, before, Cancel(before));
      case SaveAndLoad => SameNodesComplete(job, before, FromDict(ToDict(before)));
    }
  }

  lemma KeyedPredsDone(job: Job, key: Id -> Key, calls: seq<Call>)
    requires ValidJob(job)
    ensures AllPredsDone(WithKeys(job, key), {}, calls) <==> AllPredsDone(job, {}, calls)
  {
    assert forall c :: PredsDone(WithKeys(job, key), {}, c) <==> PredsDone(job, {}, c);
  }

  // ---------------------------------------------------------------- limits of these guarantees

  function OneNode(retryMax: int, maxSteps: int): Job {
    Job(["n"], [], map["n" := Node("n", "read", NoLoop, [], retryMax)], map["n" := "k"], maxSteps, None, None, false)
  }

  lemma OneNodeOrder(retryMax: int, maxSteps: int)
    ensures ValidJob(OneNode(retryMax, maxSteps)) && OrderOf(OneNode(retryMax, maxSteps)) == ["n"]
  {
    var job := OneNode(retryMax, maxSteps);
    assert job.ids[0] == "n";
    var order := OrderOf(job);
    forall p: seq<Id>
      ensures !IsCycle(Topo.ArcsIn(job.links), p)
    {
    }
    Topo.TopoOrderIsTopological(job.ids, job.links);
    assert "n" in order;
    assert forall i :: 0 <= i < |order| ==> order[i] in order;
    DistinctFits(order, {"n"});
  }

  /** A run whose only handler raises an exception with an empty message reports success and leaves its node unfinished. */
  lemma SilentFailureReportsSuccess(env: Env)
    requires forall id, n :: env.handle(id, n) == Reply(Raised(""), false)
    ensures ValidJob(OneNode(0, 0))
    ensures var run := Execute(OneNode(0, 0), env, FRESH, true).run;
      run.status == Succeeded && !IsSucceeded(run, "n") && run.steps == 1
  {
    hide OrderOf;
    OneNodeOrder(0, 0);
    var job, a := OneNode(0, 0), Started(FRESH, true);
    var r := SetNode(a, "n", NodeState(NodeRunning, 0, NoDetail));
    assert !NeedsApproval(job, "n");
    var t := TryNode(job, env, "n", r, 0, "");
    assert t.verdict == PassedOver;
    assert VisitAll(job, env, ["n"][1..], t.run, true) == Visit(t.run, [], false);
  }

  lemma {:induction false} AllAttemptsFail(job: Job, env: Env, id: Id, run: Run, attempt: int, lastErr: string)
    requires id in job.nodes && id in job.keys && id in run.nodeStates && !run.cancelRequested && attempt <= RetryMax(job, id) + 1
    requires (forall i, n :: env.handle(i, n) == Reply(Raised("e"), false)) && (attempt > 0 ==> lastErr == "e")
    requires attempt >= 0 && RetryMax(job, id) >= 0
    ensures var t := TryNode(job, env, id, run, attempt, lastErr);
      t.verdict == GaveUp("e") && t.run.steps == run.steps + RetryMax(job, id) + 1 - attempt
    decreases RetryMax(job, id) + 1 - attempt
  {
    if attempt <= RetryMax(job, id) {
      var next := Starting(run, id, attempt);
      AllAttemptsFail(job, env, id, next.(events := next.events + [Retried(id, attempt + 1)]), attempt + 1, "e");
    }
  }

  /** The step budget can be exceeded by exactly the retries of a node: the bound on steps is attained. */
  lemma StepBoundIsTight(r: nat, env: Env)
    requires forall id, n :: env.handle(id, n) == Reply(Raised("e"), false)
    ensures ValidJob(OneNode(r, 1))
    ensures Execute(OneNode(r, 1), env, FRESH, true).run.steps == StepLimit(OneNode(r, 1)) + r
  {
    hide OrderOf, TryNode;
    OneNodeOrder(r, 1);
    var job, a := OneNode(r, 1), Started(FRESH, true);
    var s := SetNode(a, "n", NodeState(NodeRunning, 0, NoDetail));
    assert !NeedsApproval(job, "n");
    AllAttemptsFail(job, env, "n", s, 0, "");
  }

  /** Saving and loading a run gives it back exactly when its cache is empty; otherwise only the cache is lost. */
  lemma SaveLoadLosesOnlyCache(run: Run)
    ensures FromDict(ToDict(run)) == run.(cache := map[])
    ensures FromDict(ToDict(run)) == run <==> run.cache == map[]
  {
  }
}
