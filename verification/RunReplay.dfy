/** Resuming after a denied approval: when it ends like a run that was approved at once, and when it does not. */
module RunReplay {
  import opened Wrappers
  import opened Digraph
  import opened Workflow
  import opened Permissions
  import opened RunModel
  import opened RunLaws
  import opened RunSafety
  import opened RunSilence

  /** Equal except for the event log and the list of approvals. */
  ghost predicate Alike(a: Run, b: Run) {
    b == a.(events := b.events, approvals := b.approvals)
  }

  /** Alike, but the second run has made `k` more steps. */
  ghost predicate Ahead(a: Run, b: Run, k: nat) {
    b == a.(events := b.events, approvals := b.approvals, steps := a.steps + k)
  }

  /** In both environments handlers are the same fixed function of the node. */
  ghost predicate SameHandlers(e1: Env, e2: Env) {
    && FixedHandlers(e1)
    && (forall id, m, n :: e1.handle(id, m) == e2.handle(id, n))
  }

  lemma SameAreFixed(e1: Env, e2: Env)
    requires SameHandlers(e1, e2)
    ensures SameHandlers(e2, e2)
  {
    forall id, m, n
      ensures e2.handle(id, m) == e2.handle(id, n)
    {
      assert e1.handle(id, 0) == e2.handle(id, m) && e1.handle(id, 0) == e2.handle(id, n);
    }
  }

  /** The approval callback never cancels. */
  ghost predicate OnlyAnswers(env: Env) {
    forall id, n :: !env.approve(id, n).cancels
  }

  ghost predicate ApprovesAll(env: Env) {
    OnlyAnswers(env) && forall id, n :: env.approve(id, n).approved
  }

  // ---------------------------------------------------------------- two runs, one of them some steps ahead

  lemma SettleAhead(job: Job, id: Id, a: Run, b: Run, k: nat, attempt: int, outcome: HandlerOutcome)
    requires id in job.nodes && id in job.keys && Ahead(a, b, k)
    ensures var s, t := Settle(job, id, a, attempt, outcome), Settle(job, id, b, attempt, outcome);
      Ahead(s.run, t.run, k) && s.Commit? == t.Commit? && s.Halt? == t.Halt? && (s.FailedAttempt? ==> s.message == t.message)
  {
  }

  lemma {:induction false} TryAhead(job: Job, e1: Env, e2: Env, id: Id, a: Run, b: Run, k: nat, attempt: int, lastErr: string)
    requires id in job.nodes && id in job.keys && id in a.nodeStates && Ahead(a, b, k) && SameHandlers(e1, e2)
    requires !IsSucceeded(a, id) && a.status == Running
    ensures var s, t := TryNode(job, e1, id, a, attempt, lastErr), TryNode(job, e2, id, b, attempt, lastErr);
      Ahead(s.run, t.run, k) && s.verdict == t.verdict
    decreases RetryMax(job, id) + 1 - attempt
  {
    hide Settle, Touches, Booked, IsSucceeded;
    if attempt <= RetryMax(job, id) && !a.cancelRequested {
      var x, y := Starting(a, id, attempt), Starting(b, id, attempt);
      var reply := e1.handle(id, x.steps);
      assert reply == e2.handle(id, y.steps);
      StartingIsOk(job, a, id, attempt, reply);
      BookedMeansNot(job, a, AfterReply(x, reply), id);
      SettleFacts(job, id, AfterReply(x, reply), attempt + 1, reply.outcome);
      SettleAhead(job, id, AfterReply(x, reply), AfterReply(y, reply), k, attempt + 1, reply.outcome);
      var s, t := Settle(job, id, AfterReply(x, reply), attempt + 1, reply.outcome), Settle(job, id, AfterReply(y, reply), attempt + 1, reply.outcome);
      if s.FailedAttempt? {
        var p, q := s.run.(events := s.run.events + [Retried(id, attempt + 1)]), t.run.(events := t.run.events + [Retried(id, attempt + 1)]);
        BookedMeansNot(job, AfterReply(x, reply), s.run, id);
        EventOnly(job, s.run, id, Retried(id, attempt + 1));
        BookedMeansNot(job, s.run, p, id);
        TryAhead(job, e1, e2, id, p, q, k, attempt + 1, s.message);
      }
    }
  }

  lemma PerformAhead(job: Job, e1: Env, e2: Env, id: Id, a: Run, b: Run, k: nat)
    requires id in job.nodes && id in job.keys && id in a.nodeStates && Ahead(a, b, k) && SameHandlers(e1, e2)
    requires !IsSucceeded(a, id) && a.status == Running
    ensures var v, w := Perform(job, e1, id, a), Perform(job, e2, id, b); Ahead(v.run, w.run, k) && v.halted == w.halted
  {
    hide TryNode;
    if job.keys[id] !in a.cache {
      TryAhead(job, e1, e2, id, a, b, k, 0, "");
    }
  }

  predicate StoppedBySteps(run: Run) {
    run.status == Failed && run.error == Some(OverBudget(StepBudget))
  }

  /** The second run stays as far ahead as it was, or its step budget stops it where the first run goes on. */
  ghost predicate Follows(v: Visit, w: Visit, k: nat) {
    || (Ahead(v.run, w.run, k) && v.halted == w.halted)
    || (k > 0 && w.halted && StoppedBySteps(w.run))
  }

  /** Apart from its approvals a visit depends only on the state both runs share: either the first run is denied here,
      or the second follows it. */
  lemma VisitAhead(job: Job, e1: Env, e2: Env, id: Id, a: Run, b: Run, k: nat)
    requires id in job.nodes && id in job.keys && Ahead(a, b, k) && SameHandlers(e1, e2) && a.status == Running
    requires OnlyAnswers(e1) && ApprovesAll(e2)
    ensures var v, w := VisitNode(job, e1, id, a, true), VisitNode(job, e2, id, b, true);
      (v.halted && v.run.status == NeedsReview) || Follows(v, w, k)
  {
    hide Perform, NeedsApproval, StepLimit;
    if !a.cancelRequested && !IsSucceeded(a, id) {
      var r := SetNode(a, id, NodeState(NodeRunning, AttemptsBefore(a, id), NoDetail));
      var s := SetNode(b, id, NodeState(NodeRunning, AttemptsBefore(b, id), NoDetail));
      if NeedsApproval(job, id) {
        var yes, granted := e1.approve(id, |r.approvals|), e2.approve(id, |s.approvals|);
        if yes.approved {
          PerformAhead(job, e1, e2, id, Asked(r, id, yes), Asked(s, id, granted), k);
        }
      } else {
        PerformAhead(job, e1, e2, id, r, s, k);
      }
    }
  }

  lemma {:induction false} TryStatus(job: Job, env: Env, id: Id, run: Run, attempt: int, lastErr: string)
    requires id in job.nodes && id in job.keys && id in run.nodeStates && !IsSucceeded(run, id) && run.status == Running
    ensures TryNode(job, env, id, run, attempt, lastErr).run.status != NeedsReview
  {
    hide TryNode, Booked, Touches;
    TryNodeIsOk(job, env, id, run, attempt, lastErr);
  }

  /** A visit asks for review only after a denial. */
  lemma NotDenied(job: Job, env: Env, id: Id, a: Run)
    requires id in job.nodes && id in job.keys && ApprovesAll(env) && a.status == Running
    ensures VisitNode(job, env, id, a, true).run.status != NeedsReview
  {
    hide TryNode, NeedsApproval;
    if !IsSucceeded(a, id) {
      var r := SetNode(a, id, NodeState(NodeRunning, AttemptsBefore(a, id), NoDetail));
      TryStatus(job, env, id, r, 0, "");
      TryStatus(job, env, id, Asked(r, id, env.approve(id, |r.approvals|)), 0, "");
    }
  }

  lemma {:induction false} WalkAlike(job: Job, env: Env, order: seq<Id>, a: Run, b: Run)
    requires Listed(job, order) && Ahead(a, b, 0) && SameHandlers(env, env) && ApprovesAll(env) && a.status == Running
    ensures var v, w := VisitAll(job, env, order, a, true), VisitAll(job, env, order, b, true); Ahead(v.run, w.run, 0) && v.halted == w.halted
    decreases |order|
  {
    hide VisitNode, IsSucceeded, SameHandlers, ApprovesAll;
    if order != [] {
      var id := order[0];
      assert id in order && order == [id] + order[1..];
      ApprovesAllAnswers(env);
      VisitAhead(job, env, env, id, a, b, 0);
      NotDenied(job, env, id, a);
      var v, w := VisitNode(job, env, id, a, true), VisitNode(job, env, id, b, true);
      if !v.halted {
        RunsOn(job, env, id, a, true);
        WalkAlike(job, env, order[1..], v.run, w.run);
      }
    }
  }

  lemma ApprovesAllAnswers(env: Env)
    requires ApprovesAll(env)
    ensures OnlyAnswers(env)
  {
  }

  // ---------------------------------------------------------------- stopped by the step budget

  /** No node of the list is marked as running, as an earlier execution leaves the nodes it passed over. */
  ghost predicate NoneRunning(run: Run, order: seq<Id>) {
    forall id :: id in order && id in run.nodeStates ==> run.nodeStates[id].status != NodeRunning
  }

  ghost predicate MarkedRunning(run: Run, id: Id) {
    id in run.nodeStates && run.nodeStates[id].status == NodeRunning
  }

  lemma {:induction false} TryNotBySteps(job: Job, env: Env, id: Id, run: Run, attempt: int, lastErr: string)
    requires id in job.nodes && id in job.keys && id in run.nodeStates && run.status == Running
    ensures var t := TryNode(job, env, id, run, attempt, lastErr); t.verdict.Halted? ==> !StoppedBySteps(t.run)
    decreases RetryMax(job, id) + 1 - attempt
  {
    hide EvaluateNodeAction, MayAutoApply, ClassOrDefault;
    if attempt <= RetryMax(job, id) && !run.cancelRequested {
      var starting := Starting(run, id, attempt);
      var reply := env.handle(id, starting.steps);
      var s := Settle(job, id, AfterReply(starting, reply), attempt + 1, reply.outcome);
      if s.FailedAttempt? {
        TryNotBySteps(job, env, id, s.run.(events := s.run.events + [Retried(id, attempt + 1)]), attempt + 1, s.message);
      }
    }
  }

  /** A visit stopped by the step budget starts with the budget used up, and leaves the node marked as running. */
  lemma VisitStoppedBySteps(job: Job, env: Env, id: Id, a: Run)
    requires id in job.nodes && id in job.keys && a.status == Running
    requires VisitNode(job, env, id, a, true).halted && StoppedBySteps(VisitNode(job, env, id, a, true).run)
    ensures a.steps >= StepLimit(job) && MarkedRunning(VisitNode(job, env, id, a, true).run, id)
    ensures VisitNode(job, env, id, a, true).run.steps == a.steps
  {
    hide TryNode, NeedsApproval, StepLimit;
    if !a.cancelRequested && !IsSucceeded(a, id) {
      var r := SetNode(a, id, NodeState(NodeRunning, AttemptsBefore(a, id), NoDetail));
      TryNotBySteps(job, env, id, r, 0, "");
      TryNotBySteps(job, env, id, Asked(r, id, env.approve(id, |r.approvals|)), 0, "");
    }
  }

  lemma OthersSame(job: Job, env: Env, id: Id, a: Run)
    requires id in job.nodes && id in job.keys && a.status == Running
    ensures SameOthers(a, VisitNode(job, env, id, a, true).run, id)
  {
    hide VisitNode, VisitCall, WithinTokens, Commits, Wrote;
    VisitNodeIsOk(job, env, id, a);
  }

  /** A walk leaves all other nodes as they are. */
  lemma {:induction false} WalkKeepsStates(job: Job, env: Env, order: seq<Id>, a: Run, x: Id)
    requires Listed(job, order) && a.status == Running && x !in order
    ensures var b := VisitAll(job, env, order, a, true).run;
      (x in b.nodeStates <==> x in a.nodeStates) && (x in a.nodeStates ==> b.nodeStates[x] == a.nodeStates[x])
    decreases |order|
  {
    hide VisitNode;
    if order != [] {
      assert order[0] in order && order == [order[0]] + order[1..];
      OthersSame(job, env, order[0], a);
      if !VisitNode(job, env, order[0], a, true).halted {
        RunsOn(job, env, order[0], a, true);
        WalkKeepsStates(job, env, order[1..], VisitNode(job, env, order[0], a, true).run, x);
      }
    }
  }

  lemma {:induction false} WalkStoppedBySteps(job: Job, env: Env, order: seq<Id>, a: Run) returns (y: Id)
    requires Listed(job, order) && a.status == Running && StoppedBySteps(VisitAll(job, env, order, a, true).run)
    ensures y in order && MarkedRunning(VisitAll(job, env, order, a, true).run, y)
    decreases |order|
  {
    hide VisitNode, MarkedRunning;
    assert order[0] in order && order == [order[0]] + order[1..];
    var v := VisitNode(job, env, order[0], a, true);
    if v.halted {
      y := order[0];
      VisitStoppedBySteps(job, env, y, a);
    } else {
      RunsOn(job, env, order[0], a, true);
      y := WalkStoppedBySteps(job, env, order[1..], v.run);
    }
  }

  ghost predicate Apart(v: Visit, w: Visit) {
    v.halted != w.halted || v.run.steps != w.run.steps || v.run.nodeStates != w.run.nodeStates || (v.halted && !Alike(v.run, w.run))
  }

  /** The two ends can be told apart, unless both runs may have been stopped by the step budget. */
  ghost predicate EndsDiffer(a: Run, order: seq<Id>, v: Visit, w: Visit) {
    NoneRunning(a, order) || !StoppedBySteps(v.run) ==> Apart(v, w)
  }

  /** A run that is ahead of another ends differently. */
  lemma {:induction false} WalkDiffers(job: Job, env: Env, order: seq<Id>, a: Run, b: Run, k: nat)
    requires Listed(job, order) && Distinct(order) && Ahead(a, b, k) && k > 0 && SameHandlers(env, env) && ApprovesAll(env) && a.status == Running
    ensures EndsDiffer(a, order, VisitAll(job, env, order, a, true), VisitAll(job, env, order, b, true))
    decreases |order|
  {
    hide VisitNode, IsSucceeded, SameHandlers, ApprovesAll, NoneRunning, StoppedBySteps;
    if order != [] {
      var id, rest := order[0], order[1..];
      assert id in order && order == [id] + rest;
      HeadNotInTail(order);
      ApprovesAllAnswers(env);
      VisitAhead(job, env, env, id, a, b, k);
      NotDenied(job, env, id, a);
      var v, w := VisitNode(job, env, id, a, true), VisitNode(job, env, id, b, true);
      if Ahead(v.run, w.run, k) && v.halted == w.halted {
        if !v.halted {
          RunsOn(job, env, id, a, true);
          OthersSame(job, env, id, a);
          NoneRunningLater(a, v.run, id, rest);
          WalkDiffers(job, env, rest, v.run, w.run, k);
        }
      } else {
        StopDiffers(job, env, order, a, b, k);
      }
    }
  }

  lemma NoneRunningLater(a: Run, b: Run, id: Id, rest: seq<Id>)
    requires SameOthers(a, b, id) && id !in rest
    ensures NoneRunning(a, [id] + rest) ==> NoneRunning(b, rest)
  {
    if NoneRunning(a, [id] + rest) {
      forall x | x in rest && x in b.nodeStates
        ensures b.nodeStates[x].status != NodeRunning
      {
        assert x in [id] + rest && x in a.nodeStates;
      }
    }
  }

  /** A mark on a node that had none and was not visited. */
  lemma LaterMark(b: Run, w: Run, x: Run, order: seq<Id>, id: Id, y: Id)
    requires NoneRunning(b, order) && y in order && y != id && SameOthers(b, w, id) && MarkedRunning(x, y)
    ensures x.nodeStates != w.nodeStates
  {
    assert y in w.nodeStates <==> y in b.nodeStates;
  }

  /** Where the second run is stopped and the first goes on, the first ends in another way or marks a later node. */
  lemma StopDiffers(job: Job, env: Env, order: seq<Id>, a: Run, b: Run, k: nat)
    requires order != [] && Listed(job, order) && Distinct(order) && Ahead(a, b, k) && k > 0 && a.status == Running
    requires var w := VisitNode(job, env, order[0], b, true); w.halted && StoppedBySteps(w.run)
    ensures EndsDiffer(a, order, VisitAll(job, env, order, a, true), VisitAll(job, env, order, b, true))
  {
    hide VisitNode, IsSucceeded, SameOthers, NoneRunning, MarkedRunning;
    var id, rest := order[0], order[1..];
    assert id in order && order == [id] + rest;
    HeadNotInTail(order);
    var v, w, end := VisitNode(job, env, id, a, true), VisitNode(job, env, id, b, true), VisitAll(job, env, order, a, true);
    VisitStoppedBySteps(job, env, id, b);
    if !StoppedBySteps(end.run) {
      StoppedApart(end, w);
    } else if v.halted {
      VisitStoppedBySteps(job, env, id, a);
    } else if NoneRunning(a, order) {
      RunsOn(job, env, id, a, true);
      OthersSame(job, env, id, b);
      var y := WalkStoppedBySteps(job, env, rest, v.run);
      SameNoneRunning(a, b, order);
      LaterMark(b, w.run, end.run, order, id, y);
    }
  }

  lemma StoppedApart(v: Visit, w: Visit)
    requires w.halted && StoppedBySteps(w.run) && !StoppedBySteps(v.run)
    ensures Apart(v, w)
  {
  }

  lemma SameNoneRunning(a: Run, b: Run, order: seq<Id>)
    requires a.nodeStates == b.nodeStates
    ensures NoneRunning(a, order) <==> NoneRunning(b, order)
  {
  }

  // ---------------------------------------------------------------- the denial

  ghost predicate WithinBudgets(job: Job, run: Run) {
    && run.steps < StepLimit(job) && (job.maxTokens.Some? ==> run.tokens < job.maxTokens.value)
    && (job.maxFiles.Some? ==> run.files < job.maxFiles.value)
  }

  ghost predicate Waits(run: Run, id: Id) {
    id in run.nodeStates && run.nodeStates[id].status == NodeNeedsApproval
  }

  /** What a denial leaves behind: the run as it was, with the node waiting and one more request on record. */
  lemma DeniedState(job: Job, env: Env, id: Id, a: Run)
    requires id in job.nodes && id in job.keys && a.status == Running && OnlyAnswers(env)
    requires VisitNode(job, env, id, a, true).halted && VisitNode(job, env, id, a, true).run.status == NeedsReview
    ensures var d := VisitNode(job, env, id, a, true).run;
      && !IsSucceeded(a, id) && !a.cancelRequested && WithinBudgets(job, a) && NeedsApproval(job, id)
      && d == a.(status := NeedsReview, events := d.events, approvals := d.approvals,
                 nodeStates := a.nodeStates[id := NodeState(NodeNeedsApproval, AttemptsBefore(a, id), NoDetail)])
  {
    hide TryNode, NeedsApproval, StepLimit;
    if !IsSucceeded(a, id) {
      var r := SetNode(a, id, NodeState(NodeRunning, AttemptsBefore(a, id), NoDetail));
      TryStatus(job, env, id, r, 0, "");
      TryStatus(job, env, id, Asked(r, id, env.approve(id, |r.approvals|)), 0, "");
      var d := VisitNode(job, env, id, a, true).run;
      assert d.nodeStates == a.nodeStates[id := NodeState(NodeNeedsApproval, AttemptsBefore(a, id), NoDetail)];
    }
  }

  /** A walk that ends in a denial. */
  ghost predicate EndsDenied(job: Job, env: Env, order: seq<Id>, a: Run) {
    && Listed(job, order) && Distinct(order) && a.status == Running && OnlyAnswers(env)
    && var v := VisitAll(job, env, order, a, true); v.halted && v.run.status == NeedsReview
  }

  /** The first visit of such a walk is the denial, or the rest of the walk ends in it. */
  lemma DeniedStep(job: Job, env: Env, order: seq<Id>, a: Run)
    requires EndsDenied(job, env, order, a)
    ensures a.status == Running && Listed(job, order) && Listed(job, order[1..]) && Distinct(order) && OnlyAnswers(env)
    ensures order != [] && order == [order[0]] + order[1..] && order[0] in order && order[0] !in order[1..] && order[0] in job.nodes && order[0] in job.keys
    ensures var v := VisitNode(job, env, order[0], a, true);
      if v.halted then v.run.status == NeedsReview else EndsDenied(job, env, order[1..], v.run)
  {
    hide VisitNode, OnlyAnswers;
    assert order[0] in order && order == [order[0]] + order[1..];
    HeadNotInTail(order);
    if !VisitNode(job, env, order[0], a, true).halted {
      RunsOn(job, env, order[0], a, true);
    }
  }

  /** Up to the denial nobody asks for the run to be cancelled, and there it is within its budgets. */
  lemma {:induction false} DeniedFacts(job: Job, env: Env, order: seq<Id>, a: Run)
    requires EndsDenied(job, env, order, a)
    ensures var d := VisitAll(job, env, order, a, true).run; !d.cancelRequested && !a.cancelRequested && WithinBudgets(job, d)
    decreases |order|
  {
    hide VisitNode, OnlyAnswers, EndsDenied;
    DeniedStep(job, env, order, a);
    var v := VisitNode(job, env, order[0], a, true);
    if v.halted {
      DeniedIsWithin(job, env, order, a);
    } else {
      DeniedFacts(job, env, order[1..], v.run);
      KeepsCancel(job, env, order[0], a);
    }
  }

  lemma KeepsCancel(job: Job, env: Env, id: Id, a: Run)
    requires id in job.nodes && id in job.keys && a.status == Running
    ensures a.cancelRequested ==> VisitNode(job, env, id, a, true).run.cancelRequested
  {
    hide VisitNode, VisitCall, WithinTokens, Commits, Wrote;
    VisitNodeIsOk(job, env, id, a);
  }

  lemma DeniedIsWithin(job: Job, env: Env, order: seq<Id>, a: Run)
    requires EndsDenied(job, env, order, a) && order[0] in job.nodes && order[0] in job.keys
    requires VisitNode(job, env, order[0], a, true).halted && VisitNode(job, env, order[0], a, true).run.status == NeedsReview
    ensures var d := VisitAll(job, env, order, a, true).run; !d.cancelRequested && !a.cancelRequested && WithinBudgets(job, d)
  {
    hide VisitNode;
    DeniedState(job, env, order[0], a);
  }

  // ---------------------------------------------------------------- visiting a passed-over node

  function Tries(job: Job, id: Id): nat
    requires id in job.nodes
  {
    if RetryMax(job, id) < 0 then 0 else RetryMax(job, id) + 1
  }

  /** The run after a mute handler made all its attempts. */
  function Muted(job: Job, id: Id, a: Run): Run
    requires id in job.nodes
  {
    a.(steps := a.steps + Tries(job, id),
       nodeStates := a.nodeStates[id := NodeState(NodeRunning, if RetryMax(job, id) < 0 then AttemptsBefore(a, id) else Tries(job, id), NoDetail)])
  }

  lemma {:induction false} TryMute(job: Job, env: Env, id: Id, run: Run, attempt: int)
    requires id in job.nodes && id in job.keys && id in run.nodeStates && FixedHandlers(env) && env.handle(id, 0) == Reply(Raised(""), false)
    requires !run.cancelRequested && 0 <= attempt <= RetryMax(job, id) + 1
    ensures var t := TryNode(job, env, id, run, attempt, "");
      && t.verdict == PassedOver
      && t.run == run.(events := t.run.events, steps := run.steps + RetryMax(job, id) + 1 - attempt, nodeStates := t.run.nodeStates)
      && t.run.nodeStates == if attempt > RetryMax(job, id) then run.nodeStates
                             else run.nodeStates[id := run.nodeStates[id].(attempts := RetryMax(job, id) + 1)]
    decreases RetryMax(job, id) + 1 - attempt
  {
    if attempt <= RetryMax(job, id) {
      var starting := Starting(run, id, attempt);
      var reply := env.handle(id, starting.steps);
      assert reply == env.handle(id, 0);
      var s := Settle(job, id, AfterReply(starting, reply), attempt + 1, reply.outcome);
      var next := s.run.(events := s.run.events + [Retried(id, attempt + 1)]);
      TryMute(job, env, id, next, attempt + 1);
      var t := TryNode(job, env, id, run, attempt, "");
      assert t.run.nodeStates == run.nodeStates[id := run.nodeStates[id].(attempts := RetryMax(job, id) + 1)];
    }
  }

  /** A visit to a mute node that gets to its handler. */
  lemma MuteVisit(job: Job, env: Env, id: Id, a: Run)
    requires id in job.nodes && id in job.keys && GetsToHandler(job, env, id, a) && FixedHandlers(env) && OnlyAnswers(env)
    requires RetryMax(job, id) < 0 || env.handle(id, 0) == Reply(Raised(""), false)
    ensures var v := VisitNode(job, env, id, a, true); !v.halted && Alike(Muted(job, id, a), v.run)
  {
    hide TryNode, NeedsApproval, StepLimit, FixedHandlers;
    VisitPerforms(job, env, id, a);
    var ready := Readied(job, env, id, a);
    assert !ready.cancelRequested && job.keys[id] !in ready.cache;
    if RetryMax(job, id) < 0 {
      NoTry(job, env, id, ready);
    } else {
      TryMute(job, env, id, ready, 0);
    }
    var v := VisitNode(job, env, id, a, true);
    assert v.run.nodeStates == Muted(job, id, a).nodeStates;
  }

  lemma NoTry(job: Job, env: Env, id: Id, run: Run)
    requires id in job.nodes && id in job.keys && id in run.nodeStates && RetryMax(job, id) < 0
    ensures TryNode(job, env, id, run, 0, "") == Attempts(run, [], PassedOver)
  {
  }

  lemma {:induction false} MuteCancels(job: Job, env: Env, id: Id, run: Run)
    requires id in job.nodes && id in job.keys && id in run.nodeStates && RetryMax(job, id) >= 0 && FixedHandlers(env) && env.handle(id, 0).cancels
    requires !IsSucceeded(run, id) && run.status == Running && !run.cancelRequested && env.handle(id, 0).outcome == Raised("")
    ensures TryNode(job, env, id, run, 0, "").run.cancelRequested
  {
    hide TryNode, Touches, Booked, CallOk;
    var starting := Starting(run, id, 0);
    var reply := env.handle(id, starting.steps);
    assert reply == env.handle(id, 0);
    var after := AfterReply(starting, reply);
    var next := after.(events := after.events + [Retried(id, 1)]);
    assert !IsSucceeded(next, id) && next.cancelRequested;
    TryNodeIsOk(job, env, id, next, 1, "");
    TouchesCancel(next, TryNode(job, env, id, next, 1, "").run, id);
    FirstAttempt(job, env, id, run, next);
  }

  lemma TouchesCancel(a: Run, b: Run, id: Id)
    requires Touches(a, b, id) && a.cancelRequested
    ensures b.cancelRequested
  {
  }

  lemma FirstAttempt(job: Job, env: Env, id: Id, run: Run, next: Run)
    requires id in job.nodes && id in job.keys && id in run.nodeStates && RetryMax(job, id) >= 0 && !run.cancelRequested
    requires var starting := Starting(run, id, 0);
      var reply := env.handle(id, starting.steps);
      reply.outcome == Raised("") && next == AfterReply(starting, reply).(events := run.events + [Retried(id, 1)])
    requires id in next.nodeStates
    ensures TryNode(job, env, id, run, 0, "").run == TryNode(job, env, id, next, 1, "").run
  {
  }

  /** A node that is passed over without asking for cancellation has a handler that would do the same again. */
  lemma PassedIsMute(job: Job, env: Env, id: Id, a: Run)
    requires id in job.nodes && id in job.keys && a.status == Running && FixedHandlers(env) && OnlyAnswers(env)
    requires PassesOver(job, env, id, a) && !VisitNode(job, env, id, a, true).run.cancelRequested
    ensures GetsToHandler(job, env, id, a) && (RetryMax(job, id) < 0 || env.handle(id, 0) == Reply(Raised(""), false))
  {
    hide TryNode, NeedsApproval, StepLimit, FixedHandlers, StaysSilent;
    if RetryMax(job, id) >= 0 {
      SilentIsMute(job, env, id, a.steps, a.tokens, 0);
      if env.handle(id, 0).cancels {
        VisitPerforms(job, env, id, a);
        MuteCancels(job, env, id, Readied(job, env, id, a));
      }
    }
  }

  // ---------------------------------------------------------------- the resumed walk

  /** No node that was passed over on the way got an attempt, and none of them finds a cached result. */
  ghost predicate Replayable(job: Job, env: Env, order: seq<Id>, a: Run, cache: map<Key, HandlerOutcome>)
    requires forall id :: id in order ==> id in job.nodes && id in job.keys
  {
    forall id :: id in Skipped(job, env, order, a, true) ==>
      id in job.nodes && id in job.keys && RetryMax(job, id) < 0 && job.keys[id] !in cache
  }

  /** The denied walk from `a`, the approved run `b` alike `a`, and the denied run `d` restarted, `k` steps ahead. */
  ghost predicate Replays(job: Job, e1: Env, e2: Env, order: seq<Id>, a: Run, b: Run, d: Run, k: nat) {
    && EndsDenied(job, e1, order, a) && SameHandlers(e1, e2) && ApprovesAll(e2) && Ahead(a, b, 0) && d.status == Running
    && Ahead(VisitAll(job, e1, order, a, true).run.(status := Running), d, k)
  }

  /** What is known when the first node of the walk is not the one that was denied. */
  lemma RevisitFacts(job: Job, e1: Env, e2: Env, order: seq<Id>, a: Run, b: Run, d: Run, k: nat)
    requires Replays(job, e1, e2, order, a, b, d, k) && order != [] && order[0] in job.nodes && order[0] in job.keys
    requires !VisitNode(job, e1, order[0], a, true).halted
    ensures var id, v1, vb := order[0], VisitNode(job, e1, order[0], a, true), VisitNode(job, e2, order[0], b, true);
      && Ahead(v1.run, vb.run, 0) && !vb.halted && !v1.run.cancelRequested && !d.cancelRequested && vb.run.status == Running
      && (k == 0 || d.steps < StepLimit(job) ==> WithinBudgets(job, d))
      && (WithinBudgets(job, d) || d.steps >= StepLimit(job))
      && (id in v1.run.nodeStates <==> id in d.nodeStates) && (id in d.nodeStates ==> d.nodeStates[id] == v1.run.nodeStates[id])
  {
    hide VisitNode, SameHandlers, ApprovesAll, OnlyAnswers, IsSucceeded, StepLimit, EndsDenied;
    var id, rest := order[0], order[1..];
    DeniedStep(job, e1, order, a);
    DeniedFacts(job, e1, order, a);
    VisitAhead(job, e1, e2, id, a, b, 0);
    RunsOn(job, e1, id, a, true);
    var v1 := VisitNode(job, e1, id, a, true);
    DeniedFacts(job, e1, rest, v1.run);
    WalkKeepsStates(job, e1, rest, v1.run, id);
  }

  /** The rest of the walk replays the rest, once the restarted run is where the denied walk had been after this node. */
  lemma ReplaysOn(job: Job, e1: Env, e2: Env, order: seq<Id>, a: Run, b: Run, d: Run, k: nat, next: Run, n: nat)
    requires Replays(job, e1, e2, order, a, b, d, k) && order != [] && order[0] in job.nodes && order[0] in job.keys
    requires !VisitNode(job, e1, order[0], a, true).halted && Ahead(d, next, n)
    ensures Replays(job, e1, e2, order[1..], VisitNode(job, e1, order[0], a, true).run, VisitNode(job, e2, order[0], b, true).run, next, k + n)
    ensures NoneRunning(a, order) ==> NoneRunning(VisitNode(job, e1, order[0], a, true).run, order[1..])
  {
    hide VisitNode, SameHandlers, ApprovesAll, OnlyAnswers, IsSucceeded, StepLimit, EndsDenied;
    RevisitFacts(job, e1, e2, order, a, b, d, k);
    DeniedStep(job, e1, order, a);
    OthersSame(job, e1, order[0], a);
    NoneRunningLater(a, VisitNode(job, e1, order[0], a, true).run, order[0], order[1..]);
  }

  lemma {:induction false} TryMarks(job: Job, env: Env, id: Id, run: Run, attempt: int, lastErr: string)
    requires id in job.nodes && id in job.keys && id in run.nodeStates && run.nodeStates[id].status == NodeRunning
    ensures !Waits(TryNode(job, env, id, run, attempt, lastErr).run, id)
    decreases RetryMax(job, id) + 1 - attempt
  {
    hide EvaluateNodeAction, MayAutoApply, ClassOrDefault;
    if attempt <= RetryMax(job, id) && !run.cancelRequested {
      var starting := Starting(run, id, attempt);
      var reply := env.handle(id, starting.steps);
      var s := Settle(job, id, AfterReply(starting, reply), attempt + 1, reply.outcome);
      if s.FailedAttempt? {
        TryMarks(job, env, id, s.run.(events := s.run.events + [Retried(id, attempt + 1)]), attempt + 1, s.message);
      }
    }
  }

  lemma VisitLifts(job: Job, env: Env, id: Id, a: Run)
    requires id in job.nodes && id in job.keys && ApprovesAll(env) && !a.cancelRequested && !IsSucceeded(a, id)
    ensures !Waits(VisitNode(job, env, id, a, true).run, id)
  {
    hide TryNode, NeedsApproval, StepLimit;
    var r := SetNode(a, id, NodeState(NodeRunning, AttemptsBefore(a, id), NoDetail));
    TryMarks(job, env, id, r, 0, "");
    TryMarks(job, env, id, Asked(r, id, env.approve(id, |r.approvals|)), 0, "");
  }

  /** The node that was denied waits after the denial, and does not wait at the end of the approved run. */
  lemma {:induction false} DenialIsLifted(job: Job, e1: Env, e2: Env, order: seq<Id>, a: Run, b: Run) returns (z: Id)
    requires EndsDenied(job, e1, order, a) && SameHandlers(e1, e2) && ApprovesAll(e2) && Ahead(a, b, 0)
    ensures z in order && Waits(VisitAll(job, e1, order, a, true).run, z) && !Waits(VisitAll(job, e2, order, b, true).run, z)
    decreases |order|
  {
    hide VisitNode, SameHandlers, ApprovesAll, OnlyAnswers, IsSucceeded, EndsDenied;
    DeniedStep(job, e1, order, a);
    var id, rest := order[0], order[1..];
    var v1, vb := VisitNode(job, e1, id, a, true), VisitNode(job, e2, id, b, true);
    if v1.halted {
      z := id;
      DeniedState(job, e1, id, a);
      NotSucceededAlike(a, b, id);
      VisitLifts(job, e2, id, b);
      if !vb.halted {
        RunsOn(job, e2, id, b, true);
        WalkKeepsStates(job, e2, rest, vb.run, id);
      }
    } else {
      VisitAhead(job, e1, e2, id, a, b, 0);
      RunsOn(job, e1, id, a, true);
      z := DenialIsLifted(job, e1, e2, rest, v1.run, vb.run);
    }
  }

  lemma NotSucceededAlike(a: Run, b: Run, id: Id)
    requires a.nodeStates == b.nodeStates
    ensures IsSucceeded(a, id) <==> IsSucceeded(b, id)
  {
  }

  /** The restarted run is stopped by its step budget on the way back to the denied node, which still waits then. */
  lemma StoppedOnTheWay(job: Job, e1: Env, e2: Env, order: seq<Id>, a: Run, b: Run, d: Run, k: nat)
    requires Replays(job, e1, e2, order, a, b, d, k) && order != [] && order[0] in job.nodes && order[0] in job.keys
    requires !VisitNode(job, e1, order[0], a, true).halted && VisitNode(job, e2, order[0], d, true).halted
    ensures VisitAll(job, e2, order, b, true).run.nodeStates != VisitAll(job, e2, order, d, true).run.nodeStates
  {
    hide VisitNode, SameHandlers, ApprovesAll, OnlyAnswers, IsSucceeded, StepLimit, EndsDenied;
    var id, rest := order[0], order[1..];
    RevisitFacts(job, e1, e2, order, a, b, d, k);
    DeniedStep(job, e1, order, a);
    var v1, vb := VisitNode(job, e1, id, a, true), VisitNode(job, e2, id, b, true);
    var z := DenialIsLifted(job, e1, e2, rest, v1.run, vb.run);
    OthersSame(job, e2, id, d);
    var end := VisitAll(job, e2, order, d, true).run;
    assert Waits(d, z) && z != id;
    assert Waits(end, z);
  }

  /** From the denied node on. */
  lemma DenialReplays(job: Job, e1: Env, e2: Env, order: seq<Id>, a: Run, b: Run, d: Run, k: nat)
    requires Replays(job, e1, e2, order, a, b, d, k) && order != [] && order[0] in job.nodes && order[0] in job.keys
    requires VisitNode(job, e1, order[0], a, true).halted
    ensures var v, w := VisitAll(job, e2, order, b, true), VisitAll(job, e2, order, d, true);
      if k == 0 then Ahead(v.run, w.run, 0) && v.halted == w.halted else EndsDiffer(a, order, v, w)
    ensures Skipped(job, e1, order, a, true) == {}
  {
    hide VisitNode, SameHandlers, ApprovesAll, OnlyAnswers, IsSucceeded, StepLimit, EndsDenied, PassesOver, StoppedBySteps, NeedsApproval;
    var id := order[0];
    DeniedStep(job, e1, order, a);
    DeniedState(job, e1, id, a);
    ResumedLeavesUnfinishedIff(job, e1, id, a);
    SameAreFixed(e1, e2);
    var waiting := b.(nodeStates := a.nodeStates[id := NodeState(NodeNeedsApproval, AttemptsBefore(a, id), NoDetail)]);
    NotSucceededAlike(a, b, id);
    VisitWaiting(job, e2, id, b, waiting);
    WaitingNotRunning(a, waiting, id, order);
    if k == 0 {
      WalkAlike(job, e2, order, waiting, d);
    } else {
      WalkDiffers(job, e2, order, waiting, d, k);
    }
  }

  lemma WaitingNotRunning(a: Run, waiting: Run, id: Id, order: seq<Id>)
    requires waiting.nodeStates == a.nodeStates[id := NodeState(NodeNeedsApproval, AttemptsBefore(a, id), NoDetail)]
    ensures NoneRunning(a, order) ==> NoneRunning(waiting, order)
  {
  }

  /** A visit does not read that the node waits. */
  lemma VisitWaiting(job: Job, env: Env, id: Id, b: Run, waiting: Run)
    requires id in job.nodes && id in job.keys && !IsSucceeded(b, id) && !b.cancelRequested
    requires waiting == b.(nodeStates := b.nodeStates[id := NodeState(NodeNeedsApproval, AttemptsBefore(b, id), NoDetail)])
    ensures VisitNode(job, env, id, waiting, true) == VisitNode(job, env, id, b, true)
  {
    hide Perform, NeedsApproval, StepLimit;
    var state := NodeState(NodeRunning, AttemptsBefore(b, id), NoDetail);
    var r, s := SetNode(b, id, state), SetNode(waiting, id, state);
    assert r.nodeStates == s.nodeStates;
    assert r == s;
  }

  lemma SkipsSucceeded(job: Job, env: Env, id: Id, d: Run)
    requires id in job.nodes && id in job.keys && IsSucceeded(d, id) && !d.cancelRequested
    ensures VisitNode(job, env, id, d, true) == Visit(d.(events := d.events + [SkippedOnResume(id)]), [], false)
  {
  }

  /** A passed-over node that finds a cached result now succeeds. */
  lemma CachedDiffers(job: Job, e1: Env, e2: Env, order: seq<Id>, a: Run, b: Run, d: Run, k: nat)
    requires Replays(job, e1, e2, order, a, b, d, k) && order != [] && order[0] in job.nodes && order[0] in job.keys
    requires PassesOver(job, e1, order[0], a) && job.keys[order[0]] in d.cache && WithinBudgets(job, d)
    ensures VisitAll(job, e2, order, b, true).run.nodeStates != VisitAll(job, e2, order, d, true).run.nodeStates
  {
    hide VisitNode, SameHandlers, OnlyAnswers, IsSucceeded, StepLimit, EndsDenied, PassesOver;
    var id, rest := order[0], order[1..];
    DeniedStep(job, e1, order, a);
    ResumedLeavesUnfinishedIff(job, e1, id, a);
    RevisitFacts(job, e1, e2, order, a, b, d, k);
    var v1, vb, w := VisitNode(job, e1, id, a, true), VisitNode(job, e2, id, b, true), VisitNode(job, e2, id, d, true);
    SameDone(v1.run, d, id);
    NotSucceededAlike(v1.run, vb.run, id);
    CachedVisit(job, e2, id, d);
    RunsOn(job, e2, id, d, true);
    WalkKeepsOthers(job, e2, rest, vb.run, id, true);
    WalkKeepsOthers(job, e2, rest, w.run, id, true);
    var x, y := VisitAll(job, e2, order, b, true).run, VisitAll(job, e2, order, d, true).run;
    assert x.nodeStates == y.nodeStates ==> false by {
      NotSucceededIfSame(x, y, id);
    }
  }

  lemma NotSucceededIfSame(a: Run, b: Run, id: Id)
    ensures a.nodeStates == b.nodeStates ==> (IsSucceeded(a, id) <==> IsSucceeded(b, id))
  {
  }

  lemma SameDone(a: Run, b: Run, id: Id)
    requires (id in a.nodeStates <==> id in b.nodeStates) && (id in b.nodeStates ==> b.nodeStates[id] == a.nodeStates[id])
    ensures IsSucceeded(a, id) <==> IsSucceeded(b, id)
  {
  }

  lemma CachedVisit(job: Job, env: Env, id: Id, d: Run)
    requires id in job.nodes && id in job.keys && ApprovesAll(env) && !IsSucceeded(d, id) && !d.cancelRequested && WithinBudgets(job, d)
    requires job.keys[id] in d.cache
    ensures var w := VisitNode(job, env, id, d, true); !w.halted && IsSucceeded(w.run, id)
  {
    hide NeedsApproval, StepLimit;
  }

  /** Going back over a passed-over node without a cached result takes as many steps as the first time, and changes nothing else. */
  lemma MuteAgain(job: Job, e1: Env, e2: Env, order: seq<Id>, a: Run, b: Run, d: Run, k: nat)
    requires Replays(job, e1, e2, order, a, b, d, k) && order != [] && order[0] in job.nodes && order[0] in job.keys
    requires PassesOver(job, e1, order[0], a) && job.keys[order[0]] !in d.cache && WithinBudgets(job, d)
    ensures var w := VisitNode(job, e2, order[0], d, true); !w.halted && Ahead(d, w.run, Tries(job, order[0]))
  {
    hide VisitNode, IsSucceeded, StepLimit, EndsDenied, PassesOver, StaysSilent, NeedsApproval, FixedHandlers, OnlyAnswers;
    var id := order[0];
    DeniedStep(job, e1, order, a);
    ResumedLeavesUnfinishedIff(job, e1, id, a);
    RevisitFacts(job, e1, e2, order, a, b, d, k);
    SameAreFixed(e1, e2);
    PassedIsMute(job, e1, id, a);
    MuteVisit(job, e1, id, a);
    var v1 := VisitNode(job, e1, id, a, true);
    SameDone(v1.run, d, id);
    assert e1.handle(id, 0) == e2.handle(id, 0);
    MuteVisit(job, e2, id, d);
    MutedTwice(job, id, a, d);
  }

  lemma MutedTwice(job: Job, id: Id, a: Run, d: Run)
    requires id in job.nodes && id in d.nodeStates && d.nodeStates[id] == Muted(job, id, a).nodeStates[id]
    ensures Muted(job, id, d) == d.(steps := d.steps + Tries(job, id))
  {
    assert Muted(job, id, d).nodeStates == d.nodeStates;
  }

  lemma OverBudgetHalts(job: Job, env: Env, id: Id, d: Run)
    requires id in job.nodes && id in job.keys && !IsSucceeded(d, id) && d.steps >= StepLimit(job)
    ensures VisitNode(job, env, id, d, true).halted
  {
    hide Perform, NeedsApproval, StepLimit;
  }

  /** The approved walk from `b` and the resumed walk from `d`. */
  lemma {:induction false} ReplayWalk(job: Job, e1: Env, e2: Env, order: seq<Id>, a: Run, b: Run, d: Run, k: nat)
    requires Replays(job, e1, e2, order, a, b, d, k)
    ensures var v, w := VisitAll(job, e2, order, b, true), VisitAll(job, e2, order, d, true);
      if k == 0 && Replayable(job, e1, order, a, d.cache) then Ahead(v.run, w.run, 0) && v.halted == w.halted else EndsDiffer(a, order, v, w)
    decreases |order|
  {
    hide VisitNode, SameHandlers, ApprovesAll, OnlyAnswers, IsSucceeded, StepLimit, EndsDenied, PassesOver, StoppedBySteps, NoneRunning, Replays;
    ReplayStart(job, e1, e2, order, a, b, d, k);
    var id, rest := order[0], order[1..];
    var v1 := VisitNode(job, e1, id, a, true);
    if v1.halted {
      DenialReplays(job, e1, e2, order, a, b, d, k);
    } else {
      var vb, w := VisitNode(job, e2, id, b, true), VisitNode(job, e2, id, d, true);
      ResumedLeavesUnfinishedIff(job, e1, id, a);
      RevisitFacts(job, e1, e2, order, a, b, d, k);
      if !PassesOver(job, e1, id, a) {
        SameDone(v1.run, d, id);
        SkipsSucceeded(job, e2, id, d);
        ReplaysOn(job, e1, e2, order, a, b, d, k, w.run, 0);
        ReplayWalk(job, e1, e2, rest, v1.run, vb.run, w.run, k);
      } else if !WithinBudgets(job, d) {
        SameDone(v1.run, d, id);
        OverBudgetHalts(job, e2, id, d);
        StoppedOnTheWay(job, e1, e2, order, a, b, d, k);
      } else if job.keys[id] in d.cache {
        CachedDiffers(job, e1, e2, order, a, b, d, k);
      } else {
        MuteAgain(job, e1, e2, order, a, b, d, k);
        var n := Tries(job, id);
        ReplaysOn(job, e1, e2, order, a, b, d, k, w.run, n);
        ReplayWalk(job, e1, e2, rest, v1.run, vb.run, w.run, k + n);
      }
    }
  }

  lemma ReplayStart(job: Job, e1: Env, e2: Env, order: seq<Id>, a: Run, b: Run, d: Run, k: nat)
    requires Replays(job, e1, e2, order, a, b, d, k)
    ensures order != [] && order == [order[0]] + order[1..] && order[0] in order && order[0] in job.nodes && order[0] in job.keys
    ensures Listed(job, order) && a.status == Running
  {
    hide VisitAll, SameHandlers, ApprovesAll;
    DeniedStep(job, e1, order, a);
  }

  // ---------------------------------------------------------------- whole executions

  /** A walk in which nothing is denied ends running, or failed or cancelled. */
  lemma {:induction false} WalkEnds(job: Job, env: Env, order: seq<Id>, a: Run)
    requires Listed(job, order) && ApprovesAll(env) && a.status == Running
    ensures var v := VisitAll(job, env, order, a, true); if v.halted then v.run.status in {Failed, Cancelled} else v.run.status == Running
    decreases |order|
  {
    hide VisitNode, NodeStep, VisitCall, WithinTokens, ApprovesAll;
    if order != [] {
      assert order[0] in order && order == [order[0]] + order[1..];
      VisitNodeIsOk(job, env, order[0], a);
      NotDenied(job, env, order[0], a);
      var v := VisitNode(job, env, order[0], a, true);
      if !v.halted {
        WalkEnds(job, env, order[1..], v.run);
      }
    }
  }

  /** The execution was stopped by a denied approval. */
  ghost predicate StoppedByDenial(job: Job, env: Env, run: Run)
    requires ValidJob(job)
  {
    && !run.cancelRequested && run.status != Cancelled
    && var v := VisitAll(job, env, OrderOf(job), Started(run, true), true); v.halted && v.run.status == NeedsReview
  }

  /** Every node that the denied execution passed over got no attempt, and nobody else has left a result under its cache key. */
  ghost predicate NothingToRetry(job: Job, env: Env, run: Run)
    requires ValidJob(job)
  {
    Replayable(job, env, OrderOf(job), Started(run, true), Execute(job, env, run, true).run.cache)
  }

  lemma SessionsApart(job: Job, env: Env, a: Run, d: Run)
    requires ValidJob(job) && ApprovesAll(env) && !a.cancelRequested && a.status != Cancelled && !d.cancelRequested && d.status != Cancelled
    ensures var v, w := VisitAll(job, env, OrderOf(job), Started(a, true), true), VisitAll(job, env, OrderOf(job), Started(d, true), true);
      var x, y := Execute(job, env, a, true).run, Execute(job, env, d, true).run;
      && (Ahead(v.run, w.run, 0) && v.halted == w.halted ==> Alike(x, y))
      && (Apart(v, w) ==> !Alike(x, y))
      && (StoppedBySteps(x) <==> StoppedBySteps(v.run))
  {
    hide VisitAll, OrderOf;
    OrderListed(job);
    WalkEnds(job, env, OrderOf(job), Started(a, true));
    WalkEnds(job, env, OrderOf(job), Started(d, true));
  }

  /** Handlers being a fixed function of the node: resuming a denied run with approvals granted ends with the same status, node states,
      outputs, cache, artifacts, budgets and error as granting them in the first place, if there is nothing to retry among the nodes that the
      denied run passed over; and only if so, when no earlier execution has left a listed node marked as running, or when the step budget does
      not stop the run that was approved at once. The event log and the list of approvals are left out of the comparison. */
  lemma ResumeEquivalence(job: Job, e1: Env, e2: Env, run: Run)
    requires ValidJob(job) && SameHandlers(e1, e2) && OnlyAnswers(e1) && ApprovesAll(e2) && StoppedByDenial(job, e1, run)
    ensures var atOnce, resumed := Execute(job, e2, run, true).run, Execute(job, e2, Execute(job, e1, run, true).run, true).run;
      && (NothingToRetry(job, e1, run) ==> Alike(atOnce, resumed))
      && (NoneRunning(run, job.ids) || !StoppedBySteps(atOnce) ==> (Alike(atOnce, resumed) <==> NothingToRetry(job, e1, run)))
  {
    hide VisitAll, SameHandlers, OnlyAnswers, ApprovesAll, OrderOf, StoppedBySteps, Apart, Replayable;
    var order, started, denied := OrderOf(job), Started(run, true), Execute(job, e1, run, true).run;
    OrderListed(job);
    assert EndsDenied(job, e1, order, started);
    DeniedFacts(job, e1, order, started);
    var d := Started(denied, true);
    assert Replays(job, e1, e2, order, started, started, d, 0);
    ReplayWalk(job, e1, e2, order, started, started, d, 0);
    SessionsApart(job, e2, run, denied);
    assert NoneRunning(run, job.ids) <==> NoneRunning(started, order);
  }
}
