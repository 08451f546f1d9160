/** Nodes that a run passes over: neither done nor failed, because their handlers stayed silent. */
module RunSilence {
  import opened Wrappers
  import opened Digraph
  import opened Workflow
  import opened Permissions
  import opened RunModel
  import opened RunLaws
  import opened RunSafety

  /** The visit gets as far as the handler: not cancelled, not done, within the budgets, approved, and not cached. */
  ghost predicate GetsToHandler(job: Job, env: Env, id: Id, a: Run)
    requires id in job.nodes && id in job.keys
  {
    && !a.cancelRequested && !IsSucceeded(a, id) && job.keys[id] !in a.cache
    && a.steps < StepLimit(job) && (job.maxTokens.Some? ==> a.tokens < job.maxTokens.value) && (job.maxFiles.Some? ==> a.files < job.maxFiles.value)
    && (NeedsApproval(job, id) ==> env.approve(id, |a.approvals|).approved)
  }

  /** The visit will pass the node over: it gets to the handler, and there is no attempt or all attempts stay silent. */
  ghost predicate PassesOver(job: Job, env: Env, id: Id, a: Run)
    requires id in job.nodes && id in job.keys
  {
    && GetsToHandler(job, env, id, a)
    && (RetryMax(job, id) < 0
        || (!(NeedsApproval(job, id) && env.approve(id, |a.approvals|).cancels) && StaysSilent(job, env, id, a.steps, a.tokens, 0)))
  }

  function Readied(job: Job, env: Env, id: Id, a: Run): Run
    requires id in job.nodes
  {
    var r := SetNode(a, id, NodeState(NodeRunning, AttemptsBefore(a, id), NoDetail));
    if NeedsApproval(job, id) then Asked(r, id, env.approve(id, |r.approvals|)) else r
  }

  lemma VisitPerforms(job: Job, env: Env, id: Id, a: Run)
    requires id in job.nodes && id in job.keys && GetsToHandler(job, env, id, a)
    ensures VisitNode(job, env, id, a, true) == Perform(job, env, id, Readied(job, env, id, a))
  {
    hide Perform, NeedsApproval, StepLimit;
  }

  lemma DoneIff(job: Job, a: Run, b: Run, id: Id, done: bool)
    requires Booked(job, a, b, id, done)
    ensures IsSucceeded(b, id) <==> done
  {
  }

  /** A visit lets the run go on with the node unfinished if and only if it passes the node over, which the handler, the approval and the
      state before the visit decide. */
  lemma VisitLeavesUnfinishedIff(job: Job, env: Env, id: Id, a: Run, resume: bool)
    requires id in job.nodes && id in job.keys && a.status == Running
    ensures var v := VisitNode(job, env, id, a, resume); !v.halted && !IsSucceeded(v.run, id) <==> PassesOver(job, env, id, Faced(a, id, resume))
  {
    hide VisitNode, PassesOver;
    VisitFaces(job, env, id, a, resume);
    ResumedLeavesUnfinishedIff(job, env, id, Faced(a, id, resume));
  }

  lemma ResumedLeavesUnfinishedIff(job: Job, env: Env, id: Id, a: Run)
    requires id in job.nodes && id in job.keys && a.status == Running
    ensures var v := VisitNode(job, env, id, a, true); !v.halted && !IsSucceeded(v.run, id) <==> PassesOver(job, env, id, a)
  {
    hide TryNode, Booked, Touches, CallOk, NeedsApproval, StaysSilent, StepLimit;
    if GetsToHandler(job, env, id, a) {
      VisitPerforms(job, env, id, a);
      var ready := Readied(job, env, id, a);
      var t := TryNode(job, env, id, ready, 0, "");
      TryNodeIsOk(job, env, id, ready, 0, "");
      PassedOverIff(job, env, id, ready, 0, "");
      DoneIff(job, ready, t.run, id, t.verdict.Done?);
    }
  }

  // ---------------------------------------------------------------- a walk over the nodes

  /** The nodes that a walk passes over. */
  ghost function Skipped(job: Job, env: Env, order: seq<Id>, a: Run, resume: bool): set<Id>
    requires forall id :: id in order ==> id in job.nodes && id in job.keys
    decreases |order|
  {
    if order == [] then {}
    else
      assert order[0] in order;
      var v := VisitNode(job, env, order[0], a, resume);
      (if PassesOver(job, env, order[0], Faced(a, order[0], resume)) then {order[0]} else {}) + if v.halted then {} else Skipped(job, env, order[1..], v.run, resume)
  }

  lemma {:induction false} SkippedListed(job: Job, env: Env, order: seq<Id>, a: Run, resume: bool)
    requires forall id :: id in order ==> id in job.nodes && id in job.keys
    ensures forall id :: id in Skipped(job, env, order, a, resume) ==> id in order
    decreases |order|
  {
    hide VisitNode, PassesOver;
    if order != [] {
      assert order[0] in order;
      SkippedListed(job, env, order[1..], VisitNode(job, env, order[0], a, resume).run, resume);
    }
  }

  lemma OthersStay(job: Job, env: Env, id: Id, a: Run, x: Id, resume: bool)
    requires id in job.nodes && id in job.keys && a.status == Running && x != id
    ensures IsSucceeded(VisitNode(job, env, id, a, resume).run, x) <==> IsSucceeded(a, x)
  {
    hide VisitNode, VisitCall, WithinTokens, Commits, Wrote;
    VisitFaces(job, env, id, a, resume);
    VisitNodeIsOk(job, env, id, Faced(a, id, resume));
  }

  lemma RunsOn(job: Job, env: Env, id: Id, a: Run, resume: bool)
    requires id in job.nodes && id in job.keys && a.status == Running && !VisitNode(job, env, id, a, resume).halted
    ensures VisitNode(job, env, id, a, resume).run.status == Running
  {
    hide VisitNode, VisitCall, NodeStep;
    VisitFaces(job, env, id, a, resume);
    VisitNodeIsOk(job, env, id, Faced(a, id, resume));
  }

  lemma {:induction false} WalkKeepsOthers(job: Job, env: Env, order: seq<Id>, a: Run, x: Id, resume: bool)
    requires Listed(job, order) && a.status == Running && x !in order
    ensures IsSucceeded(VisitAll(job, env, order, a, resume).run, x) <==> IsSucceeded(a, x)
    decreases |order|
  {
    hide VisitNode, IsSucceeded;
    if order != [] {
      assert order[0] in order && order == [order[0]] + order[1..];
      OthersStay(job, env, order[0], a, x, resume);
      if !VisitNode(job, env, order[0], a, resume).halted {
        RunsOn(job, env, order[0], a, resume);
        WalkKeepsOthers(job, env, order[1..], VisitNode(job, env, order[0], a, resume).run, x, resume);
      }
    }
  }

  /** A walk that reaches its end leaves exactly the nodes unfinished that it passes over. */
  lemma {:induction false} WalkLeavesUnfinished(job: Job, env: Env, order: seq<Id>, a: Run, resume: bool)
    requires Listed(job, order) && Distinct(order) && a.status == Running && !VisitAll(job, env, order, a, resume).halted
    ensures forall id :: id in order ==>
      (!IsSucceeded(VisitAll(job, env, order, a, resume).run, id) <==> id in Skipped(job, env, order, a, resume))
    decreases |order|
  {
    hide VisitNode, IsSucceeded, PassesOver;
    if order != [] {
      var head, rest := order[0], order[1..];
      assert head in order && order == [head] + rest;
      HeadNotInTail(order);
      var v := VisitNode(job, env, head, a, resume);
      RunsOn(job, env, head, a, resume);
      VisitLeavesUnfinishedIff(job, env, head, a, resume);
      WalkLeavesUnfinished(job, env, rest, v.run, resume);
      WalkKeepsOthers(job, env, rest, v.run, head, resume);
      SkippedListed(job, env, rest, v.run, resume);
      forall id | id in rest && id != head
        ensures id in Skipped(job, env, order, a, resume) <==> id in Skipped(job, env, rest, v.run, resume)
      {
      }
    }
  }

  lemma HeadNotInTail(order: seq<Id>)
    requires order != [] && Distinct(order)
    ensures order[0] !in order[1..] && Distinct(order[1..])
  {
  }

  /** A run that was executed to success leaves exactly the nodes unfinished that it passed over. */
  lemma SuccessIsIncompleteIff(job: Job, env: Env, a: Run, id: Id, resume: bool)
    requires ValidJob(job) && !a.cancelRequested && a.status != Cancelled && id in job.ids
    ensures var run := Execute(job, env, a, resume).run;
      run.status == Succeeded ==> (!IsSucceeded(run, id) <==> id in Skipped(job, env, OrderOf(job), Started(a, resume), resume))
  {
    hide VisitAll, Skipped, OrderOf;
    var order, started := OrderOf(job), Started(a, resume);
    OrderListed(job);
    var v := VisitAll(job, env, order, started, resume);
    if v.halted {
      HaltedIsNoSuccess(job, env, order, started, resume);
    } else {
      WalkLeavesUnfinished(job, env, order, started, resume);
    }
  }

  lemma {:induction false} HaltedIsNoSuccess(job: Job, env: Env, order: seq<Id>, a: Run, resume: bool)
    requires Listed(job, order) && a.status == Running && VisitAll(job, env, order, a, resume).halted
    ensures VisitAll(job, env, order, a, resume).run.status != Succeeded
    decreases |order|
  {
    hide VisitNode, NodeStep, VisitCall, WithinTokens;
    assert order[0] in order && order == [order[0]] + order[1..];
    VisitFaces(job, env, order[0], a, resume);
    VisitNodeIsOk(job, env, order[0], Faced(a, order[0], resume));
    var v := VisitNode(job, env, order[0], a, resume);
    if !v.halted {
      HaltedIsNoSuccess(job, env, order[1..], v.run, resume);
    }
  }

  // ---------------------------------------------------------------- handlers that are fixed for each node

  ghost predicate FixedHandlers(env: Env) {
    forall id, m, n :: env.handle(id, m) == env.handle(id, n)
  }

  ghost predicate KeysDiffer(job: Job, order: seq<Id>) {
    forall x, y :: x in order && y in order && x in job.keys && y in job.keys && x != y ==> job.keys[x] != job.keys[y]
  }

  /** A node without attempts, or whose handler raises exceptions with empty messages. */
  predicate Mute(job: Job, env: Env, id: Id)
    requires id in job.nodes
  {
    RetryMax(job, id) < 0 || env.handle(id, 0).outcome == Raised("")
  }

  lemma {:induction false} TryCaches(job: Job, env: Env, id: Id, run: Run, attempt: int, lastErr: string)
    requires id in job.nodes && id in job.keys && id in run.nodeStates
    ensures forall key :: key != job.keys[id] ==> (key in TryNode(job, env, id, run, attempt, lastErr).run.cache <==> key in run.cache)
    decreases RetryMax(job, id) + 1 - attempt
  {
    hide EvaluateNodeAction, MayAutoApply, ClassOrDefault;
    if attempt <= RetryMax(job, id) && !run.cancelRequested {
      var starting := Starting(run, id, attempt);
      var reply := env.handle(id, starting.steps);
      var s := Settle(job, id, AfterReply(starting, reply), attempt + 1, reply.outcome);
      if s.FailedAttempt? {
        TryCaches(job, env, id, s.run.(events := s.run.events + [Retried(id, attempt + 1)]), attempt + 1, s.message);
      }
    }
  }

  lemma VisitCaches(job: Job, env: Env, id: Id, a: Run, key: Key, resume: bool)
    requires id in job.nodes && id in job.keys && key != job.keys[id]
    ensures key in VisitNode(job, env, id, a, resume).run.cache <==> key in a.cache
  {
    hide TryNode, NeedsApproval, StepLimit;
    var r := SetNode(a, id, NodeState(NodeRunning, AttemptsBefore(a, id), NoDetail));
    TryCaches(job, env, id, r, 0, "");
    TryCaches(job, env, id, Asked(r, id, env.approve(id, |r.approvals|)), 0, "");
  }

  lemma {:induction false} MuteNeverDone(job: Job, env: Env, id: Id, run: Run, attempt: int, lastErr: string)
    requires id in job.nodes && id in job.keys && id in run.nodeStates && FixedHandlers(env) && attempt >= 0 && lastErr == "" && Mute(job, env, id)
    ensures TryNode(job, env, id, run, attempt, lastErr).verdict in {PassedOver, Halted}
    decreases RetryMax(job, id) + 1 - attempt
  {
    if attempt <= RetryMax(job, id) && !run.cancelRequested {
      var starting := Starting(run, id, attempt);
      var reply := env.handle(id, starting.steps);
      assert env.handle(id, 0) == env.handle(id, starting.steps);
      var s := Settle(job, id, AfterReply(starting, reply), attempt + 1, reply.outcome);
      if s.FailedAttempt? {
        MuteNeverDone(job, env, id, s.run.(events := s.run.events + [Retried(id, attempt + 1)]), attempt + 1, s.message);
      }
    }
  }

  lemma {:induction false} SilentIsMute(job: Job, env: Env, id: Id, steps: int, tokens: int, attempt: int)
    requires id in job.nodes && FixedHandlers(env) && StaysSilent(job, env, id, steps, tokens, attempt)
    ensures env.handle(id, 0).outcome == Raised("")
    decreases RetryMax(job, id) + 1 - attempt
  {
    var reply := env.handle(id, steps + 1);
    if attempt == RetryMax(job, id) {
      assert env.handle(id, 0) == env.handle(id, steps + 1);
    } else {
      SilentIsMute(job, env, id, steps + 1, tokens + Spent(reply.outcome), attempt + 1);
    }
  }

  /** With a fixed handler, a visit that lets the run go on passes a node over if and only if the node is not done, not cached, and mute. */
  lemma MuteIsPassedOver(job: Job, env: Env, id: Id, a: Run)
    requires id in job.nodes && id in job.keys && a.status == Running && FixedHandlers(env) && !VisitNode(job, env, id, a, true).halted
    ensures PassesOver(job, env, id, a) <==> !IsSucceeded(a, id) && job.keys[id] !in a.cache && Mute(job, env, id)
  {
    hide TryNode, Booked, Touches, CallOk, NeedsApproval, StaysSilent, StepLimit, FixedHandlers;
    ResumedLeavesUnfinishedIff(job, env, id, a);
    if PassesOver(job, env, id, a) {
      if RetryMax(job, id) >= 0 {
        SilentIsMute(job, env, id, a.steps, a.tokens, 0);
      }
    } else if !IsSucceeded(a, id) && job.keys[id] !in a.cache && Mute(job, env, id) {
      GoesOnMeansHandler(job, env, id, a);
      VisitPerforms(job, env, id, a);
      var ready := Readied(job, env, id, a);
      MuteNeverDone(job, env, id, ready, 0, "");
      TryNodeIsOk(job, env, id, ready, 0, "");
      DoneIff(job, ready, TryNode(job, env, id, ready, 0, "").run, id, false);
    }
  }

  lemma GoesOnMeansHandler(job: Job, env: Env, id: Id, a: Run)
    requires id in job.nodes && id in job.keys && !VisitNode(job, env, id, a, true).halted
    requires !IsSucceeded(a, id) && job.keys[id] !in a.cache
    ensures GetsToHandler(job, env, id, a)
  {
    hide Perform, NeedsApproval, StepLimit;
  }

  /** The same for a visit that need not resume. */
  lemma MuteIsPassedOverAnew(job: Job, env: Env, id: Id, a: Run, resume: bool)
    requires id in job.nodes && id in job.keys && a.status == Running && FixedHandlers(env) && !VisitNode(job, env, id, a, resume).halted
    ensures PassesOver(job, env, id, Faced(a, id, resume)) <==>
      (resume ==> !IsSucceeded(a, id)) && job.keys[id] !in a.cache && Mute(job, env, id)
  {
    hide PassesOver, Mute, FixedHandlers, Perform, NeedsApproval, StepLimit;
    VisitFaces(job, env, id, a, resume);
    MuteIsPassedOver(job, env, id, Faced(a, id, resume));
    if a.cancelRequested {
      CancelHalts(job, env, id, a, resume);
    }
  }

  lemma {:induction false} WalkPassesOverMute(job: Job, env: Env, order: seq<Id>, a: Run, id: Id, resume: bool)
    requires Listed(job, order) && Distinct(order) && KeysDiffer(job, order) && a.status == Running && FixedHandlers(env) && id in order
    requires !VisitAll(job, env, order, a, resume).halted
    ensures id in Skipped(job, env, order, a, resume) <==> (resume ==> !IsSucceeded(a, id)) && job.keys[id] !in a.cache && Mute(job, env, id)
    decreases |order|
  {
    hide VisitNode, IsSucceeded, PassesOver, FixedHandlers, Mute, Faced;
    var head, rest := order[0], order[1..];
    assert head in order && order == [head] + rest;
    HeadNotInTail(order);
    var v := VisitNode(job, env, head, a, resume);
    RunsOn(job, env, head, a, resume);
    SkippedListed(job, env, rest, v.run, resume);
    if id == head {
      MuteIsPassedOverAnew(job, env, id, a, resume);
    } else {
      WalkPassesOverMute(job, env, rest, v.run, id, resume);
      OthersStay(job, env, head, a, id, resume);
      VisitCaches(job, env, head, a, job.keys[id], resume);
    }
  }

  /** With fixed handlers and cache keys of their own, a run that was executed to success leaves exactly the mute nodes unfinished that
      found no cached result and, if it resumed, were not done before. */
  lemma MuteNodesStayUnfinished(job: Job, env: Env, a: Run, id: Id, resume: bool)
    requires ValidJob(job) && KeysDiffer(job, job.ids) && FixedHandlers(env) && !a.cancelRequested && a.status != Cancelled && id in job.ids
    ensures var run := Execute(job, env, a, resume).run;
      run.status == Succeeded ==>
        (!IsSucceeded(run, id) <==> (resume ==> !IsSucceeded(a, id)) && job.keys[id] !in a.cache && Mute(job, env, id))
  {
    hide VisitAll, Skipped, OrderOf, FixedHandlers, Mute;
    var order, started := OrderOf(job), Started(a, resume);
    OrderListed(job);
    SuccessIsIncompleteIff(job, env, a, id, resume);
    if VisitAll(job, env, order, started, resume).halted {
      HaltedIsNoSuccess(job, env, order, started, resume);
    } else {
      WalkPassesOverMute(job, env, order, started, id, resume);
    }
  }
}
