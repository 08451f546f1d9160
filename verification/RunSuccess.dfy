/** When a node is done at its first attempt, and when a fresh run succeeds. */
module RunSuccess {
  import opened Wrappers
  import opened Digraph
  import opened Workflow
  import opened Permissions
  import opened RunModel
  import opened RunFates
  import opened RunLedger
  import opened RunSafety
  import opened RunSilence

  // ---------------------------------------------------------------- one node

  /** The visit may perform the node: nothing is cancelled, each budget has something left, and an approval that it needs is granted. */
  predicate MayPerform(job: Job, env: Env, id: Id, l: Ledger)
    requires id in job.nodes
  {
    && !l.cancelled && l.steps < (if job.maxSteps == 0 then 80 else job.maxSteps)
    && (job.maxTokens.Some? ==> l.tokens < job.maxTokens.value) && (job.maxFiles.Some? ==> l.files < job.maxFiles.value)
    && (Automatic(job.nodes[id].permissionClass) || env.approve(id, l.asked) == Answer(true, false))
  }

  /** The first attempt, with the ledger as it is, delivers. */
  ghost predicate DeliversAtOnce(job: Job, env: Env, id: Id, l: Ledger)
    requires id in job.nodes
  {
    job.nodes[id].retryMax >= 0 && Delivers(job, id, l.tokens, env.handle(id, l.steps + 1).outcome)
  }

  function Granted(job: Job, id: Id): seq<Approval>
    requires id in job.nodes
  {
    if Automatic(job.nodes[id].permissionClass) then [] else [Approval(id, true)]
  }

  lemma Prepares(job: Job, env: Env, id: Id, run: Run, resume: bool) returns (ready: Run)
    requires id in job.nodes && id in job.keys && MayPerform(job, env, id, LedgerOf(run)) && !(resume && IsSucceeded(run, id))
    ensures ready == run.(nodeStates := run.nodeStates[id := NodeState(NodeRunning, AttemptsBefore(run, id), NoDetail)],
      approvals := run.approvals + Granted(job, id))
    ensures VisitNode(job, env, id, run, resume) == Perform(job, env, id, ready)
  {
    hide Perform, EvaluateNodeAction, Automatic;
    AutomaticIff(job.nodes[id].permissionClass);
    var r := SetNode(run, id, NodeState(NodeRunning, AttemptsBefore(run, id), NoDetail));
    ready := if NeedsApproval(job, id) then Asked(r, id, env.approve(id, |r.approvals|)) else r;
    assert run.approvals + [] == run.approvals;
  }

  /** A visit whose first attempt delivers: the node succeeds with what the handler returned, the result is cached, the artifact is recorded,
      one step and the tokens are booked, and nothing else changes. */
  lemma FirstAttemptCommits(job: Job, env: Env, id: Id, run: Run, resume: bool)
    requires id in job.nodes && id in job.keys && MayPerform(job, env, id, LedgerOf(run)) && !(resume && IsSucceeded(run, id))
    requires job.keys[id] !in run.cache && DeliversAtOnce(job, env, id, LedgerOf(run))
    ensures var reply, v := env.handle(id, run.steps + 1), VisitNode(job, env, id, run, resume);
      var o := reply.outcome;
      && !v.halted && |v.calls| == 1 && v.calls[0].id == id
      && v.run == Run(run.status, run.nodeStates[id := NodeState(NodeSucceeded, 1, Computed(job.keys[id], o))], run.events + [Committed(id)],
           run.approvals + Granted(job, id), run.cache[job.keys[id] := o], run.steps + 1, run.tokens + o.tokens,
           if o.artifact == "" then run.files else run.files + 1,
           if o.artifact == "" then run.artifacts else run.artifacts + [o.artifact], run.error, reply.cancels)
  {
    hide TryNode, Delivers, Overdraws, Fumbles, TokensAfter, Granted;
    var ready := Prepares(job, env, id, run, resume);
    TryStep(job, env, id, ready, 0);
    hide VisitNode;
    NoTokensYet(env, id, ready.steps, ready.tokens);
    OneOfThree(job, id, ready.tokens, env.handle(id, run.steps + 1).outcome);
    var done := NodeState(NodeSucceeded, 1, Computed(job.keys[id], env.handle(id, run.steps + 1).outcome));
    assert During(env, id, ready, 0).nodeStates[id := done] == run.nodeStates[id := done];
  }

  /** A visit whose result is cached makes no call and takes no step. */
  lemma CachedNodeCommits(job: Job, env: Env, id: Id, run: Run, resume: bool)
    requires id in job.nodes && id in job.keys && MayPerform(job, env, id, LedgerOf(run)) && !(resume && IsSucceeded(run, id))
    requires job.keys[id] in run.cache
    ensures VisitNode(job, env, id, run, resume) ==
      Visit(run.(nodeStates := run.nodeStates[id := NodeState(NodeSucceeded, AttemptsBefore(run, id), CacheHit(job.keys[id]))],
        events := run.events + [HitCache(id)], approvals := run.approvals + Granted(job, id)), [], false)
  {
    hide Granted;
    var ready := Prepares(job, env, id, run, resume);
    hide VisitNode;
    var done := NodeState(NodeSucceeded, AttemptsBefore(run, id), CacheHit(job.keys[id]));
    assert ready.nodeStates[id := done] == run.nodeStates[id := done];
  }

  // ---------------------------------------------------------------- a fresh run

  /** The ledger after one more node. */
  function Booked(job: Job, env: Env, id: Id, l: Ledger): Ledger
    requires id in job.nodes && id in job.keys
  {
    var asked := l.(asked := l.asked + |Granted(job, id)|);
    var o := env.handle(id, l.steps + 1).outcome;
    if job.keys[id] in l.cache || o.Raised? then asked
    else Delivery(job.keys[id], asked.(steps := l.steps + 1, tokens := l.tokens + o.tokens), o)
  }

  /** The ledger after the first `i` nodes, when each of them succeeds at its first attempt or from the cache. */
  function SmoothLedger(job: Job, env: Env, order: seq<Id>, i: nat): Ledger
    requires i <= |order| && forall id :: id in order ==> id in job.nodes && id in job.keys
  {
    if i == 0 then Ledger(0, 0, 0, 0, map[], [], false)
    else
      Booked(job, env, order[i - 1], SmoothLedger(job, env, order, i - 1))
  }

  /** At each node the budgets have something left, the approval is granted if needed, and the handler, if it is called, delivers at once. */
  ghost predicate Smooth(job: Job, env: Env, order: seq<Id>)
    requires forall id :: id in order ==> id in job.nodes && id in job.keys
  {
    forall i :: 0 <= i < |order| ==> SmoothAt(job, env, order[i], SmoothLedger(job, env, order, i))
  }

  ghost predicate SmoothAt(job: Job, env: Env, id: Id, l: Ledger)
    requires id in job.nodes && id in job.keys
  {
    MayPerform(job, env, id, l)
    && (job.keys[id] !in l.cache ==> DeliversAtOnce(job, env, id, l) && !env.handle(id, l.steps + 1).cancels)
  }

  /** What becomes of the node at one place. */
  function StateAt(job: Job, env: Env, order: seq<Id>, i: nat): NodeState
    requires i < |order| && forall id :: id in order ==> id in job.nodes && id in job.keys
  {
    var l, key := SmoothLedger(job, env, order, i), job.keys[order[i]];
    if key in l.cache then NodeState(NodeSucceeded, 0, CacheHit(key))
    else NodeState(NodeSucceeded, 1, Computed(key, env.handle(order[i], l.steps + 1).outcome))
  }

  ghost predicate KeyBefore(job: Job, order: seq<Id>, i: nat, key: Key)
    requires i <= |order| && forall id :: id in order ==> id in job.keys
  {
    exists k :: 0 <= k < i && job.keys[order[k]] == key
  }

  /** The nodes from place `i` on whose key no earlier node has. */
  ghost function Newcomers(job: Job, order: seq<Id>, i: nat): seq<Id>
    requires i <= |order| && forall id :: id in order ==> id in job.keys
    decreases |order| - i
  {
    if i == |order| then []
    else (if KeyBefore(job, order, i, job.keys[order[i]]) then [] else [order[i]]) + Newcomers(job, order, i + 1)
  }

  function CalledIds(calls: seq<Call>): seq<Id> {
    seq(|calls|, k requires 0 <= k < |calls| => calls[k].id)
  }

  /** After the first `i` nodes of a fresh run. */
  ghost predicate SmoothSoFar(job: Job, env: Env, order: seq<Id>, i: nat, run: Run)
    requires i <= |order| && forall id :: id in order ==> id in job.nodes && id in job.keys
  {
    && run.status == Running && run.error.None? && LedgerOf(run) == SmoothLedger(job, env, order, i)
    && (forall id :: id in run.nodeStates <==> id in order[..i])
    && (forall k :: 0 <= k < i ==> order[k] in run.nodeStates && run.nodeStates[order[k]] == StateAt(job, env, order, k))
  }

  lemma DeliversResult(job: Job, env: Env, id: Id, l: Ledger)
    requires id in job.nodes
    ensures DeliversAtOnce(job, env, id, l) ==> env.handle(id, l.steps + 1).outcome.Result?
  {
    hide MayWrite;
  }

  lemma SmoothHere(job: Job, env: Env, order: seq<Id>, i: nat)
    requires i < |order| && (forall id :: id in order ==> id in job.nodes && id in job.keys) && Smooth(job, env, order)
    ensures SmoothAt(job, env, order[i], SmoothLedger(job, env, order, i))
    ensures SmoothLedger(job, env, order, i + 1) == Booked(job, env, order[i], SmoothLedger(job, env, order, i))
  {
    hide SmoothAt, Booked;
  }

  lemma SmoothBooks(job: Job, env: Env, id: Id, l: Ledger)
    requires id in job.nodes && id in job.keys && SmoothAt(job, env, id, l)
    ensures var next, o, key := Booked(job, env, id, l), env.handle(id, l.steps + 1).outcome, job.keys[id];
      var asked := l.(asked := l.asked + |Granted(job, id)|);
      && (key in l.cache ==> next == asked)
      && (key !in l.cache ==> o.Result? && next == Delivery(key, asked.(steps := l.steps + 1, tokens := l.tokens + o.tokens), o))
      && next.cache.Keys == l.cache.Keys + {key} && !l.cancelled && (key !in l.cache ==> !env.handle(id, l.steps + 1).cancels)
  {
    hide DeliversAtOnce, Granted;
    DeliversResult(job, env, id, l);
  }

  lemma KeyBeforeNext(job: Job, order: seq<Id>, i: nat, key: Key)
    requires i < |order| && forall id :: id in order ==> id in job.keys
    ensures KeyBefore(job, order, i + 1, key) <==> KeyBefore(job, order, i, key) || job.keys[order[i]] == key
  {
  }

  lemma {:induction false} CachedKeys(job: Job, env: Env, order: seq<Id>, i: nat, key: Key)
    requires i <= |order| && (forall id :: id in order ==> id in job.nodes && id in job.keys) && Smooth(job, env, order)
    ensures key in SmoothLedger(job, env, order, i).cache <==> KeyBefore(job, order, i, key)
  {
    hide SmoothLedger, Smooth, SmoothAt, Booked, KeyBefore;
    if i == 0 {
      NothingYet(job, env, order);
      NoKeyBefore(job, order, key);
    } else {
      CachedKeys(job, env, order, i - 1, key);
      SmoothHere(job, env, order, i - 1);
      SmoothBooks(job, env, order[i - 1], SmoothLedger(job, env, order, i - 1));
      KeyBeforeNext(job, order, i - 1, key);
    }
  }

  lemma NoKeyBefore(job: Job, order: seq<Id>, key: Key)
    requires forall id :: id in order ==> id in job.keys
    ensures !KeyBefore(job, order, 0, key)
  {
  }

  /** The ledger of a smooth visit is the next smooth ledger, and the node has succeeded. */
  lemma SmoothVisit(job: Job, env: Env, order: seq<Id>, i: nat, run: Run, resume: bool)
    requires i < |order| && (forall id :: id in order ==> id in job.nodes && id in job.keys) && Smooth(job, env, order)
    requires LedgerOf(run) == SmoothLedger(job, env, order, i) && order[i] !in run.nodeStates
    ensures var v := VisitNode(job, env, order[i], run, resume);
      && !v.halted && v.run.status == run.status && v.run.error == run.error
      && LedgerOf(v.run) == SmoothLedger(job, env, order, i + 1)
      && v.run.nodeStates == run.nodeStates[order[i] := StateAt(job, env, order, i)]
      && CalledIds(v.calls) == if job.keys[order[i]] in SmoothLedger(job, env, order, i).cache then [] else [order[i]]
  {
    hide MayPerform, DeliversAtOnce, VisitNode, Delivers, SmoothLedger, Smooth, Granted, Booked;
    var id, l := order[i], SmoothLedger(job, env, order, i);
    SmoothHere(job, env, order, i);
    SmoothBooks(job, env, id, l);
    if job.keys[id] in l.cache {
      CachedNodeCommits(job, env, id, run, resume);
    } else {
      FirstAttemptCommits(job, env, id, run, resume);
    }
  }

  lemma NextSoFar(job: Job, env: Env, order: seq<Id>, i: nat, run: Run, next: Run)
    requires i < |order| && (forall id :: id in order ==> id in job.nodes && id in job.keys) && Distinct(order)
    requires SmoothSoFar(job, env, order, i, run) && next.status == run.status && next.error == run.error
    requires LedgerOf(next) == SmoothLedger(job, env, order, i + 1)
    requires next.nodeStates == run.nodeStates[order[i] := StateAt(job, env, order, i)]
    ensures SmoothSoFar(job, env, order, i + 1, next)
  {
    hide StateAt, SmoothLedger;
    assert order[..i + 1] == order[..i] + [order[i]];
  }

  lemma NotYetVisited(order: seq<Id>, i: nat)
    requires i < |order| && Distinct(order)
    ensures order[i] !in order[..i]
  {
  }

  lemma {:induction false} SmoothWalk(job: Job, env: Env, order: seq<Id>, i: nat, run: Run, resume: bool)
    requires i <= |order| && (forall id :: id in order ==> id in job.nodes && id in job.keys) && Distinct(order) && Smooth(job, env, order)
    requires SmoothSoFar(job, env, order, i, run)
    ensures var v := VisitAll(job, env, order[i..], run, resume);
      !v.halted && SmoothSoFar(job, env, order, |order|, v.run) && CalledIds(v.calls) == Newcomers(job, order, i)
    decreases |order| - i
  {
    hide VisitNode, Smooth, StateAt, SmoothLedger;
    if i < |order| {
      NotYetVisited(order, i);
      SmoothVisit(job, env, order, i, run, resume);
      var v := VisitNode(job, env, order[i], run, resume);
      NextSoFar(job, env, order, i, run, v.run);
      hide SmoothSoFar;
      SmoothWalk(job, env, order, i + 1, v.run, resume);
      CachedKeys(job, env, order, i, job.keys[order[i]]);
      assert order[i..][0] == order[i] && order[i..][1..] == order[i + 1..];
      CalledConcat(v.calls, VisitAll(job, env, order[i + 1..], v.run, resume).calls);
    }
  }

  lemma CalledConcat(x: seq<Call>, y: seq<Call>)
    ensures CalledIds(x + y) == CalledIds(x) + CalledIds(y)
  {
  }

  /** A fresh run in which every node may be performed and delivers at once succeeds, or needs a review when criteria are set and no artifact
      was written: every node is done as its handler answered or from the cache, and one call was made for each node whose key no earlier
      node has. */
  lemma SmoothRunSucceeds(job: Job, env: Env, resume: bool)
    requires ValidJob(job) && Smooth(job, env, OrderOf(job))
    ensures var s, order := Execute(job, env, FRESH, resume), OrderOf(job);
      var l := SmoothLedger(job, env, order, |order|);
      && s.run.status == (if job.criteria && l.artifacts == [] then NeedsReview else Succeeded)
      && s.run.error == (if job.criteria && l.artifacts == [] then Some(CriteriaUnmet) else None)
      && LedgerOf(s.run) == l && (forall id :: id in job.ids ==> IsSucceeded(s.run, id))
      && (forall i :: 0 <= i < |order| ==> order[i] in s.run.nodeStates && s.run.nodeStates[order[i]] == StateAt(job, env, order, i))
      && CalledIds(s.calls) == Newcomers(job, order, 0)
  {
    hide VisitAll, OrderOf, SmoothLedger, StateAt, Smooth, Newcomers;
    OrderListed(job);
    var order := OrderOf(job);
    NothingYet(job, env, order);
    var start := Started(FRESH, resume);
    assert order[..0] == [] && order[0..] == order;
    SmoothWalk(job, env, order, 0, start, resume);
    var end := VisitAll(job, env, order, start, resume).run;
    AllSucceed(job, env, order, end);
    assert forall id :: id in job.ids ==> id in order;
  }

  lemma NothingYet(job: Job, env: Env, order: seq<Id>)
    requires forall id :: id in order ==> id in job.nodes && id in job.keys
    ensures SmoothLedger(job, env, order, 0) == LedgerOf(FRESH)
  {
  }

  lemma AllSucceed(job: Job, env: Env, order: seq<Id>, run: Run)
    requires (forall id :: id in order ==> id in job.nodes && id in job.keys) && SmoothSoFar(job, env, order, |order|, run)
    ensures forall id :: id in order ==> IsSucceeded(run, id)
  {
    hide SmoothLedger;
    forall id | id in order
      ensures IsSucceeded(run, id)
    {
      var k :| 0 <= k < |order| && order[k] == id;
      assert run.nodeStates[order[k]] == StateAt(job, env, order, k);
    }
  }

  /** When no two nodes share a key, every node is called. */
  lemma {:induction false} AllAreNewcomers(job: Job, order: seq<Id>, i: nat)
    requires i <= |order| && forall id :: id in order ==> id in job.keys
    requires forall j, k :: 0 <= j < k < |order| ==> job.keys[order[j]] != job.keys[order[k]]
    ensures Newcomers(job, order, i) == order[i..]
    decreases |order| - i
  {
    if i < |order| {
      AllAreNewcomers(job, order, i + 1);
      assert order[i..] == [order[i]] + order[i + 1..];
    }
  }
}
