/** Two workflows whose handlers raise exceptions with empty messages: where resuming after a denial ends differently, and where the step
    budget hides that. */
module RunReplayLimits {
  import opened Wrappers
  import opened Digraph
  import opened Workflow
  import opened Permissions
  import opened RunModel
  import opened RunLaws
  import opened RunSafety
  import opened RunSilence
  import opened RunReplay
  import Topo

  // ---------------------------------------------------------------- chains of nodes

  function ChainLinks(ids: seq<Id>): seq<Topo.Edge> {
    if |ids| < 2 then [] else seq(|ids| - 1, i requires 0 <= i < |ids| - 1 => (ids[i], ids[i + 1]))
  }

  /** Nodes in a row with one attempt each; the one named `shell` needs approval. */
  function Chain(ids: seq<Id>, maxSteps: int): Job {
    Job(ids, ChainLinks(ids), map id | id in ids :: Node(id, if id == "shell" then "shell" else "read", NoLoop, [], 0),
        map id | id in ids :: id, maxSteps, None, None, false)
  }

  lemma ChainForward(ids: seq<Id>)
    requires Distinct(ids)
    ensures Topo.Between(ids, ChainLinks(ids)) && Topo.Forward(ChainLinks(ids), ids)
  {
    var links := ChainLinks(ids);
    forall k, i | 0 <= k < |ids| && 0 <= i < |links| && links[i].1 == ids[k]
      ensures links[i].0 in ids[..k]
    {
      assert k == i + 1;
      assert ids[..k][i] == links[i].0;
    }
  }

  lemma {:induction false} OnlyOrder(ids: seq<Id>, order: seq<Id>, k: nat)
    requires Distinct(ids) && Distinct(order) && Topo.Forward(ChainLinks(ids), order) && (forall v :: v in order <==> v in ids)
    requires k <= |ids| && k <= |order|
    ensures order[..k] == ids[..k]
  {
    if k > 0 {
      OnlyOrder(ids, order, k - 1);
      var v := order[k - 1];
      assert v in order;
      var j :| 0 <= j < |ids| && ids[j] == v;
      if j > 0 {
        var links := ChainLinks(ids);
        assert links[j - 1] == (ids[j - 1], v);
        assert ids[j - 1] in order[..k - 1];
        var i :| 0 <= i < k - 1 && order[..k - 1][i] == ids[j - 1];
        assert order[..k - 1][i] == ids[..k - 1][i] == ids[i];
      }
      assert j <= k - 1;
      assert order[..k] == order[..k - 1] + [v] && ids[..k] == ids[..k - 1] + [ids[k - 1]];
    }
  }

  lemma ChainOrder(ids: seq<Id>, maxSteps: int)
    requires Distinct(ids)
    ensures ValidJob(Chain(ids, maxSteps)) && OrderOf(Chain(ids, maxSteps)) == ids
  {
    var links := ChainLinks(ids);
    ChainForward(ids);
    Topo.TopologicalIsAcyclic(ids, links, ids);
    Topo.TopoOrderIsTopological(ids, links);
    var order := OrderOf(Chain(ids, maxSteps));
    hide Topo.TopoOrder, OrderOf;
    var k := if |ids| <= |order| then |ids| else |order|;
    OnlyOrder(ids, order, k);
    assert order[..|order|] == order && ids[..|ids|] == ids;
  }

  // ---------------------------------------------------------------- walks over mute nodes

  ghost predicate AllMute(env: Env) {
    forall id, n :: env.handle(id, n) == Reply(Raised(""), false)
  }

  ghost predicate DeniesAll(env: Env) {
    forall id, n :: env.approve(id, n) == Answer(false, false)
  }

  const TRIED := NodeState(NodeRunning, 1, NoDetail)

  function Marks(states: map<Id, NodeState>, order: seq<Id>): map<Id, NodeState>
    decreases |order|
  {
    if order == [] then states else Marks(states[order[0] := TRIED], order[1..])
  }

  /** A running chain that nobody has cancelled and in which nothing has succeeded. */
  ghost predicate Fruitless(ids: seq<Id>, run: Run) {
    && Distinct(ids) && run.status == Running && !run.cancelRequested && run.cache == map[]
    && forall id :: id in ids ==> !IsSucceeded(run, id)
  }

  ghost predicate Inside(order: seq<Id>, ids: seq<Id>) {
    forall id :: id in order ==> id in ids
  }

  lemma ReadNeedsNoApproval(ids: seq<Id>, maxSteps: int, id: Id)
    requires id in ids
    ensures NeedsApproval(Chain(ids, maxSteps), id) ==> id == "shell"
  {
  }

  lemma MuteVisitMarks(ids: seq<Id>, maxSteps: int, env: Env, id: Id, a: Run)
    requires Fruitless(ids, a) && id in ids && OnlyAnswers(env) && (id == "shell" ==> ApprovesAll(env)) && AllMute(env) && a.steps < StepLimit(Chain(ids, maxSteps))
    ensures var v := VisitNode(Chain(ids, maxSteps), env, id, a, true);
      && !v.halted && Fruitless(ids, v.run)
      && v.run == a.(steps := a.steps + 1, nodeStates := a.nodeStates[id := TRIED], events := v.run.events, approvals := v.run.approvals)
  {
    hide VisitNode, NeedsApproval, StepLimit;
    var job := Chain(ids, maxSteps);
    ReadNeedsNoApproval(ids, maxSteps, id);
    assert GetsToHandler(job, env, id, a);
    MuteVisit(job, env, id, a);
    assert Muted(job, id, a).nodeStates == a.nodeStates[id := TRIED];
  }

  lemma {:induction false} MuteWalk(ids: seq<Id>, maxSteps: int, env: Env, order: seq<Id>, a: Run)
    requires Fruitless(ids, a) && Inside(order, ids) && OnlyAnswers(env) && ("shell" in order ==> ApprovesAll(env)) && AllMute(env)
    requires a.steps + |order| <= StepLimit(Chain(ids, maxSteps))
    ensures var v := VisitAll(Chain(ids, maxSteps), env, order, a, true);
      && !v.halted && Fruitless(ids, v.run)
      && v.run == a.(steps := a.steps + |order|, nodeStates := Marks(a.nodeStates, order), events := v.run.events, approvals := v.run.approvals)
    decreases |order|
  {
    hide VisitNode, StepLimit, Fruitless, ApprovesAll, AllMute;
    if order != [] {
      assert order[0] in order && order == [order[0]] + order[1..];
      MuteVisitMarks(ids, maxSteps, env, order[0], a);
      MuteWalk(ids, maxSteps, env, order[1..], VisitNode(Chain(ids, maxSteps), env, order[0], a, true).run);
    }
  }

  lemma {:induction false} WalkOn(job: Job, env: Env, xs: seq<Id>, ys: seq<Id>, a: Run)
    requires Listed(job, xs) && Listed(job, ys) && Listed(job, xs + ys) && !VisitAll(job, env, xs, a, true).halted
    ensures var v, w := VisitAll(job, env, xs + ys, a, true), VisitAll(job, env, ys, VisitAll(job, env, xs, a, true).run, true);
      v.run == w.run && v.halted == w.halted
    decreases |xs|
  {
    hide VisitNode;
    if xs == [] {
      assert xs + ys == ys;
    } else {
      assert xs[0] in xs && xs == [xs[0]] + xs[1..] && (xs + ys)[1..] == xs[1..] + ys;
      WalkOn(job, env, xs[1..], ys, VisitNode(job, env, xs[0], a, true).run);
    }
  }

  lemma StepsUsedUp(ids: seq<Id>, maxSteps: int, env: Env, order: seq<Id>, a: Run)
    requires Fruitless(ids, a) && Inside(order, ids) && order != [] && a.steps >= StepLimit(Chain(ids, maxSteps))
    requires order[0] in ids
    ensures var v := VisitAll(Chain(ids, maxSteps), env, order, a, true);
      && v.halted && v.run == OverBudgetRun(SetNode(a, order[0], NodeState(NodeRunning, AttemptsBefore(a, order[0]), NoDetail)), StepBudget)
  {
    hide Perform, NeedsApproval, StepLimit;
  }

  lemma ShellIsDenied(ids: seq<Id>, maxSteps: int, env: Env, order: seq<Id>, a: Run)
    requires Fruitless(ids, a) && Inside(order, ids) && order != [] && order[0] == "shell" && "shell" in ids
    requires DeniesAll(env) && a.steps < StepLimit(Chain(ids, maxSteps))
    ensures var v := VisitAll(Chain(ids, maxSteps), env, order, a, true);
      && v.halted
      && v.run == a.(status := NeedsReview, events := v.run.events, approvals := v.run.approvals,
                     nodeStates := a.nodeStates["shell" := NodeState(NodeNeedsApproval, AttemptsBefore(a, "shell"), NoDetail)])
  {
    hide Perform, StepLimit;
    var job := Chain(ids, maxSteps);
    assert NeedsApproval(job, "shell");
    var d := VisitNode(job, env, "shell", a, true).run;
    assert d.nodeStates == a.nodeStates["shell" := NodeState(NodeNeedsApproval, AttemptsBefore(a, "shell"), NoDetail)];
  }

  // ---------------------------------------------------------------- the two workflows

  const PAIR := ["a", "shell"]

  /** A chain from its beginning up to the denial. */
  lemma DeniedChain(ids: seq<Id>, maxSteps: int, env: Env, first: Id, rest: seq<Id>, a: Run)
    requires Fruitless(ids, a) && ids == [first, "shell"] + rest && AllMute(env) && DeniesAll(env) && a.steps + 1 < StepLimit(Chain(ids, maxSteps))
    ensures var v := VisitAll(Chain(ids, maxSteps), env, ids, a, true);
      && v.halted
      && v.run == a.(status := NeedsReview, steps := a.steps + 1, events := v.run.events, approvals := v.run.approvals,
                     nodeStates := a.nodeStates[first := TRIED]["shell" := NodeState(NodeNeedsApproval, AttemptsBefore(a, "shell"), NoDetail)])
  {
    hide VisitAll, StepLimit, AllMute;
    var job, tail := Chain(ids, maxSteps), ["shell"] + rest;
    assert ids == [first] + tail && ids[0] == first && ids[1] == "shell" && first != "shell";
    assert Inside([first], ids) && Inside(tail, ids);
    MuteWalk(ids, maxSteps, env, [first], a);
    assert [first][1..] == [];
    WalkOn(job, env, [first], tail, a);
    ShellIsDenied(ids, maxSteps, env, tail, VisitAll(job, env, [first], a, true).run);
  }

  /** A node that is passed over before a denial is tried again afterwards, which costs a step that an approval at once does not cost. */
  lemma PassedOverIsRetried(e1: Env, e2: Env)
    requires AllMute(e1) && AllMute(e2) && DeniesAll(e1) && ApprovesAll(e2)
    ensures ValidJob(Chain(PAIR, 0)) && StoppedByDenial(Chain(PAIR, 0), e1, FRESH)
    ensures var atOnce := Execute(Chain(PAIR, 0), e2, FRESH, true).run; atOnce.status == Succeeded && atOnce.steps == 2
    ensures var resumed := Execute(Chain(PAIR, 0), e2, Execute(Chain(PAIR, 0), e1, FRESH, true).run, true).run;
      resumed.status == Succeeded && resumed.steps == 3
  {
    hide VisitAll, OrderOf, AllMute, DeniesAll;
    var job, a := Chain(PAIR, 0), Started(FRESH, true);
    ChainOrder(PAIR, 0);
    assert PAIR == ["a", "shell"] + [];
    assert Fruitless(PAIR, a);
    DeniedChain(PAIR, 0, e1, "a", [], a);
    MuteWalk(PAIR, 0, e2, PAIR, a);
    var d := Started(Execute(job, e1, FRESH, true).run, true);
    assert Fruitless(PAIR, d);
    MuteWalk(PAIR, 0, e2, PAIR, d);
  }

  const TRIPLE := ["x", "shell", "y"]

  lemma TripleMarks(states: map<Id, NodeState>)
    ensures Marks(states, TRIPLE) == states["x" := TRIED]["shell" := TRIED]["y" := TRIED]
    ensures Marks(states, ["x", "shell"]) == states["x" := TRIED]["shell" := TRIED]
    ensures Marks(states, ["x"]) == states["x" := TRIED]
  {
    assert TRIPLE[1..] == ["shell", "y"] && ["shell", "y"][1..] == ["y"] && ["y"][1..] == [] && ["x", "shell"][1..] == ["shell"];
    assert ["shell"][1..] == [] && ["x"][1..] == [];
  }

  lemma DenialsAnswer(env: Env)
    requires DeniesAll(env)
    ensures OnlyAnswers(env)
  {
  }

  lemma Parts(maxSteps: int, xs: seq<Id>, ys: seq<Id>)
    requires TRIPLE == xs + ys && ys != []
    ensures Inside(xs, TRIPLE) && Inside(ys, TRIPLE) && ys[0] in TRIPLE
    ensures var job := Chain(TRIPLE, maxSteps); Listed(job, xs) && Listed(job, ys) && Listed(job, xs + ys) && Listed(job, TRIPLE)
  {
    assert ys[0] in ys;
  }

  /** Two parts of the triple, of which the first uses up the step budget. */
  lemma StoppedLater(maxSteps: int, env: Env, xs: seq<Id>, ys: seq<Id>, a: Run)
    requires Fruitless(TRIPLE, a) && TRIPLE == xs + ys && xs != [] && ys != [] && ApprovesAll(env) && AllMute(env)
    requires a.steps + |xs| == StepLimit(Chain(TRIPLE, maxSteps))
    ensures var v, marked := VisitAll(Chain(TRIPLE, maxSteps), env, TRIPLE, a, true), Marks(a.nodeStates, xs);
      && v.halted
      && v.run == a.(status := Failed, error := Some(OverBudget(StepBudget)), steps := a.steps + |xs|, events := v.run.events, approvals := v.run.approvals,
                     nodeStates := marked[ys[0] := NodeState(NodeRunning, if ys[0] in marked then marked[ys[0]].attempts else 0, NoDetail)])
  {
    hide VisitAll, StepLimit, AllMute, Marks, Chain, Fruitless, ApprovesAll, OnlyAnswers;
    var job := Chain(TRIPLE, maxSteps);
    Parts(maxSteps, xs, ys);
    ApprovesAllAnswers(env);
    MuteWalk(TRIPLE, maxSteps, env, xs, a);
    WalkOn(job, env, xs, ys, a);
    StepsUsedUp(TRIPLE, maxSteps, env, ys, VisitAll(job, env, xs, a, true).run);
  }

  lemma FirstIsSkipped(ids: seq<Id>, maxSteps: int, env: Env, a: Run)
    requires Fruitless(ids, a) && ids != [] && ids[0] != "shell" && AllMute(env) && OnlyAnswers(env) && a.steps < StepLimit(Chain(ids, maxSteps))
    ensures ids[0] in Skipped(Chain(ids, maxSteps), env, ids, a, true)
  {
    hide VisitNode, StepLimit, AllMute, PassesOver;
    assert ids[0] in ids;
    MuteVisitMarks(ids, maxSteps, env, ids[0], a);
    ResumedLeavesUnfinishedIff(Chain(ids, maxSteps), env, ids[0], a);
  }

  const ALL_TRIED := map["x" := TRIED, "shell" := TRIED, "y" := TRIED]

  /** A run of the triple at three steps that has passed over all three nodes. */
  ghost predicate Tired(b: Run) {
    Fruitless(TRIPLE, b) && b.steps == 3 && b.nodeStates == ALL_TRIED
  }

  lemma TiredDenial(e1: Env, b: Run)
    requires Tired(b) && AllMute(e1) && DeniesAll(e1)
    ensures var v := VisitAll(Chain(TRIPLE, 5), e1, TRIPLE, b, true);
      && v.halted
      && v.run == b.(status := NeedsReview, steps := 4, events := v.run.events, approvals := v.run.approvals,
                     nodeStates := ALL_TRIED["shell" := NodeState(NodeNeedsApproval, 1, NoDetail)])
    ensures "x" in Skipped(Chain(TRIPLE, 5), e1, TRIPLE, b, true)
  {
    hide VisitAll, AllMute, DeniesAll, Skipped, Chain, Fruitless, OnlyAnswers;
    FiveSteps();
    Parts(5, [], TRIPLE);
    DeniedChain(TRIPLE, 5, e1, "x", ["y"], b);
    DenialsAnswer(e1);
    FirstIsSkipped(TRIPLE, 5, e1, b);
    TriedAgain();
  }

  lemma TriedAgain()
    ensures ALL_TRIED["x" := TRIED] == ALL_TRIED && ALL_TRIED["shell" := TRIED] == ALL_TRIED && ALL_TRIED["y" := TRIED] == ALL_TRIED
  {
  }

  /** From there the run approved at once and the resumed one stop alike. */
  lemma TiredEnds(e2: Env, b: Run, d: Run)
    requires Tired(b) && AllMute(e2) && ApprovesAll(e2)
    requires d == b.(steps := 4, events := d.events, approvals := d.approvals, nodeStates := ALL_TRIED["shell" := NodeState(NodeNeedsApproval, 1, NoDetail)])
    ensures var v, w := VisitAll(Chain(TRIPLE, 5), e2, TRIPLE, b, true), VisitAll(Chain(TRIPLE, 5), e2, TRIPLE, d, true);
      v.halted && w.halted && Alike(v.run, w.run)
  {
    hide VisitAll, AllMute, ApprovesAll, Marks, Chain;
    StillFruitless(b, d);
    FiveSteps();
    StoppedLater(5, e2, ["x", "shell"], ["y"], b);
    StoppedLater(5, e2, ["x"], ["shell", "y"], d);
    TripleMarks(b.nodeStates);
    TripleMarks(d.nodeStates);
    assert ALL_TRIED["x" := TRIED]["shell" := TRIED]["y" := TRIED] == ALL_TRIED;
    assert d.nodeStates["x" := TRIED]["shell" := TRIED] == ALL_TRIED;
  }

  lemma StillFruitless(b: Run, d: Run)
    requires Fruitless(TRIPLE, b) && b.nodeStates == ALL_TRIED
    requires d == b.(steps := 4, events := d.events, approvals := d.approvals, nodeStates := ALL_TRIED["shell" := NodeState(NodeNeedsApproval, 1, NoDetail)])
    ensures Fruitless(TRIPLE, d)
  {
  }

  lemma FiveSteps()
    ensures StepLimit(Chain(TRIPLE, 5)) == 5 && TRIPLE == ["x", "shell"] + ["y"] == ["x"] + ["shell", "y"]
  {
  }

  lemma TiredStart(e2: Env)
    requires AllMute(e2) && ApprovesAll(e2)
    ensures var v := VisitAll(Chain(TRIPLE, 5), e2, TRIPLE, Started(FRESH, true), true);
      !v.halted && Tired(v.run)
  {
    hide VisitAll, AllMute, ApprovesAll, Marks;
    var a := Started(FRESH, true);
    assert Fruitless(TRIPLE, a);
    ApprovesAllAnswers(e2);
    MuteWalk(TRIPLE, 5, e2, TRIPLE, a);
    TripleMarks(a.nodeStates);
  }

  /** The step budget can hide it: after an execution that passed over all three nodes, both runs are stopped at five steps, the one that
      was approved at once at the third node, the resumed one at the second, and all three nodes look the same. */
  lemma BudgetHidesTheRetry(e1: Env, e2: Env)
    requires AllMute(e1) && AllMute(e2) && DeniesAll(e1) && ApprovesAll(e2)
    ensures ValidJob(Chain(TRIPLE, 5))
    ensures var before := Execute(Chain(TRIPLE, 5), e2, FRESH, true).run;
      && StoppedByDenial(Chain(TRIPLE, 5), e1, before) && !NothingToRetry(Chain(TRIPLE, 5), e1, before)
      && Alike(Execute(Chain(TRIPLE, 5), e2, before, true).run,
               Execute(Chain(TRIPLE, 5), e2, Execute(Chain(TRIPLE, 5), e1, before, true).run, true).run)
  {
    hide VisitAll, OrderOf, AllMute, DeniesAll, ApprovesAll, Skipped;
    var job := Chain(TRIPLE, 5);
    ChainOrder(TRIPLE, 5);
    TiredStart(e2);
    var before := Execute(job, e2, FRESH, true).run;
    var b := Started(before, true);
    RestartedTired(VisitAll(job, e2, TRIPLE, Started(FRESH, true), true).run, b);
    TiredDenial(e1, b);
    TiredEnds(e2, b, Started(Execute(job, e1, before, true).run, true));
  }

  lemma RestartedTired(a: Run, b: Run)
    requires Tired(a) && b == a.(status := Running, error := b.error, events := b.events)
    ensures Tired(b)
  {
  }
}
