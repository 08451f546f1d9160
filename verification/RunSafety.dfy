/** Safety of the executor over every sequence of runs, cancellations, and save-and-load steps. */
module RunSafety {
  import opened Wrappers
  import opened Digraph
  import opened Workflow
  import opened Permissions
  import opened RunModel
  import opened RunLaws
  import Topo

  // ---------------------------------------------------------------- the invariant

  ghost predicate AllSucceeded(job: Job, run: Run) {
    forall id :: id in job.ids ==> IsSucceeded(run, id)
  }

  /** The handler of a node that was approved, if it needs that, returned the artifact, and the node succeeded with it. */
  ghost predicate ArtifactOf(job: Job, run: Run, id: Id, path: string) {
    && FromHandler(job, run, id) && ApprovedIfNeeded(job, id, run)
    && run.nodeStates[id].detail.output.artifact == path && path != ""
  }

  ghost predicate KnownArtifact(job: Job, run: Run, path: string) {
    exists id :: ArtifactOf(job, run, id, path)
  }

  ghost predicate ArtifactsKnown(job: Job, run: Run) {
    forall i :: 0 <= i < |run.artifacts| ==> KnownArtifact(job, run, run.artifacts[i])
  }

  ghost predicate CommittedOnce(run: Run) {
    forall id :: Commits(run.events, id) <= PlusIf(0, IsSucceeded(run, id))
  }

  /** What resumed executions keep of the nodes: each is committed at most once, and every artifact is the output of one of them. */
  ghost predicate KeptNodes(job: Job, run: Run) {
    CommittedOnce(run) && ArtifactsKnown(job, run)
  }

  /** `r` bounds the retries of every node. */
  ghost predicate StepsBounded(job: Job, r: nat, run: Run) {
    0 <= run.steps && (run.steps == 0 || run.steps <= StepLimit(job) + r)
  }

  ghost predicate FilesBounded(job: Job, run: Run) {
    run.files == |run.artifacts| && (job.maxFiles.Some? ==> run.files <= 0 || run.files <= job.maxFiles.value)
  }

  /** Over the token budget, the run has an unfinished node, which will halt it again. */
  ghost predicate TokensGuarded(job: Job, run: Run) {
    WithinTokens(job, run) || !AllSucceeded(job, run)
  }

  /** A node that needs approval has been approved. */
  ghost predicate Granted(job: Job, run: Run, id: Id) {
    id in job.nodes && NeedsApproval(job, id) && Approval(id, true) in run.approvals
  }

  /** The artifact lies in the overlay, or some node that needs approval has been approved. */
  ghost predicate Excused(job: Job, run: Run, path: string) {
    AssertPathSafeOverlay(path) || exists id :: Granted(job, run, id)
  }

  ghost predicate ArtifactsExcused(job: Job, run: Run) {
    forall i :: 0 <= i < |run.artifacts| ==> Excused(job, run, run.artifacts[i])
  }

  /** What every execution keeps. */
  ghost predicate Books(job: Job, r: nat, run: Run) {
    StepsBounded(job, r, run) && FilesBounded(job, run) && TokensGuarded(job, run) && ArtifactsExcused(job, run)
  }

  ghost predicate Kept(job: Job, r: nat, run: Run, resumed: bool) {
    Books(job, r, run) && (resumed ==> KeptNodes(job, run))
  }

  ghost predicate RetriesBounded(job: Job, r: nat) {
    forall id :: id in job.ids ==> id in job.nodes && RetryMax(job, id) <= r
  }

  lemma ArtifactStays(job: Job, id: Id, a: Run, b: Run, x: Id, path: string)
    requires NodeStep(job, id, a, b) && ArtifactOf(job, a, x, path)
    ensures ArtifactOf(job, b, x, path)
  {
  }

  lemma ArtifactsStep(job: Job, id: Id, a: Run, b: Run)
    requires NodeStep(job, id, a, b) && ArtifactsKnown(job, a)
    ensures ArtifactsKnown(job, b)
  {
    forall i | 0 <= i < |b.artifacts|
      ensures KnownArtifact(job, b, b.artifacts[i])
    {
      if i < |a.artifacts| {
        assert KnownArtifact(job, a, a.artifacts[i]);
        var x :| ArtifactOf(job, a, x, a.artifacts[i]);
        ArtifactStays(job, id, a, b, x, a.artifacts[i]);
      } else {
        assert ArtifactOf(job, b, id, b.artifacts[i]);
      }
    }
  }

  lemma ExcusedStays(job: Job, a: Run, b: Run, path: string)
    requires Excused(job, a, path) && a.approvals <= b.approvals
    ensures Excused(job, b, path)
  {
    hide AssertPathSafeOverlay, NeedsApproval;
    if !AssertPathSafeOverlay(path) {
      var id :| Granted(job, a, id);
      assert Granted(job, b, id);
    }
  }

  lemma WrittenIsExcused(job: Job, id: Id, a: Run, b: Run)
    requires Wrote(job, id, a, b)
    ensures Excused(job, b, b.artifacts[|a.artifacts|])
  {
    hide AssertPathSafeOverlay;
    NoApprovalIffSafe(job.nodes[id].permissionClass, "");
    if NeedsApproval(job, id) {
      assert Granted(job, b, id);
    }
  }

  lemma ExcusesStep(job: Job, id: Id, a: Run, b: Run)
    requires NodeStep(job, id, a, b) && ArtifactsExcused(job, a)
    ensures ArtifactsExcused(job, b)
  {
    hide AssertPathSafeOverlay, Excused;
    forall i | 0 <= i < |b.artifacts|
      ensures Excused(job, b, b.artifacts[i])
    {
      if i < |a.artifacts| {
        ExcusedStays(job, a, b, a.artifacts[i]);
      } else {
        WrittenIsExcused(job, id, a, b);
      }
    }
  }

  lemma CommitsStep(job: Job, id: Id, a: Run, b: Run)
    requires NodeStep(job, id, a, b) && CommittedOnce(a)
    ensures CommittedOnce(b)
  {
    forall x
      ensures Commits(b.events, x) <= PlusIf(0, IsSucceeded(b, x))
    {
      assert Commits(a.events, x) <= PlusIf(0, IsSucceeded(a, x));
    }
  }

  lemma TokensStep(job: Job, id: Id, a: Run, b: Run)
    requires NodeStep(job, id, a, b) && TokensGuarded(job, a) && id in job.ids
    ensures TokensGuarded(job, b)
  {
    if !WithinTokens(job, a) {
      var x :| x in job.ids && !IsSucceeded(a, x);
      assert !IsSucceeded(b, x);
    }
  }

  lemma VisitKeeps(job: Job, r: nat, id: Id, a: Run, v: Visit, resumed: bool)
    requires id in job.nodes && VisitOk(job, id, a, v) && Kept(job, r, a, resumed) && RetriesBounded(job, r) && id in job.ids
    ensures Kept(job, r, v.run, resumed)
  {
    hide CommittedOnce, ArtifactsKnown, TokensGuarded, ArtifactsExcused;
    if resumed {
      CommitsStep(job, id, a, v.run);
      ArtifactsStep(job, id, a, v.run);
    }
    ExcusesStep(job, id, a, v.run);
    TokensStep(job, id, a, v.run);
  }

  /** Taking up a succeeded node again keeps the books. */
  lemma FacedKeeps(job: Job, r: nat, id: Id, a: Run, resume: bool, resumed: bool)
    requires Kept(job, r, a, resumed) && (resumed ==> resume)
    ensures Kept(job, r, Faced(a, id, resume), resumed)
  {
    var f := Faced(a, id, resume);
    if !WithinTokens(job, a) {
      var x :| x in job.ids && !IsSucceeded(a, x);
      assert !IsSucceeded(f, x);
    }
    forall i | 0 <= i < |f.artifacts|
      ensures Excused(job, f, f.artifacts[i])
    {
      ExcusedStays(job, a, f, a.artifacts[i]);
    }
  }

  // ---------------------------------------------------------------- walking a list of nodes

  /** Records only grow, and a cancel request stays. */
  ghost predicate RecordsGrow(a: Run, b: Run) {
    a.approvals <= b.approvals && a.events <= b.events && a.artifacts <= b.artifacts && (a.cancelRequested ==> b.cancelRequested)
  }

  /** Besides, succeeded nodes stay as they are. */
  ghost predicate Grows(a: Run, b: Run) {
    RecordsGrow(a, b) && forall x :: IsSucceeded(a, x) ==> x in b.nodeStates && b.nodeStates[x] == a.nodeStates[x]
  }

  ghost predicate GrowsAs(a: Run, b: Run, resumed: bool) {
    RecordsGrow(a, b) && (resumed ==> Grows(a, b))
  }

  lemma GrowsTransitive(a: Run, b: Run, c: Run, resumed: bool)
    requires GrowsAs(a, b, resumed) && GrowsAs(b, c, resumed)
    ensures GrowsAs(a, c, resumed)
  {
    if resumed {
      forall x | IsSucceeded(a, x)
        ensures x in c.nodeStates && c.nodeStates[x] == a.nodeStates[x]
      {
        assert IsSucceeded(b, x);
      }
    }
  }

  lemma StepGrows(job: Job, id: Id, a: Run, b: Run)
    requires NodeStep(job, id, a, b)
    ensures Grows(a, b)
  {
  }

  /** A handler call of an execution that started in `a`: no cancel request is pending, the node is not marked as succeeded,
      and if it needs approval it was approved in this execution. */
  ghost predicate CallSafe(job: Job, a: Run, c: Call) {
    && c.id in job.ids && c.id in job.nodes && !a.cancelRequested && !c.before.cancelRequested && !IsSucceeded(c.before, c.id)
    && a.approvals <= c.before.approvals
    && (NeedsApproval(job, c.id) ==> Approval(c.id, true) in c.before.approvals[|a.approvals|..])
  }

  ghost predicate CallsSafe(job: Job, a: Run, calls: seq<Call>) {
    forall i :: 0 <= i < |calls| ==> CallSafe(job, a, calls[i])
  }

  lemma VisitCallIsSafe(job: Job, id: Id, a: Run, c: Call)
    requires VisitCall(job, id, a, c) && id in job.ids
    ensures CallSafe(job, a, c)
  {
    if NeedsApproval(job, id) {
      assert c.before.approvals[|a.approvals|..] == [Approval(id, true)];
    }
  }

  lemma CallsSafeEarlier(job: Job, a: Run, b: Run, calls: seq<Call>)
    requires RecordsGrow(a, b) && CallsSafe(job, b, calls)
    ensures CallsSafe(job, a, calls)
  {
    forall i | 0 <= i < |calls|
      ensures CallSafe(job, a, calls[i])
    {
      var c := calls[i];
      assert CallSafe(job, b, c);
      var later, earlier := c.before.approvals[|b.approvals|..], c.before.approvals[|a.approvals|..];
      assert later == earlier[|b.approvals| - |a.approvals|..];
    }
  }

  /** Each of the nodes is committed at most once more, and no other. */
  ghost predicate CommitsAdded(a: Run, b: Run, order: seq<Id>) {
    forall x :: Commits(b.events, x) <= PlusIf(Commits(a.events, x), x in order)
  }

  ghost predicate WalkOk(job: Job, r: nat, order: seq<Id>, a: Run, v: Visit, resume: bool, resumed: bool) {
    && GrowsAs(a, v.run, resume) && Kept(job, r, v.run, resumed) && CallsSafe(job, a, v.calls)
    && v.run.steps == a.steps + |v.calls| && CommitsAdded(a, v.run, order)
    && (if v.halted then v.run.status in {Failed, Cancelled, NeedsReview} else v.run.status == Running)
    && (!v.halted ==> WithinTokens(job, a) || forall id :: id in order ==> IsSucceeded(a, id))
    && (!v.halted && WithinTokens(job, a) ==> WithinTokens(job, v.run))
  }

  ghost predicate Listed(job: Job, order: seq<Id>) {
    forall id :: id in order ==> id in job.ids && id in job.nodes && id in job.keys
  }

  /** What one visit of the walk does, whether it resumes or not. */
  ghost predicate StepOk(job: Job, r: nat, id: Id, a: Run, v: Visit, resume: bool, resumed: bool) {
    && GrowsAs(a, v.run, resume) && Kept(job, r, v.run, resumed) && CallsSafe(job, a, v.calls)
    && v.run.steps == a.steps + |v.calls| && CommitsAdded(a, v.run, [id])
    && (if v.halted then v.run.status in {Failed, Cancelled, NeedsReview} else v.run.status == Running)
    && (!v.halted && WithinTokens(job, a) ==> WithinTokens(job, v.run))
    && (!v.halted && !WithinTokens(job, a) ==>
          IsSucceeded(a, id) && !WithinTokens(job, v.run) && forall x :: x != id ==> (IsSucceeded(v.run, x) <==> IsSucceeded(a, x)))
  }

  lemma VisitIsStep(job: Job, r: nat, env: Env, id: Id, a: Run, resume: bool, resumed: bool)
    requires id in job.ids && id in job.nodes && id in job.keys && RetriesBounded(job, r) && Kept(job, r, a, resumed) && a.status == Running
    requires resumed ==> resume
    ensures StepOk(job, r, id, a, VisitNode(job, env, id, a, resume), resume, resumed)
  {
    hide Kept, VisitNode, RetriesBounded, Commits, NeedsApproval;
    var f, v := Faced(a, id, resume), VisitNode(job, env, id, a, resume);
    VisitFaces(job, env, id, a, resume);
    FacedKeeps(job, r, id, a, resume, resumed);
    VisitNodeIsOk(job, env, id, f);
    VisitKeeps(job, r, id, f, v, resumed);
    StepGrows(job, id, f, v.run);
    forall i | 0 <= i < |v.calls|
      ensures CallSafe(job, f, v.calls[i])
    {
      VisitCallIsSafe(job, id, f, v.calls[i]);
    }
    CallsSafeEarlier(job, a, f, v.calls);
    if a.cancelRequested {
      CancelHalts(job, env, id, a, resume);
    }
  }

  lemma CancelHalts(job: Job, env: Env, id: Id, a: Run, resume: bool)
    requires id in job.nodes && id in job.keys && a.cancelRequested
    ensures VisitNode(job, env, id, a, resume).halted
  {
  }

  lemma {:induction false} VisitAllIsOk(job: Job, r: nat, env: Env, order: seq<Id>, a: Run, resume: bool, resumed: bool)
    requires Listed(job, order) && Distinct(order) && RetriesBounded(job, r) && Kept(job, r, a, resumed) && a.status == Running && (resumed ==> resume)
    ensures WalkOk(job, r, order, a, VisitAll(job, env, order, a, resume), resume, resumed)
    decreases |order|
  {
    hide Kept, CallSafe, VisitNode, GrowsAs, RecordsGrow, WithinTokens, RetriesBounded, CommitsAdded;
    if order == [] {
      GrowsSelf(a, resume);
      NoneAdded(a);
    } else {
      var id, rest := order[0], order[1..];
      assert id in order && order == [id] + rest;
      var v := VisitNode(job, env, id, a, resume);
      VisitIsStep(job, r, env, id, a, resume, resumed);
      if v.halted {
        AddedMore(a, v.run, v.run, id, rest);
      } else {
        assert Distinct(rest) && id !in rest;
        VisitAllIsOk(job, r, env, rest, v.run, resume, resumed);
        var w := VisitAll(job, env, rest, v.run, resume);
        GrowsTransitive(a, v.run, w.run, resume);
        GrowsRecords(a, v.run, resume);
        CallsSafeEarlier(job, a, v.run, w.calls);
        AddedMore(a, v.run, w.run, id, rest);
      }
    }
  }

  lemma GrowsSelf(a: Run, resumed: bool)
    ensures GrowsAs(a, a, resumed)
  {
  }

  lemma GrowsRecords(a: Run, b: Run, resumed: bool)
    requires GrowsAs(a, b, resumed)
    ensures RecordsGrow(a, b)
  {
  }

  lemma NoneAdded(a: Run)
    ensures CommitsAdded(a, a, [])
  {
  }

  lemma AddedMore(a: Run, b: Run, c: Run, id: Id, rest: seq<Id>)
    requires CommitsAdded(a, b, [id]) && id !in rest && (CommitsAdded(b, c, rest) || b == c)
    ensures CommitsAdded(a, c, [id] + rest)
  {
    forall x
      ensures Commits(c.events, x) <= PlusIf(Commits(a.events, x), x in [id] + rest)
    {
      assert Commits(b.events, x) <= PlusIf(Commits(a.events, x), x in [id]);
      assert CommitsAdded(b, c, rest) ==> Commits(c.events, x) <= PlusIf(Commits(b.events, x), x in rest);
    }
  }

  // ---------------------------------------------------------------- one execution

  /** A run that reports success is within its token budget, and has an artifact if the workflow asks for results. */
  ghost predicate SuccessMeans(job: Job, run: Run) {
    run.status == Succeeded ==> WithinTokens(job, run) && (job.criteria ==> run.artifacts != [])
  }

  /** Each node is committed at most once more. */
  ghost predicate OnceMore(a: Run, b: Run) {
    forall x :: Commits(b.events, x) <= Commits(a.events, x) + 1
  }

  lemma QuietKeepsNodes(job: Job, a: Run, b: Run)
    requires Quiet(a, b) && KeptNodes(job, a)
    ensures KeptNodes(job, b)
  {
    forall id
      ensures Commits(b.events, id) <= PlusIf(0, IsSucceeded(b, id))
    {
      assert Commits(a.events, id) <= PlusIf(0, IsSucceeded(a, id));
    }
    forall i | 0 <= i < |b.artifacts|
      ensures KnownArtifact(job, b, b.artifacts[i])
    {
      assert KnownArtifact(job, a, a.artifacts[i]);
      var id :| ArtifactOf(job, a, id, a.artifacts[i]);
      assert ArtifactOf(job, b, id, b.artifacts[i]);
    }
  }

  lemma QuietKeepsBooks(job: Job, r: nat, a: Run, b: Run)
    requires Quiet(a, b) && Books(job, r, a)
    ensures Books(job, r, b)
  {
    hide AssertPathSafeOverlay, Excused;
    forall i | 0 <= i < |b.artifacts|
      ensures Excused(job, b, b.artifacts[i])
    {
      ExcusedStays(job, a, b, a.artifacts[i]);
    }
    if !WithinTokens(job, a) {
      var x :| x in job.ids && !IsSucceeded(a, x);
      assert !IsSucceeded(b, x);
    }
  }

  lemma QuietKeeps(job: Job, r: nat, a: Run, b: Run, resumed: bool)
    requires Quiet(a, b) && Kept(job, r, a, resumed)
    ensures Kept(job, r, b, resumed) && GrowsAs(a, b, true) && OnceMore(a, b)
  {
    hide Books, KeptNodes;
    QuietKeepsBooks(job, r, a, b);
    if resumed {
      QuietKeepsNodes(job, a, b);
    }
  }

  ghost predicate SessionOk(job: Job, r: nat, a: Run, s: Session, resume: bool, resumed: bool) {
    && GrowsAs(a, s.run, resume) && Kept(job, r, s.run, resumed) && SuccessMeans(job, s.run) && CallsSafe(job, a, s.calls)
    && s.run.steps == a.steps + |s.calls| && OnceMore(a, s.run)
    && (a.cancelRequested ==> s.calls == [])
    && (a.status == Cancelled ==> s.run.status == Cancelled && s.calls == [])
  }

  /** One execution, from any state that earlier ones can leave. */
  lemma ExecuteIsOk(job: Job, r: nat, env: Env, a: Run, resume: bool, resumed: bool)
    requires ValidJob(job) && RetriesBounded(job, r) && Kept(job, r, a, resumed) && SuccessMeans(job, a) && (resumed ==> resume)
    ensures SessionOk(job, r, a, Execute(job, env, a, resume), resume, resumed)
  {
    hide Kept, GrowsAs, CallsSafe, RetriesBounded, Quiet, WithinTokens, VisitAll, OrderOf, OnceMore, CommitsAdded;
    if a.cancelRequested || a.status == Cancelled {
      CancelSessionIsOk(job, r, a, resume, resumed);
    } else {
      var started, order := Started(a, resume), OrderOf(job);
      QuietEvent(a, started, RunStarted(resume));
      QuietKeeps(job, r, a, started, resumed);
      OrderListed(job);
      VisitAllIsOk(job, r, env, order, started, resume, resumed);
      var v := VisitAll(job, env, order, started, resume);
      GrowsLess(a, started, resume);
      GrowsTransitive(a, started, v.run, resume);
      GrowsRecords(a, started, true);
      CallsSafeEarlier(job, a, started, v.calls);
      NoCallAfterCancel(job, a, v.calls);
      if !v.halted {
        var end := Finish(job, v.run);
        QuietEvent(v.run, end, if job.criteria && v.run.artifacts == [] then VerifyFailed else RunSucceeded);
        QuietKeeps(job, r, v.run, end, resumed);
        GrowsLess(v.run, end, resume);
        GrowsTransitive(a, v.run, end, resume);
        FinishedWithinTokens(job, r, order, started, v, resume, resumed);
        QuietTokens(job, v.run, end);
        OnceMoreInAll(a, started, v.run, end, order);
      } else {
        HaltedIsNotSuccess(job, v.run);
        QuietSelf(v.run);
        OnceMoreInAll(a, started, v.run, v.run, order);
      }
    }
  }

  lemma GrowsLess(a: Run, b: Run, resumed: bool)
    requires GrowsAs(a, b, true)
    ensures GrowsAs(a, b, resumed)
  {
  }

  lemma QuietSelf(a: Run)
    ensures Quiet(a, a)
  {
  }

  lemma OnceMoreInAll(a: Run, started: Run, b: Run, end: Run, order: seq<Id>)
    requires Quiet(a, started) && CommitsAdded(started, b, order) && Quiet(b, end)
    ensures OnceMore(a, end)
  {
    forall x
      ensures Commits(end.events, x) <= Commits(a.events, x) + 1
    {
      assert Commits(started.events, x) == Commits(a.events, x);
      assert Commits(b.events, x) <= PlusIf(Commits(started.events, x), x in order);
      assert Commits(end.events, x) == Commits(b.events, x);
    }
  }

  lemma HaltedIsNotSuccess(job: Job, run: Run)
    requires run.status in {Failed, Cancelled, NeedsReview}
    ensures SuccessMeans(job, run)
  {
  }

  lemma QuietTokens(job: Job, a: Run, b: Run)
    requires Quiet(a, b)
    ensures WithinTokens(job, a) == WithinTokens(job, b)
  {
  }

  lemma OrderListed(job: Job)
    requires ValidJob(job)
    ensures Listed(job, OrderOf(job)) && Distinct(OrderOf(job))
  {
  }

  lemma NoCallAfterCancel(job: Job, a: Run, calls: seq<Call>)
    requires CallsSafe(job, a, calls)
    ensures a.cancelRequested ==> calls == []
  {
    assert calls != [] ==> CallSafe(job, a, calls[0]);
  }

  lemma FinishedWithinTokens(job: Job, r: nat, order: seq<Id>, a: Run, v: Visit, resume: bool, resumed: bool)
    requires WalkOk(job, r, order, a, v, resume, resumed) && !v.halted && Kept(job, r, a, resumed)
    requires ValidJob(job) && order == OrderOf(job)
    ensures WithinTokens(job, v.run)
  {
    assert WithinTokens(job, a) || AllSucceeded(job, a);
  }

  lemma CancelSessionIsOk(job: Job, r: nat, a: Run, resume: bool, resumed: bool)
    requires Kept(job, r, a, resumed) && SuccessMeans(job, a)
    ensures SessionOk(job, r, a, Session(Cancel(a), []), resume, resumed)
  {
    QuietCancel(a);
    QuietKeeps(job, r, a, Cancel(a), resumed);
  }

  /** What is kept does not depend on the cache keys. */
  lemma KeysDoNotMatter(job: Job, key: Id -> Key, r: nat, run: Run, resumed: bool)
    requires ValidJob(job)
    ensures var keyed := WithKeys(job, key);
      && (Kept(keyed, r, run, resumed) <==> Kept(job, r, run, resumed)) && (RetriesBounded(keyed, r) <==> RetriesBounded(job, r))
      && (SuccessMeans(keyed, run) <==> SuccessMeans(job, run))
  {
    var keyed := WithKeys(job, key);
    hide AssertPathSafeOverlay;
    forall path
      ensures Excused(keyed, run, path) <==> Excused(job, run, path)
      ensures KnownArtifact(keyed, run, path) <==> KnownArtifact(job, run, path)
    {
      assert forall id :: Granted(keyed, run, id) <==> Granted(job, run, id);
      assert forall id :: ArtifactOf(keyed, run, id, path) <==> ArtifactOf(job, run, id, path);
    }
  }

  lemma KeyedCallsSafe(job: Job, key: Id -> Key, a: Run, calls: seq<Call>)
    requires ValidJob(job)
    ensures CallsSafe(WithKeys(job, key), a, calls) <==> CallsSafe(job, a, calls)
  {
    assert forall c :: CallSafe(WithKeys(job, key), a, c) <==> CallSafe(job, a, c);
  }

  predicate Resumes(action: Action) {
    action.Execution? ==> action.resume
  }

  lemma ActIsOk(job: Job, r: nat, a: Run, action: Action, resumed: bool)
    requires ValidJob(job) && RetriesBounded(job, r) && Kept(job, r, a, resumed) && SuccessMeans(job, a) && (resumed ==> Resumes(action))
    ensures SessionOk(job, r, a, Act(job, a, action), Resumes(action), resumed)
  {
    hide Execute, Kept, RetriesBounded, SuccessMeans, CallsSafe;
    match action
    case Execution(env, key, resume) =>
      var s := Act(job, a, action);
      KeysDoNotMatter(job, key, r, a, resumed);
      KeysDoNotMatter(job, key, r, s.run, resumed);
      KeyedCallsSafe(job, key, a, s.calls);
      ExecuteIsOk(WithKeys(job, key), r, env, a, resume, resumed);
    case CancelIt => CancelSessionIsOk(job, r, a, true, resumed);
    case SaveAndLoad =>
      assert FromDict(ToDict(a)) == a.(cache := map[]);
      QuietKeeps(job, r, a, FromDict(ToDict(a)), resumed);
      SavedMeans(job, a);
      NoCallsSafe(job, a);
  }

  lemma SavedMeans(job: Job, a: Run)
    requires SuccessMeans(job, a)
    ensures SuccessMeans(job, FromDict(ToDict(a)))
  {
  }

  lemma NoCallsSafe(job: Job, a: Run)
    ensures CallsSafe(job, a, [])
  {
  }

  // ---------------------------------------------------------------- every sequence of actions

  lemma FreshIsKept(job: Job, r: nat)
    requires job.maxTokens.Some? ==> job.maxTokens.value >= 0 || job.ids != []
    ensures Kept(job, r, FRESH, true) && SuccessMeans(job, FRESH)
  {
    if !WithinTokens(job, FRESH) {
      assert job.ids[0] in job.ids && !IsSucceeded(FRESH, job.ids[0]);
    }
  }

  /** No execution of the sequence starts anew. */
  ghost predicate AllResume(actions: seq<Action>) {
    forall i :: 0 <= i < |actions| ==> Resumes(actions[i])
  }

  function Executions(actions: seq<Action>): nat {
    if actions == [] then 0 else Executions(actions[..|actions| - 1]) + if actions[|actions| - 1].Execution? then 1 else 0
  }

  ghost predicate CommitsWithin(run: Run, n: nat) {
    forall x :: Commits(run.events, x) <= n
  }

  /** Safety from a fresh run through any actions, on any inputs, resuming or not: the artifact count is exact and within its budget; an
      artifact outside the overlay takes an approval; steps equal handler calls and exceed the step budget by at most the retries; reported
      success is within the token budget and, if results are asked for, comes with an artifact; and no node commits more often than the
      workflow was executed. When all executions resume, nodes commit at most once, and every artifact is the output of one of them. */
  lemma {:induction false} HistoryIsSafe(job: Job, r: nat, actions: seq<Action>)
    requires ValidJob(job) && RetriesBounded(job, r)
    requires job.maxTokens.Some? ==> job.maxTokens.value >= 0 || job.ids != []
    ensures var h := History(job, FRESH, actions);
      && Kept(job, r, h.run, AllResume(actions)) && SuccessMeans(job, h.run)
      && h.run.steps == |h.calls| && CommitsWithin(h.run, Executions(actions))
    decreases |actions|
  {
    hide Books, KeptNodes, SuccessMeans, Act, RetriesBounded;
    if actions == [] {
      FreshIsKept(job, r);
    } else {
      var n := |actions| - 1;
      var before := History(job, FRESH, actions[..n]);
      HistoryIsSafe(job, r, actions[..n]);
      FrontResumes(actions);
      ActIsOk(job, r, before.run, actions[n], AllResume(actions));
      if !actions[n].Execution? {
        OthersCommitNothing(job, before.run, actions[n]);
      }
      WithinMore(before.run, Act(job, before.run, actions[n]).run, actions);
    }
  }

  lemma FrontResumes(actions: seq<Action>)
    requires actions != []
    ensures AllResume(actions) ==> AllResume(actions[..|actions| - 1]) && Resumes(actions[|actions| - 1])
  {
    var front := actions[..|actions| - 1];
    assert forall i :: 0 <= i < |front| ==> front[i] == actions[i];
  }

  lemma OthersCommitNothing(job: Job, a: Run, action: Action)
    requires ValidJob(job) && !action.Execution?
    ensures forall x :: Commits(Act(job, a, action).run.events, x) == Commits(a.events, x)
  {
    QuietCancel(a);
  }

  lemma WithinMore(a: Run, b: Run, actions: seq<Action>)
    requires actions != [] && CommitsWithin(a, Executions(actions[..|actions| - 1])) && OnceMore(a, b)
    requires !actions[|actions| - 1].Execution? ==> forall x :: Commits(b.events, x) == Commits(a.events, x)
    ensures CommitsWithin(b, Executions(actions))
  {
    forall x
      ensures Commits(b.events, x) <= Executions(actions)
    {
      assert Commits(a.events, x) <= Executions(actions[..|actions| - 1]);
    }
  }

  /** At any later time nothing recorded is gone, no call follows a cancel request, and a cancelled run stays cancelled; and when all later
      executions resume, succeeded nodes are as they were. */
  lemma {:induction false} HistoryGrows(job: Job, r: nat, actions: seq<Action>, k: nat)
    requires ValidJob(job) && RetriesBounded(job, r) && k <= |actions|
    requires job.maxTokens.Some? ==> job.maxTokens.value >= 0 || job.ids != []
    ensures var early, late := History(job, FRESH, actions[..k]), History(job, FRESH, actions);
      && GrowsAs(early.run, late.run, AllResume(actions[k..])) && early.calls <= late.calls
      && (early.run.cancelRequested ==> late.calls == early.calls)
      && (early.run.status == Cancelled ==> late.run.status == Cancelled && late.calls == early.calls)
    decreases |actions|
  {
    hide Books, KeptNodes, SuccessMeans, Act, RetriesBounded, GrowsAs;
    var early := History(job, FRESH, actions[..k]);
    if k == |actions| {
      assert actions[..k] == actions;
      GrowsSelf(early.run, AllResume(actions[k..]));
    } else {
      var n := |actions| - 1;
      assert actions[..n][..k] == actions[..k] && actions[..n][k..] == actions[k..][..|actions[k..]| - 1];
      HistoryGrows(job, r, actions[..n], k);
      HistoryIsSafe(job, r, actions[..n]);
      var mid := History(job, FRESH, actions[..n]);
      var late := Act(job, mid.run, actions[n]);
      ActIsOk(job, r, mid.run, actions[n], false);
      FrontResumes(actions[k..]);
      Grown(early.run, mid.run, AllResume(actions[..n][k..]), AllResume(actions[k..]));
      Grown(mid.run, late.run, Resumes(actions[n]), AllResume(actions[k..]));
      GrowsTransitive(early.run, mid.run, late.run, AllResume(actions[k..]));
      GrowsCancel(early.run, mid.run, AllResume(actions[k..]));
    }
  }

  lemma Grown(a: Run, b: Run, resumed: bool, less: bool)
    requires GrowsAs(a, b, resumed) && (less ==> resumed)
    ensures GrowsAs(a, b, less)
  {
  }

  lemma GrowsCancel(a: Run, b: Run, resumed: bool)
    requires GrowsAs(a, b, resumed)
    ensures a.cancelRequested ==> b.cancelRequested
  {
  }

  /** Every handler call of every execution was safe with respect to the start of that execution. */
  lemma LastCallsAreSafe(job: Job, r: nat, actions: seq<Action>)
    requires ValidJob(job) && RetriesBounded(job, r) && actions != []
    requires job.maxTokens.Some? ==> job.maxTokens.value >= 0 || job.ids != []
    ensures var before := History(job, FRESH, actions[..|actions| - 1]);
      CallsSafe(job, before.run, Act(job, before.run, actions[|actions| - 1]).calls)
  {
    hide Books, KeptNodes, SuccessMeans, Act, RetriesBounded;
    HistoryIsSafe(job, r, actions[..|actions| - 1]);
    ActIsOk(job, r, History(job, FRESH, actions[..|actions| - 1]).run, actions[|actions| - 1], false);
  }

  /** The node wrote the artifact; if it needs approval it was approved, and otherwise the artifact lies in the overlay. */
  ghost predicate Vouches(job: Job, run: Run, id: Id, path: string) {
    && ArtifactOf(job, run, id, path)
    && if NeedsApproval(job, id) then Approval(id, true) in run.approvals else AssertPathSafeOverlay(path)
  }

  ghost predicate VouchedFor(job: Job, run: Run, path: string) {
    exists id :: Vouches(job, run, id, path)
  }

  ghost predicate AllVouchedFor(job: Job, run: Run) {
    forall i :: 0 <= i < |run.artifacts| ==> VouchedFor(job, run, run.artifacts[i])
  }

  lemma KnownIsVouchedFor(job: Job, run: Run)
    requires ArtifactsKnown(job, run)
    ensures AllVouchedFor(job, run)
  {
    hide AssertPathSafeOverlay;
    forall i | 0 <= i < |run.artifacts|
      ensures VouchedFor(job, run, run.artifacts[i])
    {
      assert KnownArtifact(job, run, run.artifacts[i]);
      var id :| ArtifactOf(job, run, id, run.artifacts[i]);
      NoApprovalIffSafe(job.nodes[id].permissionClass, "");
      assert Vouches(job, run, id, run.artifacts[i]);
    }
  }

  /** As long as executions resume, every recorded artifact was written by a node that succeeded with it: if the node applies automatically
      the artifact lies in the overlay, and otherwise the node was approved. In any history, an artifact outside the overlay takes an approval. */
  lemma ArtifactsStayInOverlay(job: Job, r: nat, actions: seq<Action>)
    requires ValidJob(job) && RetriesBounded(job, r) && (job.maxTokens.Some? ==> job.maxTokens.value >= 0 || job.ids != [])
    ensures var run := History(job, FRESH, actions).run; ArtifactsExcused(job, run) && (AllResume(actions) ==> AllVouchedFor(job, run))
  {
    hide AllVouchedFor, ArtifactsKnown, ArtifactsExcused, History, AllResume;
    HistoryIsSafe(job, r, actions);
    if AllResume(actions) {
      KnownIsVouchedFor(job, History(job, FRESH, actions).run);
    }
  }
}
