/** The offline queue and the history panel: what is kept, over every run. */
module SyncQueue {
  import opened Wrappers
  import opened SyncModel
  import opened SyncLaws
  import opened SyncRuns

  // ---------------------------------------------------------------- the lists themselves

  /** No commit is queued twice. */
  ghost predicate NoRepeats(queue: seq<Item>) {
    forall i, j :: 0 <= i < j < |queue| ==> !SameCommit(queue[i], queue[j].summary, queue[j].paths)
  }

  /** Queueing keeps what is queued, adds the commit, never twice, and queueing it again changes nothing. */
  lemma EnqueueFacts(queue: seq<Item>, item: Item, again: Item)
    requires NoRepeats(queue)
    ensures var q := Enqueue(queue, item);
      NoRepeats(q) && queue <= q && IsQueued(q, item.summary, item.paths)
        && (SameCommit(again, item.summary, item.paths) ==> Enqueue(q, again) == q)
  {
    var q := Enqueue(queue, item);
    if !IsQueued(queue, item.summary, item.paths) {
      assert q[|queue|] == item;
      assert SameCommit(q[|queue|], item.summary, item.paths);
      forall i | 0 <= i < |queue|
        ensures !SameCommit(q[i], item.summary, item.paths)
      {
        assert q[i] == queue[i];
      }
    }
  }

  function PushAll(history: seq<Event>, events: seq<Event>): seq<Event> {
    if events == [] then history else PushHistory(PushAll(history, events[..|events| - 1]), events[|events| - 1])
  }

  lemma CapStep(all: seq<Event>, e: Event)
    ensures PushHistory(Capped(all), e) == Capped(all + [e])
  {
    var n, k := |all|, HISTORY_CAP;
    if n > k {
      assert (all[n - k..] + [e])[1..] == (all + [e])[n + 1 - k..];
    }
  }

  /** Pushing events one by one keeps exactly the last of them all. */
  lemma {:induction false} HistoryKeepsTheLast(history: seq<Event>, events: seq<Event>)
    requires |history| <= HISTORY_CAP
    ensures PushAll(history, events) == Capped(history + events)
  {
    hide PushHistory;
    if events == [] {
      assert history + events == history;
    } else {
      var n := |events| - 1;
      HistoryKeepsTheLast(history, events[..n]);
      CapStep(history + events[..n], events[n]);
      assert history + events == history + events[..n] + [events[n]];
    }
  }

  // ---------------------------------------------------------------- every disk of a run

  /** The queue is one of the given ones and the history is not too long. */
  ghost predicate Fits(d: Disk, queues: set<seq<Item>>) {
    d.queue in queues && |d.history| <= HISTORY_CAP
  }

  /** The queue file is being rewritten in place. */
  predicate InRewrite(m: Moment) {
    m.Wrote? && m.emptied == Some(QueueFile)
  }

  ghost predicate MomentFits(m: Moment, queues: set<seq<Item>>) {
    m.Did? || (if InRewrite(m) then m.disk.queue == [] && |m.disk.history| <= HISTORY_CAP else Fits(m.disk, queues))
  }

  ghost predicate AllFit(r: Run, queues: set<seq<Item>>) {
    Fits(r.w.disk, queues) && forall k :: 0 <= k < |r.trace| ==> MomentFits(r.trace[k], queues)
  }

  lemma WriteFits(r: Run, queues: set<seq<Item>>, d: Disk)
    requires AllFit(r, queues) && Fits(d, queues)
    ensures AllFit(Write(r, d), queues)
  {
  }

  lemma HistoryFits(r: Run, queues: set<seq<Item>>, history: seq<Event>)
    requires AllFit(r, queues) && |history| <= HISTORY_CAP
    ensures var emptied := Empty(r, r.w.disk.(history := []), HistoryFile);
      AllFit(emptied, queues) && AllFit(Write(emptied, r.w.disk.(history := history)), queues)
  {
  }

  lemma QueueFits(r: Run, queues: set<seq<Item>>, queue: seq<Item>, env: Env)
    requires AllFit(r, queues) && queue in queues && (env.queueWrite.Torn? ==> [] in queues)
    ensures AllFit(SaveQueue(r, queue, env), queues)
  {
  }

  lemma DidFits(r: Run, queues: set<seq<Item>>, op: Op)
    requires AllFit(r, queues)
    ensures AllFit(Doing(r, op), queues)
  {
  }

  lemma WithFits(r: Run, queues: set<seq<Item>>, mem: Memory, o: Outcome)
    requires AllFit(r, queues)
    ensures AllFit(With(r, mem), queues) && AllFit(Stop(r, o), queues)
  {
  }

  lemma RecordFits(r: Run, queues: set<seq<Item>>, kind: Kind, ok: bool, env: Env)
    requires AllFit(r, queues)
    ensures AllFit(Record(r, kind, ok, env), queues)
  {
    hide AllFit;
    HistoryFits(r, queues, PushHistory(r.w.disk.history, Event(kind, ok)));
  }

  lemma FitsNow(r: Run, queues: set<seq<Item>>)
    requires AllFit(r, queues)
    ensures Fits(r.w.disk, queues)
  {
  }

  /** Entering a state, recording, persisting and stopping: none of these touches the queue. */
  lemma PersistFits(r: Run, queues: set<seq<Item>>, mem: Memory, op: Op, env: Env, o: Outcome)
    requires AllFit(r, queues)
    ensures var p := Persist(With(r, mem), op, env); AllFit(p, queues) && AllFit(Stop(p, o), queues)
  {
    hide AllFit;
    FitsNow(r, queues);
    WithFits(r, queues, mem, o);
    WriteFits(With(r, mem), queues, r.w.disk.(journal := JournalOf(With(r, mem).w, op)));
    WithFits(With(r, mem), queues, mem, Failed(JournalFailed));
    WithFits(Persist(With(r, mem), op, env), queues, mem, o);
  }

  lemma NotedFits(r: Run, queues: set<seq<Item>>, mem: Memory, kind: Kind, ok: bool, env: Env, o: Outcome)
    requires AllFit(r, queues)
    ensures AllFit(Stop(Persist(Record(With(r, mem), kind, ok, env), NoOp, env), o), queues)
  {
    hide AllFit, Persist;
    WithFits(r, queues, mem, o);
    RecordFits(With(r, mem), queues, kind, ok, env);
    var n := Record(With(r, mem), kind, ok, env);
    assert With(n, n.w.mem) == n;
    PersistFits(n, queues, n.w.mem, NoOp, env, o);
  }

  // ---------------------------------------------------------------- the phases

  function ItemOf(env: Env): Item {
    Item(env.itemId, env.summary, env.candidates)
  }

  lemma PutOffFits(r: Run, queues: set<seq<Item>>, env: Env)
    requires AllFit(r, queues) && Enqueue(r.w.disk.queue, ItemOf(env)) in queues
    requires env.queueWrite.Torn? && !IsQueued(r.w.disk.queue, env.summary, env.candidates) ==> [] in queues
    ensures AllFit(PutOff(r, env), queues)
  {
    hide AllFit, Persist, Enqueue, IsQueued;
    FitsNow(r, queues);
    var q := Enqueue(r.w.disk.queue, ItemOf(env));
    var queued := if IsQueued(r.w.disk.queue, env.summary, env.candidates) then r else SaveQueue(r, q, env);
    if !IsQueued(r.w.disk.queue, env.summary, env.candidates) {
      QueueFits(r, queues, q, env);
    }
    PersistFits(queued, queues, queued.w.mem.(state := OfflineQueued), NoOp, env, Done);
  }

  lemma CheckFits(w: World, queues: set<seq<Item>>, env: Env)
    requires Fits(w.disk, queues)
    ensures AllFit(AfterCheck(w, env), queues) && AfterCheck(w, env).w.disk.queue == w.disk.queue
  {
    hide Persist, Record;
    var r := Start(w);
    assert AllFit(r, queues);
    hide AllFit;
    WithFits(r, queues, w.mem, Failed(Refusal(w.mem.state)));
    var failed := w.mem.(state := SafeMode, lastError := Some("gitoxide open failed - safe mode"));
    PersistFits(r, queues, failed, NoOp, env, Failed(SafeModeRequired));
    PersistKeeps(With(r, failed), NoOp, env);
    var seen := With(r, w.mem.(preflight := env.warnings));
    WithFits(r, queues, seen.w.mem, Running);
    var mem := seen.w.mem.(state := Error, lastError := Some("Secret/credential pattern in staged content"));
    NotedFits(seen, queues, mem, PreflightEvent, false, env, Failed(SecretsBlocked));
    RecordKeepsQueue(With(seen, mem), PreflightEvent, false, env);
    PersistKeeps(Record(With(seen, mem), PreflightEvent, false, env), NoOp, env);
    PersistFits(seen, queues, seen.w.mem.(state := LockedSnapshot), NoOp, env, Running);
    PersistKeeps(Enter(seen, LockedSnapshot), NoOp, env);
  }

  lemma RecordKeepsQueue(r: Run, kind: Kind, ok: bool, env: Env)
    ensures Record(r, kind, ok, env).w.disk.queue == r.w.disk.queue
  {
  }

  lemma EnterFits(r: Run, queues: set<seq<Item>>, s: State, op: Op, env: Env)
    requires AllFit(r, queues)
    ensures var named := Persist(Enter(r, s), op, env);
      AllFit(named, queues) && AllFit(Doing(named, op), queues) && named.w.disk.queue == r.w.disk.queue
  {
    hide AllFit, Persist;
    PersistFits(r, queues, r.w.mem.(state := s), op, env, Running);
    PersistKeeps(Enter(r, s), op, env);
    DidFits(Persist(Enter(r, s), op, env), queues, op);
  }

  /** The commit is put off until the vault is online. */
  predicate PutsOff(s: State, env: Env) {
    Passed(s, env, 0) && Committing !in env.unsaved && (env.offline || (env.commit.Worked? && !env.authed))
  }

  lemma CommitFits(r: Run, queues: set<seq<Item>>, env: Env)
    requires AllFit(r, queues) && r.outcome.Running?
    requires Committing !in env.unsaved && (env.offline || (env.commit.Worked? && !env.authed)) ==>
      Enqueue(r.w.disk.queue, ItemOf(env)) in queues
      && (env.queueWrite.Torn? && !IsQueued(r.w.disk.queue, env.summary, env.candidates) ==> [] in queues)
    ensures AllFit(CommitPhase(r, env), queues)
  {
    hide AllFit, Persist, Record, PutOff, Enqueue, IsQueued;
    EnterFits(r, queues, Committing, Commit, env);
    var named := Persist(Enter(r, Committing), Commit, env);
    PersistFails(Enter(r, Committing), Commit, env);
    if named.outcome.Running? {
      var done := Doing(named, Commit);
      RecordFits(done, queues, CommitEvent, true, env);
      RecordKeepsQueue(done, CommitEvent, true, env);
      var noted := Record(done, CommitEvent, true, env);
      if env.offline || (env.commit.Worked? && !env.authed) {
        PutOffFits(done, queues, env);
        PutOffFits(noted, queues, env);
      }
      if env.commit.Broke? {
        PersistFits(done, queues, done.w.mem.(state := Error, lastError := Some(env.commit.message)), NoOp, env, Failed(GitFailed(env.commit.message)));
      }
    }
  }

  lemma PersistFails(r: Run, op: Op, env: Env)
    requires r.outcome.Running?
    ensures Persist(r, op, env).outcome.Running? <==> r.w.mem.state !in env.unsaved
  {
  }

  lemma FetchFits(r: Run, queues: set<seq<Item>>, env: Env)
    requires AllFit(r, queues) && r.outcome.Running?
    ensures AllFit(FetchPhase(r, env), queues)
  {
    hide AllFit, Persist, Record, Doubled;
    EnterFits(r, queues, Fetching, Fetch, env);
    var done := Doing(Persist(Enter(r, Fetching), Fetch, env), Fetch);
    if env.fetch.Broke? {
      var mem := done.w.mem.(lastError := Some(env.fetch.message), state := Backoff, backoff := Doubled(done.w.mem.backoff));
      NotedFits(done, queues, mem, FetchEvent, false, env, Failed(GitFailed(env.fetch.message)));
    }
  }

  lemma IntegrateFits(r: Run, queues: set<seq<Item>>, env: Env)
    requires AllFit(r, queues) && r.outcome.Running?
    ensures AllFit(IntegratePhase(r, env), queues)
  {
    hide AllFit, Persist, Record, Unsafe;
    EnterFits(r, queues, Integrating, Integrate, env);
    var done := Doing(Persist(Enter(r, Integrating), Integrate, env), Integrate);
    match env.integrate
    case Unmerged(message) =>
      PersistFits(done, queues, done.w.mem.(state := SafeMode, lastError := Some(message)), NoOp, env, Failed(SafeModeRequired));
      PersistFits(done, queues, done.w.mem.(state := Error, lastError := Some(message)), NoOp, env, Failed(GitFailed(message)));
    case Merged(clean, conflicts, files) =>
      RecordFits(done, queues, IntegrateEvent, true, env);
      var noted := if files == [] then done else Record(done, IntegrateEvent, true, env);
      var mem := noted.w.mem.(conflicts := conflicts, state := Conflict);
      PersistFits(noted, queues, mem, NoOp, env, Running);
      var held := Persist(With(noted, mem), NoOp, env);
      RecordFits(held, queues, ConflictEvent, false, env);
      var end := Record(held, ConflictEvent, false, env);
      WithFits(end, queues, end.w.mem, Failed(UnresolvedConflicts));
  }

  lemma ValidateFits(r: Run, queues: set<seq<Item>>, env: Env)
    requires AllFit(r, queues) && r.outcome.Running?
    ensures AllFit(ValidatePhase(r, env), queues)
  {
    hide AllFit, Persist, Record;
    EnterFits(r, queues, Validating, Validate, env);
    var done := Doing(Persist(Enter(r, Validating), Validate, env), Validate);
    match env.validate
    case Unchecked(message) =>
      WithFits(done, queues, done.w.mem, Failed(ValidationFailed(message)));
    case Checked(ok, report) =>
      NotedFits(done, queues, done.w.mem.(state := Error, lastError := Some(report)), ValidateEvent, false, env, Failed(ValidationBlocked));
  }

  lemma PushFits(r: Run, queues: set<seq<Item>>, env: Env)
    requires AllFit(r, queues) && r.outcome.Running?
    requires Pushing !in env.unsaved && env.push.Worked? ==> [] in queues
    ensures AllFit(PushPhase(r, env), queues)
  {
    hide AllFit, Persist, Record, Doubled;
    EnterFits(r, queues, Pushing, Push, env);
    PersistFails(Enter(r, Pushing), Push, env);
    var done := Doing(Persist(Enter(r, Pushing), Push, env), Push);
    match env.push
    case Worked =>
      if Pushing !in env.unsaved {
        var mem := done.w.mem.(state := Idle, lastSuccess := Some(env.now), lastError := None, backoff := FIRST_BACKOFF);
        WithFits(done, queues, mem, Running);
        FitsNow(done, queues);
        QueueFits(With(done, mem), queues, [], env);
        var drained := SaveQueue(With(done, mem), [], env);
        assert With(drained, drained.w.mem) == drained;
        NotedFits(drained, queues, drained.w.mem, PushEvent, true, env, Done);
      }
    case Broke(message) =>
      var mem := done.w.mem.(lastError := Some(message), state := Backoff, backoff := Doubled(done.w.mem.backoff));
      NotedFits(done, queues, mem, PushEvent, false, env, Failed(GitFailed(message)));
  }

  /** The cycle queues a commit, and the write fails after emptying the file. */
  predicate TearsQueue(w: World, env: Env) {
    PutsOff(w.mem.state, env) && env.queueWrite.Torn? && !IsQueued(w.disk.queue, env.summary, env.candidates)
  }

  /** The queues that a cycle may leave on disk between its writes. */
  function QueuesOf(w: World, env: Env): set<seq<Item>> {
    {w.disk.queue} + (if PutsOff(w.mem.state, env) then {Enqueue(w.disk.queue, ItemOf(env))} else {})
    + (if Succeeds(w.mem.state, env) || TearsQueue(w, env) then {[]} else {})
  }

  /** At every moment of a cycle the queue is as before, or has the put-off commit added, or is empty: while its file is being rewritten,
      after a successful push, or after a write that failed half-way. */
  lemma CycleQueues(w: World, env: Env)
    requires |w.disk.history| <= HISTORY_CAP
    ensures AllFit(RunCycle(w, env), QueuesOf(w, env))
  {
    var queues := QueuesOf(w, env);
    assert Fits(w.disk, queues);
    hide AllFit, AfterCheck, CommitPhase, FetchPhase, IntegratePhase, ValidatePhase, PushPhase, Sound, Enqueue, IsQueued;
    CheckProgress(w, env);
    CommitProgress(w, env);
    FetchProgress(w, env);
    IntegrateProgress(w, env);
    ValidateProgress(w, env);
    CheckFits(w, queues, env);
    if AfterCheck(w, env).outcome.Running? {
      CommitFits(AfterCheck(w, env), queues, env);
    }
    if AfterCommit(w, env).outcome.Running? {
      FetchFits(AfterCommit(w, env), queues, env);
    }
    if AfterFetch(w, env).outcome.Running? {
      IntegrateFits(AfterFetch(w, env), queues, env);
    }
    if AfterIntegrate(w, env).outcome.Running? {
      ValidateFits(AfterIntegrate(w, env), queues, env);
    }
    if AfterValidate(w, env).outcome.Running? {
      PushFits(AfterValidate(w, env), queues, env);
    }
  }

  lemma ChangeFits(w: World, queues: set<seq<Item>>, env: Env)
    requires Fits(w.disk, queues)
    ensures AllFit(FsChange(w, env), queues)
  {
    var r := Start(w);
    assert AllFit(r, queues);
    PersistFits(r, queues, w.mem.(state := Debouncing, deadline := Some(env.now + DEBOUNCE)), NoOp, env, Running);
  }

  lemma ResolveFits(w: World, queues: set<seq<Item>>, env: Env)
    requires Fits(w.disk, queues)
    ensures AllFit(Resolve(w, env), queues)
  {
    hide Persist, Record, Fits;
    var r := Start(w);
    assert AllFit(r, queues);
    var v := Doing(Doing(With(r, w.mem.(conflicts := [], state := Validating)), Commit), Validate);
    var p := Doing(Enter(v, Pushing), Push);
    NotedFits(p, queues, p.w.mem.(state := Idle, lastSuccess := Some(env.now)), ResolveEvent, true, env, Done);
  }

  // ---------------------------------------------------------------- runs

  /** The step, or the step that it cuts short, pushes successfully. */
  predicate MayPush(w: World, step: Step) {
    if step.Crash? then MayPush(w, step.during)
    else CycleIn(w, step).Some? && Succeeds(w.mem.state, CycleIn(w, step).value)
  }

  /** The last write of the trace is a rewriting of the queue file that has only emptied it. */
  predicate EndsTorn(trace: seq<Moment>) {
    trace != [] &&
    var m := trace[|trace| - 1];
    if m.Did? then EndsTorn(trace[..|trace| - 1]) else InRewrite(m)
  }

  /** A rewriting of the queue file does not get to its end: the write fails half-way, or a crash comes between. */
  predicate Tears(w: World, step: Step) {
    match step
    case Crash(during, at) => Tears(w, during) || EndsTorn(Cut(Perform(w, during).trace, at))
    case _ => CycleIn(w, step).Some? && TearsQueue(w, CycleIn(w, step).value)
  }

  ghost predicate Tidy(d: Disk) {
    NoRepeats(d.queue) && |d.history| <= HISTORY_CAP
  }

  /** The disk is tidy and, unless that may have been lost, still queues what was queued. */
  ghost predicate Follows(before: Disk, lost: bool, d: Disk) {
    Tidy(d) && (!lost ==> before.queue <= d.queue)
  }

  ghost predicate MomentFollows(before: Disk, lost: bool, m: Moment) {
    m.Did? || (if InRewrite(m) then Tidy(m.disk) && m.disk.queue == [] else Follows(before, lost, m.disk))
  }

  ghost predicate AllFollow(before: Disk, lost: bool, r: Run) {
    Follows(before, lost, r.w.disk) && forall k :: 0 <= k < |r.trace| ==> MomentFollows(before, lost, r.trace[k])
  }

  lemma FitsFollow(before: Disk, lost: bool, r: Run, queues: set<seq<Item>>)
    requires AllFit(r, queues) && forall q :: q in queues ==> NoRepeats(q) && (!lost ==> before.queue <= q)
    ensures AllFollow(before, lost, r)
  {
    forall k | 0 <= k < |r.trace|
      ensures MomentFollows(before, lost, r.trace[k])
    {
      assert MomentFits(r.trace[k], queues);
    }
  }

  lemma CycleFollows(w: World, env: Env)
    requires Tidy(w.disk)
    ensures AllFollow(w.disk, Succeeds(w.mem.state, env) || TearsQueue(w, env), RunCycle(w, env))
  {
    hide RunCycle, Succeeds, PutsOff, AllFollow, AllFit, TearsQueue;
    CycleQueues(w, env);
    EnqueueFacts(w.disk.queue, ItemOf(env), ItemOf(env));
    FitsFollow(w.disk, Succeeds(w.mem.state, env) || TearsQueue(w, env), RunCycle(w, env), QueuesOf(w, env));
  }

  /** After such a trace the disk still follows, unless the trace ends inside a rewriting; then the queue is empty. */
  lemma {:induction false} DiskAtFollows(before: Disk, lost: bool, start: Disk, trace: seq<Moment>)
    requires Follows(before, lost, start)
    requires forall k :: 0 <= k < |trace| ==> MomentFollows(before, lost, trace[k])
    ensures EndsTorn(trace) ==> Tidy(DiskAt(start, trace)) && DiskAt(start, trace).queue == []
    ensures !EndsTorn(trace) ==> Follows(before, lost, DiskAt(start, trace))
  {
    hide Follows, Tidy;
    if trace != [] {
      var n := |trace| - 1;
      assert MomentFollows(before, lost, trace[n]);
      if trace[n].Did? {
        DiskAtFollows(before, lost, start, trace[..n]);
      }
    }
  }

  lemma {:induction false} StepFollows(w: World, step: Step)
    requires Tidy(w.disk)
    ensures AllFollow(w.disk, MayPush(w, step) || Tears(w, step), Perform(w, step))
    decreases step
  {
    hide RunCycle, FsChange, Resolve, Tidy, Succeeds, TearsQueue, AllFollow;
    match step
    case Change(env) =>
      ChangeFollows(w, env);
    case Clock(env) =>
      if IsDue(w.mem, env) {
        CycleFollows(w, env.(offline := false));
      } else {
        IdleFollows(w);
      }
    case Cycle(env) =>
      CycleFollows(w, env);
    case Resolution(env) =>
      ResolveFollows(w, env);
    case Crash(during, at) =>
      StepFollows(w, during);
      CrashFollows(w, during, at);
  }

  lemma IdleFollows(w: World)
    requires Tidy(w.disk)
    ensures AllFollow(w.disk, false, Stop(Start(w), Done))
  {
  }

  lemma CrashFollows(w: World, during: Step, at: nat)
    requires Tidy(w.disk) && AllFollow(w.disk, MayPush(w, during) || Tears(w, during), Perform(w, during))
    ensures AllFollow(w.disk, MayPush(w, during) || Tears(w, Crash(during, at)), Perform(w, Crash(during, at)))
  {
    hide Tidy, MayPush, Perform, Tears;
    var lost, trace := MayPush(w, during) || Tears(w, during), Perform(w, during).trace;
    var cut, more := Cut(trace, at), lost || EndsTorn(Cut(trace, at));
    CrashIs(w, during, at);
    forall k | 0 <= k < |cut|
      ensures MomentFollows(w.disk, lost, cut[k]) && MomentFollows(w.disk, more, cut[k])
    {
      assert cut[k] == trace[k];
    }
    DiskAtFollows(w.disk, lost, w.disk, cut);
    OpenFollows(w.disk, more, DiskAt(w.disk, cut));
  }

  lemma CrashIs(w: World, during: Step, at: nat)
    ensures var cut := Cut(Perform(w, during).trace, at); var reopened := Open(DiskAt(w.disk, cut));
      && Perform(w, Crash(during, at)) == Run(reopened, cut + [Wrote(reopened.disk, None)], Done)
      && (Tears(w, Crash(during, at)) <==> Tears(w, during) || EndsTorn(cut))
  {
  }

  lemma ChangeFollows(w: World, env: Env)
    requires Tidy(w.disk)
    ensures AllFollow(w.disk, false, FsChange(w, env))
  {
    hide FsChange;
    ChangeFits(w, {w.disk.queue}, env);
  }

  lemma ResolveFollows(w: World, env: Env)
    requires Tidy(w.disk)
    ensures AllFollow(w.disk, false, Resolve(w, env))
  {
    hide Resolve;
    ResolveFits(w, {w.disk.queue}, env);
  }

  lemma OpenFollows(before: Disk, lost: bool, d: Disk)
    requires Follows(before, lost, d)
    ensures Follows(before, lost, Open(d).disk)
  {
  }

  /** Over every run, with crashes at any moment and inside any write, no commit is queued twice and the history stays capped; and as long
      as nothing is pushed and no rewriting of the queue file stops half-way, every queued commit stays queued, in order. */
  lemma {:induction false} QueuedUntilPushed(w: World, steps: seq<Step>)
    requires Tidy(w.disk)
    ensures Tidy(After(w, steps).disk)
    ensures (forall i :: 0 <= i < |steps| ==> !MayPush(After(w, steps[..i]), steps[i]) && !Tears(After(w, steps[..i]), steps[i])) ==>
      w.disk.queue <= After(w, steps).disk.queue
  {
    hide Perform, MayPush, Tears, Tidy;
    if steps != [] {
      var n := |steps| - 1;
      QueuedUntilPushed(w, steps[..n]);
      StepFollows(After(w, steps[..n]), steps[n]);
      assert forall i :: 0 <= i < n ==> steps[..n][i] == steps[i] && steps[..n][..i] == steps[..i];
    }
  }

  /** A crash during a step that pushes nothing keeps the queue if and only if it does not come inside a rewriting of the queue file, or
      there was nothing queued; inside a rewriting everything queued is lost. */
  lemma CrashKeepsQueueIff(w: World, during: Step, at: nat)
    requires Tidy(w.disk) && !MayPush(w, during) && !Tears(w, during)
    ensures var queue, torn := Perform(w, Crash(during, at)).w.disk.queue, EndsTorn(Cut(Perform(w, during).trace, at));
      && (w.disk.queue <= queue <==> w.disk.queue == [] || !torn)
      && (torn ==> queue == [])
  {
    hide Tidy, MayPush, Perform, Tears;
    var trace := Perform(w, during).trace;
    var cut := Cut(trace, at);
    StepFollows(w, during);
    CrashIs(w, during, at);
    forall k | 0 <= k < |cut|
      ensures MomentFollows(w.disk, false, cut[k])
    {
      assert cut[k] == trace[k];
    }
    DiskAtFollows(w.disk, false, w.disk, cut);
  }

  /** A commit that a cycle puts off is on the queue afterwards, if the queue could be written at all. */
  lemma PutOffIsQueued(w: World, env: Env)
    requires PutsOff(w.mem.state, env) && env.queueWrite.Stored?
    ensures IsQueued(RunCycle(w, env).w.disk.queue, env.summary, env.candidates)
  {
    hide CheckPhase, Record, Persist, Sound;
    CheckProgress(w, env);
    CommitProgress(w, env);
    var r := AfterCheck(w, env);
    PersistFails(Enter(r, Committing), Commit, env);
    var done := Doing(Persist(Enter(r, Committing), Commit, env), Commit);
    PutOffQueues(done, env);
    PutOffQueues(Record(done, CommitEvent, true, env), env);
    RecordGrows(done, CommitEvent, true, env);
    assert !AfterCommit(w, env).outcome.Running?;
  }

  lemma PutOffQueues(r: Run, env: Env)
    requires env.queueWrite.Stored?
    ensures IsQueued(PutOff(r, env).w.disk.queue, env.summary, env.candidates)
  {
    hide Persist;
    var q := Enqueue(r.w.disk.queue, ItemOf(env));
    assert !IsQueued(r.w.disk.queue, env.summary, env.candidates) ==> q[|r.w.disk.queue|] == ItemOf(env);
    var queued := if IsQueued(r.w.disk.queue, env.summary, env.candidates) then r else SaveQueue(r, q, env);
    PersistKeeps(Enter(queued, OfflineQueued), NoOp, env);
  }

  /** A cycle that puts its commit off does so with the queue it found. */
  lemma PuttingOffRun(w: World, env: Env) returns (before: Run)
    requires PutsOff(w.mem.state, env)
    ensures RunCycle(w, env) == PutOff(before, env) && before.w.disk.queue == w.disk.queue
  {
    hide CheckPhase, Record, Persist, Sound, PutOff;
    CheckProgress(w, env);
    CommitProgress(w, env);
    var r := AfterCheck(w, env);
    CheckKeepsQueue(w, env);
    PersistFails(Enter(r, Committing), Commit, env);
    PersistKeeps(Enter(r, Committing), Commit, env);
    var done := Doing(Persist(Enter(r, Committing), Commit, env), Commit);
    RecordKeepsQueue(done, CommitEvent, true, env);
    before := if env.commit.Worked? then Record(done, CommitEvent, true, env) else done;
    assert AfterCommit(w, env) == PutOff(before, env);
  }

  /** Every cycle that queues a commit passes through such a moment: a crash there loses all commits queued before. */
  lemma PuttingOffCanLoseTheQueue(w: World, env: Env)
    requires PutsOff(w.mem.state, env) && !IsQueued(w.disk.queue, env.summary, env.candidates) && !env.queueWrite.Refused?
    ensures exists at :: Perform(w, Crash(Cycle(env), at)).w.disk.queue == []
  {
    hide RunCycle, PutOff, PutsOff, IsQueued;
    var before := PuttingOffRun(w, env);
    PutOffEmpties(before, env);
    CrashAfter(w, env, |before.trace|);
  }

  lemma CrashAfter(w: World, env: Env, k: nat)
    requires var trace := RunCycle(w, env).trace; k < |trace| && InRewrite(trace[k]) && trace[k].disk.queue == []
    ensures Perform(w, Crash(Cycle(env), k + 1)).w.disk.queue == []
  {
    hide RunCycle;
    var trace := RunCycle(w, env).trace;
    var cut := Cut(trace, k + 1);
    assert cut == trace[..k + 1] && cut[|cut| - 1] == trace[k];
  }

  lemma CheckKeepsQueue(w: World, env: Env)
    ensures AfterCheck(w, env).w.disk.queue == w.disk.queue
  {
  }

  lemma PutOffEmpties(r: Run, env: Env)
    requires !IsQueued(r.w.disk.queue, env.summary, env.candidates) && !env.queueWrite.Refused?
    ensures var trace := PutOff(r, env).trace;
      |r.trace| < |trace| && InRewrite(trace[|r.trace|]) && trace[|r.trace|].disk.queue == []
  {
    hide IsQueued, Enqueue;
  }
}
