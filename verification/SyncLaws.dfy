/** What one cycle of the sync state machine guarantees, whatever git, validation and the disk do. */
module SyncLaws {
  import opened Wrappers
  import opened SyncModel

  // ---------------------------------------------------------------- the disk over time

  /** The disk after the writes of a trace. */
  function DiskAt(start: Disk, trace: seq<Moment>): Disk {
    if trace == [] then start
    else
      var m := trace[|trace| - 1];
      if m.Wrote? then m.disk else DiskAt(start, trace[..|trace| - 1])
  }

  /** The operations of a trace, in order. */
  function Ops(trace: seq<Moment>): seq<Op> {
    if trace == [] then []
    else
      var m := trace[|trace| - 1];
      Ops(trace[..|trace| - 1]) + if m.Did? then [m.op] else []
  }

  /** Whenever an operation starts, the journal on disk already names it. */
  ghost predicate Journaled(start: Disk, trace: seq<Moment>) {
    forall k :: 0 <= k < |trace| && trace[k].Did? ==> DiskAt(start, trace[..k]).journal.op == trace[k].op
  }

  lemma DiskAtSnoc(start: Disk, trace: seq<Moment>, m: Moment)
    ensures DiskAt(start, trace + [m]) == if m.Wrote? then m.disk else DiskAt(start, trace)
    ensures Ops(trace + [m]) == Ops(trace) + if m.Did? then [m.op] else []
  {
    assert (trace + [m])[..|trace|] == trace;
  }

  lemma JournaledSnoc(start: Disk, trace: seq<Moment>, m: Moment)
    requires Journaled(start, trace) && (m.Did? ==> DiskAt(start, trace).journal.op == m.op)
    ensures Journaled(start, trace + [m])
  {
    var t := trace + [m];
    forall k | 0 <= k < |t| && t[k].Did?
      ensures DiskAt(start, t[..k]).journal.op == t[k].op
    {
      if k < |trace| {
        assert t[..k] == trace[..k];
      } else {
        assert t[..k] == trace;
      }
    }
  }

  // ---------------------------------------------------------------- a run so far

  /** The trace explains the disk, every operation was journaled, and exactly the given operations were done. */
  ghost predicate Sound(start: Disk, r: Run, ops: seq<Op>) {
    DiskAt(start, r.trace) == r.w.disk && Journaled(start, r.trace) && Ops(r.trace) == ops
  }

  lemma StartSound(w: World)
    ensures Sound(w.disk, Start(w), [])
  {
  }

  lemma WriteSound(start: Disk, r: Run, ops: seq<Op>, d: Disk)
    requires Sound(start, r, ops)
    ensures Sound(start, Write(r, d), ops)
  {
    DiskAtSnoc(start, r.trace, Wrote(d, None));
    JournaledSnoc(start, r.trace, Wrote(d, None));
  }

  lemma EmptySound(start: Disk, r: Run, ops: seq<Op>, d: Disk, file: File)
    requires Sound(start, r, ops)
    ensures Sound(start, Empty(r, d, file), ops)
  {
    DiskAtSnoc(start, r.trace, Wrote(d, Some(file)));
    JournaledSnoc(start, r.trace, Wrote(d, Some(file)));
  }

  lemma DidSound(start: Disk, r: Run, ops: seq<Op>, op: Op)
    requires Sound(start, r, ops) && r.w.disk.journal.op == op
    ensures Sound(start, Doing(r, op), ops + [op])
  {
    DiskAtSnoc(start, r.trace, Did(op));
    JournaledSnoc(start, r.trace, Did(op));
  }

  lemma RecordSound(start: Disk, r: Run, ops: seq<Op>, kind: Kind, ok: bool, env: Env)
    requires Sound(start, r, ops)
    ensures Sound(start, Record(r, kind, ok, env), ops)
    ensures Record(r, kind, ok, env).w.disk.journal == r.w.disk.journal && Record(r, kind, ok, env).outcome == r.outcome
  {
    var emptied := r.w.disk.(history := []);
    EmptySound(start, r, ops, emptied, HistoryFile);
    WriteSound(start, Empty(r, emptied, HistoryFile), ops, r.w.disk.(history := PushHistory(r.w.disk.history, Event(kind, ok))));
  }

  lemma PersistSound(start: Disk, r: Run, ops: seq<Op>, op: Op, env: Env)
    requires Sound(start, r, ops)
    ensures Sound(start, Persist(r, op, env), ops)
    ensures r.w.mem.state !in env.unsaved ==> Persist(r, op, env).w.disk.journal.op == op
  {
    WriteSound(start, r, ops, r.w.disk.(journal := JournalOf(r.w, op)));
  }

  lemma SaveQueueSound(start: Disk, r: Run, ops: seq<Op>, queue: seq<Item>, env: Env)
    requires Sound(start, r, ops)
    ensures Sound(start, SaveQueue(r, queue, env), ops)
  {
    var emptied := r.w.disk.(queue := []);
    EmptySound(start, r, ops, emptied, QueueFile);
    WriteSound(start, Empty(r, emptied, QueueFile), ops, r.w.disk.(queue := queue));
  }

  lemma WithSound(start: Disk, r: Run, ops: seq<Op>, mem: Memory)
    requires Sound(start, r, ops)
    ensures Sound(start, With(r, mem), ops)
  {
  }

  lemma StopSound(start: Disk, r: Run, ops: seq<Op>, o: Outcome)
    requires Sound(start, r, ops)
    ensures Sound(start, Stop(r, o), ops)
  {
  }

  lemma PutOffSound(start: Disk, r: Run, ops: seq<Op>, env: Env)
    requires Sound(start, r, ops) && r.outcome.Running?
    ensures Sound(start, PutOff(r, env), ops) && !PutOff(r, env).outcome.Running?
  {
    hide Sound, Enqueue, IsQueued;
    var item := Item(env.itemId, env.summary, env.candidates);
    SaveQueueSound(start, r, ops, Enqueue(r.w.disk.queue, item), env);
    var queued := if IsQueued(r.w.disk.queue, env.summary, env.candidates) then r else SaveQueue(r, Enqueue(r.w.disk.queue, item), env);
    WithSound(start, queued, ops, queued.w.mem.(state := OfflineQueued));
    PersistSound(start, Enter(queued, OfflineQueued), ops, NoOp, env);
    StopSound(start, Persist(Enter(queued, OfflineQueued), NoOp, env), ops, Done);
  }

  lemma GiveUpSound(start: Disk, r: Run, ops: seq<Op>, s: State, message: string, error: SyncError, env: Env)
    requires Sound(start, r, ops) && r.outcome.Running?
    ensures Sound(start, GiveUp(r, s, message, error, env), ops) && !GiveUp(r, s, message, error, env).outcome.Running?
  {
    hide Sound;
    var mem := r.w.mem.(state := s, lastError := Some(message));
    WithSound(start, r, ops, mem);
    PersistSound(start, With(r, mem), ops, NoOp, env);
    StopSound(start, Persist(With(r, mem), NoOp, env), ops, Failed(error));
  }

  lemma BackOffSound(start: Disk, r: Run, ops: seq<Op>, message: string, kind: Kind, env: Env)
    requires Sound(start, r, ops) && r.outcome.Running?
    ensures Sound(start, BackOff(r, message, kind, env), ops) && !BackOff(r, message, kind, env).outcome.Running?
  {
    hide Sound, Record, Doubled;
    var mem := r.w.mem.(lastError := Some(message), state := Backoff, backoff := Doubled(r.w.mem.backoff));
    WithSound(start, r, ops, mem);
    RecordSound(start, With(r, mem), ops, kind, false, env);
    var noted := Record(With(r, mem), kind, false, env);
    PersistSound(start, noted, ops, NoOp, env);
    StopSound(start, Persist(noted, NoOp, env), ops, Failed(GitFailed(message)));
  }

  // ---------------------------------------------------------------- which phases pass

  const PIPELINE: seq<Op> := [Commit, Fetch, Integrate, Validate, Push]

  predicate CheckPasses(env: Env) {
    !(env.gitDir && !env.integrityOk) && !env.secrets && LockedSnapshot !in env.unsaved
  }

  predicate CommitPasses(env: Env) {
    Committing !in env.unsaved && env.commit.Worked? && !env.offline && env.authed
  }

  predicate FetchPasses(env: Env) {
    Fetching !in env.unsaved && env.fetch.Worked?
  }

  predicate IntegratePasses(env: Env) {
    Integrating !in env.unsaved && env.integrate.Merged? && env.integrate.clean
  }

  predicate ValidatePasses(env: Env) {
    Validating !in env.unsaved && env.validate.Checked? && env.validate.ok
  }

  lemma CheckPhaseSound(w: World, env: Env)
    requires !Blocked(w.mem.state)
    ensures Sound(w.disk, CheckPhase(Start(w), env), [])
    ensures CheckPhase(Start(w), env).outcome.Running? <==> CheckPasses(env)
  {
    hide Sound, Record;
    var r := Start(w);
    StartSound(w);
    GiveUpSound(w.disk, r, [], SafeMode, "gitoxide open failed - safe mode", SafeModeRequired, env);
    var seen := With(r, w.mem.(preflight := env.warnings));
    WithSound(w.disk, r, [], seen.w.mem);
    var mem := seen.w.mem.(state := Error, lastError := Some("Secret/credential pattern in staged content"));
    WithSound(w.disk, seen, [], mem);
    RecordSound(w.disk, With(seen, mem), [], PreflightEvent, false, env);
    var noted := Record(With(seen, mem), PreflightEvent, false, env);
    PersistSound(w.disk, noted, [], NoOp, env);
    StopSound(w.disk, Persist(noted, NoOp, env), [], Failed(SecretsBlocked));
    WithSound(w.disk, seen, [], seen.w.mem.(state := LockedSnapshot));
    PersistSound(w.disk, Enter(seen, LockedSnapshot), [], NoOp, env);
  }

  /** Entering a phase: the operation starts if and only if the journal could be written, and then it is named there. */
  lemma EnterSound(start: Disk, r: Run, ops: seq<Op>, s: State, op: Op, env: Env)
    requires Sound(start, r, ops) && r.outcome.Running?
    ensures var named := Persist(Enter(r, s), op, env);
      && Sound(start, named, ops) && (named.outcome.Running? <==> s !in env.unsaved)
      && (s !in env.unsaved ==> Sound(start, Doing(named, op), ops + [op]))
  {
    hide Sound;
    WithSound(start, r, ops, r.w.mem.(state := s));
    PersistSound(start, Enter(r, s), ops, op, env);
    if s !in env.unsaved {
      DidSound(start, Persist(Enter(r, s), op, env), ops, op);
    }
  }

  lemma CommitPhaseSound(start: Disk, r: Run, ops: seq<Op>, env: Env)
    requires Sound(start, r, ops) && r.outcome.Running?
    ensures Sound(start, CommitPhase(r, env), if Committing in env.unsaved then ops else ops + [Commit])
    ensures CommitPhase(r, env).outcome.Running? <==> CommitPasses(env)
  {
    hide Sound, Record, PutOff, GiveUp, Write;
    EnterSound(start, r, ops, Committing, Commit, env);
    if Committing !in env.unsaved {
      var done, o := Doing(Persist(Enter(r, Committing), Commit, env), Commit), ops + [Commit];
      RecordSound(start, done, o, CommitEvent, true, env);
      PutOffSound(start, Record(done, CommitEvent, true, env), o, env);
      PutOffSound(start, done, o, env);
      if env.commit.Broke? {
        GiveUpSound(start, done, o, Error, env.commit.message, GitFailed(env.commit.message), env);
      }
    }
  }

  lemma FetchPhaseSound(start: Disk, r: Run, ops: seq<Op>, env: Env)
    requires Sound(start, r, ops) && r.outcome.Running?
    ensures Sound(start, FetchPhase(r, env), if Fetching in env.unsaved then ops else ops + [Fetch])
    ensures FetchPhase(r, env).outcome.Running? <==> FetchPasses(env)
  {
    hide Sound, BackOff, Write;
    EnterSound(start, r, ops, Fetching, Fetch, env);
    if Fetching !in env.unsaved && env.fetch.Broke? {
      BackOffSound(start, Doing(Persist(Enter(r, Fetching), Fetch, env), Fetch), ops + [Fetch], env.fetch.message, FetchEvent, env);
    }
  }

  lemma HoldSound(start: Disk, r: Run, ops: seq<Op>, conflicts: seq<string>, env: Env)
    requires Sound(start, r, ops) && r.outcome.Running?
    ensures var held := Persist(With(r, r.w.mem.(conflicts := conflicts, state := Conflict)), NoOp, env);
      && Sound(start, held, ops)
      && Sound(start, Stop(Record(held, ConflictEvent, false, env), Failed(UnresolvedConflicts)), ops)
  {
    hide Sound, Record;
    var mem := r.w.mem.(conflicts := conflicts, state := Conflict);
    WithSound(start, r, ops, mem);
    PersistSound(start, With(r, mem), ops, NoOp, env);
    var held := Persist(With(r, mem), NoOp, env);
    RecordSound(start, held, ops, ConflictEvent, false, env);
    StopSound(start, Record(held, ConflictEvent, false, env), ops, Failed(UnresolvedConflicts));
  }

  lemma IntegratePhaseSound(start: Disk, r: Run, ops: seq<Op>, env: Env)
    requires Sound(start, r, ops) && r.outcome.Running?
    ensures Sound(start, IntegratePhase(r, env), if Integrating in env.unsaved then ops else ops + [Integrate])
    ensures IntegratePhase(r, env).outcome.Running? <==> IntegratePasses(env)
  {
    hide Sound, Record, GiveUp, Write, Unsafe;
    EnterSound(start, r, ops, Integrating, Integrate, env);
    if Integrating !in env.unsaved {
      var done, o := Doing(Persist(Enter(r, Integrating), Integrate, env), Integrate), ops + [Integrate];
      match env.integrate
      case Unmerged(message) =>
        GiveUpSound(start, done, o, SafeMode, message, SafeModeRequired, env);
        GiveUpSound(start, done, o, Error, message, GitFailed(message), env);
      case Merged(clean, conflicts, files) =>
        RecordSound(start, done, o, IntegrateEvent, true, env);
        var noted := if files == [] then done else Record(done, IntegrateEvent, true, env);
        HoldSound(start, noted, o, conflicts, env);
        RecordSound(start, Persist(With(noted, noted.w.mem.(conflicts := conflicts, state := Conflict)), NoOp, env), o, ConflictEvent, false, env);
    }
  }

  lemma ValidatePhaseSound(start: Disk, r: Run, ops: seq<Op>, env: Env)
    requires Sound(start, r, ops) && r.outcome.Running?
    ensures Sound(start, ValidatePhase(r, env), if Validating in env.unsaved then ops else ops + [Validate])
    ensures ValidatePhase(r, env).outcome.Running? <==> ValidatePasses(env)
  {
    hide Sound, Record, Write;
    EnterSound(start, r, ops, Validating, Validate, env);
    if Validating !in env.unsaved {
      var done, o := Doing(Persist(Enter(r, Validating), Validate, env), Validate), ops + [Validate];
      match env.validate
      case Unchecked(message) =>
        StopSound(start, done, o, Failed(ValidationFailed(message)));
      case Checked(ok, report) =>
        var mem := done.w.mem.(state := Error, lastError := Some(report));
        WithSound(start, done, o, mem);
        RecordSound(start, With(done, mem), o, ValidateEvent, false, env);
        var noted := Record(With(done, mem), ValidateEvent, false, env);
        PersistSound(start, noted, o, NoOp, env);
        StopSound(start, Persist(noted, NoOp, env), o, Failed(ValidationBlocked));
    }
  }

  lemma PushPhaseSound(start: Disk, r: Run, ops: seq<Op>, env: Env)
    requires Sound(start, r, ops) && r.outcome.Running?
    ensures Sound(start, PushPhase(r, env), if Pushing in env.unsaved then ops else ops + [Push])
    ensures !PushPhase(r, env).outcome.Running?
  {
    hide Sound, Record, SaveQueue, Write, BackOff;
    EnterSound(start, r, ops, Pushing, Push, env);
    if Pushing !in env.unsaved {
      var done, o := Doing(Persist(Enter(r, Pushing), Push, env), Push), ops + [Push];
      match env.push
      case Worked =>
        var mem := done.w.mem.(state := Idle, lastSuccess := Some(env.now), lastError := None, backoff := FIRST_BACKOFF);
        WithSound(start, done, o, mem);
        SaveQueueSound(start, With(done, mem), o, [], env);
        var drained := SaveQueue(With(done, mem), [], env);
        RecordSound(start, drained, o, PushEvent, true, env);
        var noted := Record(drained, PushEvent, true, env);
        PersistSound(start, noted, o, NoOp, env);
        StopSound(start, Persist(noted, NoOp, env), o, Done);
      case Broke(message) =>
        BackOffSound(start, done, o, message, PushEvent, env);
    }
  }

  // ---------------------------------------------------------------- a whole cycle

  /** The check and the first k operations went through. */
  predicate Passed(s: State, env: Env, k: nat) {
    && !Blocked(s) && CheckPasses(env)
    && (k >= 1 ==> CommitPasses(env)) && (k >= 2 ==> FetchPasses(env)) && (k >= 3 ==> IntegratePasses(env))
    && (k >= 4 ==> ValidatePasses(env))
  }

  /** How far a cycle gets: the number of operations that it starts. */
  function Reach(s: State, env: Env): nat {
    if !Passed(s, env, 0) || Committing in env.unsaved then 0
    else if !Passed(s, env, 1) || Fetching in env.unsaved then 1
    else if !Passed(s, env, 2) || Integrating in env.unsaved then 2
    else if !Passed(s, env, 3) || Validating in env.unsaved then 3
    else if !Passed(s, env, 4) || Pushing in env.unsaved then 4
    else 5
  }

  function Least(a: nat, b: nat): nat {
    if a < b then a else b
  }

  /** The run has got through the first k phases, or ended in one of them. */
  ghost predicate Progress(w: World, env: Env, r: Run, k: nat) {
    && k <= 5 && Sound(w.disk, r, PIPELINE[..Least(Reach(w.mem.state, env), k)])
    && (k < 5 ==> (r.outcome.Running? <==> Passed(w.mem.state, env, k)))
  }

  lemma CheckProgress(w: World, env: Env)
    ensures Progress(w, env, AfterCheck(w, env), 0)
  {
    hide Sound, CheckPhase;
    StartSound(w);
    StopSound(w.disk, Start(w), [], Failed(Refusal(w.mem.state)));
    if !Blocked(w.mem.state) {
      CheckPhaseSound(w, env);
    }
  }

  lemma CommitProgress(w: World, env: Env)
    ensures Progress(w, env, AfterCommit(w, env), 1)
  {
    hide Sound, CommitPhase, AfterCheck;
    CheckProgress(w, env);
    var r := AfterCheck(w, env);
    if r.outcome.Running? {
      CommitPhaseSound(w.disk, r, [], env);
      assert [] + [Commit] == PIPELINE[..1];
    }
  }

  lemma FetchProgress(w: World, env: Env)
    ensures Progress(w, env, AfterFetch(w, env), 2)
  {
    hide Sound, FetchPhase, AfterCommit;
    CommitProgress(w, env);
    var r := AfterCommit(w, env);
    if r.outcome.Running? {
      FetchPhaseSound(w.disk, r, PIPELINE[..1], env);
      assert PIPELINE[..1] + [Fetch] == PIPELINE[..2];
    }
  }

  lemma IntegrateProgress(w: World, env: Env)
    ensures Progress(w, env, AfterIntegrate(w, env), 3)
  {
    hide Sound, IntegratePhase, AfterFetch;
    FetchProgress(w, env);
    var r := AfterFetch(w, env);
    if r.outcome.Running? {
      IntegratePhaseSound(w.disk, r, PIPELINE[..2], env);
      assert PIPELINE[..2] + [Integrate] == PIPELINE[..3];
    }
  }

  lemma ValidateProgress(w: World, env: Env)
    ensures Progress(w, env, AfterValidate(w, env), 4)
  {
    hide Sound, ValidatePhase, AfterIntegrate;
    IntegrateProgress(w, env);
    var r := AfterIntegrate(w, env);
    if r.outcome.Running? {
      ValidatePhaseSound(w.disk, r, PIPELINE[..3], env);
      assert PIPELINE[..3] + [Validate] == PIPELINE[..4];
    }
  }

  lemma CycleProgress(w: World, env: Env)
    ensures Progress(w, env, RunCycle(w, env), 5) && !RunCycle(w, env).outcome.Running?
  {
    hide Sound, PushPhase, AfterValidate;
    ValidateProgress(w, env);
    var r := AfterValidate(w, env);
    if r.outcome.Running? {
      PushPhaseSound(w.disk, r, PIPELINE[..4], env);
      assert PIPELINE[..4] + [Push] == PIPELINE[..5];
    }
  }

  /** Whatever happens, every operation of a cycle starts while the journal on disk names it. */
  lemma OperationsAreJournaled(w: World, env: Env)
    ensures Journaled(w.disk, RunCycle(w, env).trace) && DiskAt(w.disk, RunCycle(w, env).trace) == RunCycle(w, env).w.disk
  {
    hide RunCycle, Reach;
    CycleProgress(w, env);
  }

  /** A cycle does its operations in the fixed order and stops at the first that does not go through. */
  lemma CycleDoes(w: World, env: Env)
    ensures Ops(RunCycle(w, env).trace) == PIPELINE[..Reach(w.mem.state, env)]
  {
    hide RunCycle;
    CycleProgress(w, env);
  }

  /** A cycle pushes if and only if nothing blocked it, nothing secret was found, git was online and willing, the remote was
      integrated cleanly and the result found valid, all in this call, and every phase could be journaled. */
  lemma PushesIff(w: World, env: Env)
    ensures Push in Ops(RunCycle(w, env).trace) <==> Passed(w.mem.state, env, 4) && Pushing !in env.unsaved
  {
    hide RunCycle;
    CycleDoes(w, env);
    if Reach(w.mem.state, env) == 5 {
      assert PIPELINE[..5][4] == Push;
    }
  }
}
