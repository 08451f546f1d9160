/** The sync state machine over whole runs: crashes at any moment, held states, backoff, queue and history. */
module SyncRuns {
  import opened Wrappers
  import opened SyncModel
  import opened SyncLaws

  // ---------------------------------------------------------------- crashes inside a cycle

  /** The state in which the vault reopens from this disk. */
  function Reopens(d: Disk): State {
    Resumed(d.journal.state, d.journal.op)
  }

  /** A crash while an operation is under way reopens in the state meant for that operation: after an interrupted integrate,
      always in conflict. */
  lemma CrashResumes(w: World, env: Env, k: nat)
    ensures var trace := RunCycle(w, env).trace;
      k < |trace| && trace[k].Did? ==> ResumesFrom(trace[k].op, Open(DiskAt(w.disk, trace[..k])).mem.state)
  {
    hide RunCycle;
    OperationsAreJournaled(w, env);
    CycleProgress(w, env);
    var trace := RunCycle(w, env).trace;
    if k < |trace| && trace[k].Did? {
      OpInPipeline(trace, k);
    }
  }

  /** The state a vault is meant to reopen in when an operation was interrupted. */
  predicate ResumesFrom(op: Op, reopened: State) {
    && (op == Commit ==> reopened == Idle) && (op == Integrate ==> reopened == Conflict)
    && (op == Validate ==> reopened == Validating) && (op == Fetch || op == Push ==> reopened == Backoff)
  }

  lemma {:induction false} OpInPipeline(trace: seq<Moment>, k: nat)
    requires k < |trace| && trace[k].Did?
    ensures trace[k].op in Ops(trace)
  {
    if k < |trace| - 1 {
      OpInPipeline(trace[..|trace| - 1], k);
    }
  }

  /** From this moment on a crash reopens in the given state. */
  ghost predicate ReopensFrom(start: Disk, trace: seq<Moment>, from: nat, s: State) {
    forall k :: from <= k <= |trace| ==> Reopens(DiskAt(start, trace[..k])) == s
  }

  lemma ReopensSnoc(start: Disk, trace: seq<Moment>, from: nat, s: State, m: Moment)
    requires ReopensFrom(start, trace, from, s) && from <= |trace| && (!m.Did? ==> Reopens(m.disk) == s)
    ensures ReopensFrom(start, trace + [m], from, s)
  {
    DiskAtSnoc(start, trace, m);
    var t := trace + [m];
    forall k | from <= k <= |t|
      ensures Reopens(DiskAt(start, t[..k])) == s
    {
      if k <= |trace| {
        assert t[..k] == trace[..k];
        assert trace[..|trace|] == trace;
      } else {
        assert t[..k] == t && trace[..|trace|] == trace;
      }
    }
  }

  lemma RecordReopens(start: Disk, r: Run, from: nat, s: State, kind: Kind, ok: bool, env: Env)
    requires DiskAt(start, r.trace) == r.w.disk && ReopensFrom(start, r.trace, from, s) && from <= |r.trace|
    ensures var n := Record(r, kind, ok, env); DiskAt(start, n.trace) == n.w.disk && ReopensFrom(start, n.trace, from, s)
  {
    assert r.trace[..|r.trace|] == r.trace;
    var emptied := Wrote(r.w.disk.(history := []), Some(HistoryFile));
    var d := r.w.disk.(history := PushHistory(r.w.disk.history, Event(kind, ok)));
    assert Reopens(r.w.disk) == s;
    DiskAtSnoc(start, r.trace, emptied);
    ReopensSnoc(start, r.trace, from, s, emptied);
    DiskAtSnoc(start, r.trace + [emptied], Wrote(d, None));
    ReopensSnoc(start, r.trace + [emptied], from, s, Wrote(d, None));
  }

  /** The end of an integration that left conflicts: from its start on the vault reopens in conflict, and it is in conflict. */
  lemma HoldReopens(start: Disk, r: Run, from: nat, conflicts: seq<string>, env: Env)
    requires DiskAt(start, r.trace) == r.w.disk && ReopensFrom(start, r.trace, from, Conflict) && from <= |r.trace| && r.outcome.Running?
    ensures var held := Persist(With(r, r.w.mem.(conflicts := conflicts, state := Conflict)), NoOp, env);
      var end := if held.outcome.Running? then Stop(Record(held, ConflictEvent, false, env), Failed(UnresolvedConflicts)) else held;
      end.w.mem.state == Conflict && end.w.mem.conflicts == conflicts && DiskAt(start, end.trace) == end.w.disk
        && ReopensFrom(start, end.trace, from, Conflict) && |end.trace| >= |r.trace| && end.trace[..|r.trace|] == r.trace
  {
    hide ReopensFrom, Record;
    var mem := r.w.mem.(conflicts := conflicts, state := Conflict);
    var held := Persist(With(r, mem), NoOp, env);
    if held.outcome.Running? {
      var d := r.w.disk.(journal := JournalOf(With(r, mem).w, NoOp));
      DiskAtSnoc(start, r.trace, Wrote(d, None));
      ReopensSnoc(start, r.trace, from, Conflict, Wrote(d, None));
      RecordReopens(start, held, from, Conflict, ConflictEvent, false, env);
      RecordGrows(held, ConflictEvent, false, env);
    }
  }

  lemma RecordGrows(r: Run, kind: Kind, ok: bool, env: Env)
    ensures var n := Record(r, kind, ok, env); n.w.mem == r.w.mem && n.outcome == r.outcome && |n.trace| >= |r.trace| && n.trace[..|r.trace|] == r.trace
  {
  }

  /** Integration of this cycle starts and leaves conflicts. */
  predicate FindsConflicts(s: State, env: Env) {
    Passed(s, env, 2) && Integrating !in env.unsaved && env.integrate.Merged? && !env.integrate.clean
  }

  /** Once an integration has left conflicts they cannot be forgotten: the vault is in conflict in memory, and from the start of
      the integration on a crash at any moment reopens in conflict, even if the journal write afterwards fails. */
  lemma ConflictsAreNotForgotten(w: World, env: Env)
    requires FindsConflicts(w.mem.state, env)
    ensures var r := RunCycle(w, env);
      && r.w.mem.state == Conflict && r.w.mem.conflicts == env.integrate.conflicts
      && DiskAt(w.disk, r.trace) == r.w.disk
      && exists i :: 0 <= i < |r.trace| && r.trace[i] == Did(Integrate) && ReopensFrom(w.disk, r.trace, i, Conflict)
  {
    hide AfterFetch, ReopensFrom, Record, Sound, Journaled;
    FetchProgress(w, env);
    var r := AfterFetch(w, env);
    FetchEndsSound(w, env);
    var named := Persist(Enter(r, Integrating), Integrate, env);
    var done, i := Doing(named, Integrate), |named.trace|;
    NamedReopens(w.disk, r, env);
    var files, conflicts := env.integrate.files, env.integrate.conflicts;
    var noted := if files == [] then done else Record(done, IntegrateEvent, true, env);
    if files != [] {
      RecordReopens(w.disk, done, i, Conflict, IntegrateEvent, true, env);
      RecordGrows(done, IntegrateEvent, true, env);
    }
    HoldReopens(w.disk, noted, i, conflicts, env);
    var end := IntegratePhase(r, env);
    assert end.trace[..|noted.trace|][..|done.trace|][i] == Did(Integrate);
    IntegrateProgress(w, env);
  }

  lemma FetchEndsSound(w: World, env: Env)
    ensures DiskAt(w.disk, AfterFetch(w, env).trace) == AfterFetch(w, env).w.disk
  {
    hide AfterFetch;
    FetchProgress(w, env);
  }

  lemma NamedReopens(start: Disk, r: Run, env: Env)
    requires DiskAt(start, r.trace) == r.w.disk && r.outcome.Running? && Integrating !in env.unsaved
    ensures var named := Persist(Enter(r, Integrating), Integrate, env);
      var done := Doing(named, Integrate);
      && DiskAt(start, done.trace) == done.w.disk && ReopensFrom(start, done.trace, |named.trace|, Conflict)
      && done.trace == named.trace + [Did(Integrate)] && done.outcome.Running?
  {
    var named := Persist(Enter(r, Integrating), Integrate, env);
    DiskAtSnoc(start, r.trace, Wrote(named.w.disk, None));
    DiskAtSnoc(start, named.trace, Did(Integrate));
    assert named.trace[..|named.trace|] == named.trace;
    assert ReopensFrom(start, named.trace, |named.trace|, Conflict);
    ReopensSnoc(start, named.trace, |named.trace|, Conflict, Did(Integrate));
  }

  // ---------------------------------------------------------------- runs

  /** One step of a run. A crash cuts another step short after some of its moments; then the vault is opened again. */
  datatype Step = Change(env: Env) | Clock(env: Env) | Cycle(env: Env) | Resolution(env: Env) | Crash(during: Step, at: nat)

  function Cut(trace: seq<Moment>, at: nat): seq<Moment> {
    if at < |trace| then trace[..at] else trace
  }

  function Perform(w: World, step: Step): Run {
    match step
    case Change(env) => FsChange(w, env)
    case Clock(env) => Tick(w, env)
    case Cycle(env) => RunCycle(w, env)
    case Resolution(env) => Resolve(w, env)
    case Crash(during, at) =>
      var trace := Cut(Perform(w, during).trace, at);
      var reopened := Open(DiskAt(w.disk, trace));
      Run(reopened, trace + [Wrote(reopened.disk, None)], Done)
  }

  function After(w: World, steps: seq<Step>): World {
    if steps == [] then w else Perform(After(w, steps[..|steps| - 1]), steps[|steps| - 1]).w
  }

  /** The user resolves nothing, not even in a step cut short. */
  predicate Unattended(step: Step) {
    match step
    case Resolution(_) => false
    case Crash(during, _) => Unattended(during)
    case _ => true
  }

  /** The vault is held: it is in a blocked state, and would reopen in the same. */
  ghost predicate Held(w: World, s: State) {
    Blocked(s) && w.mem.state == s && Reopens(w.disk) == s
  }

  lemma {:induction false} StepKeepsHeld(w: World, s: State, step: Step)
    requires Held(w, s) && Unattended(step)
    ensures var r := Perform(w, step);
      Held(r.w, s) && Ops(r.trace) == [] && DiskAt(w.disk, r.trace) == r.w.disk && ReopensFrom(w.disk, r.trace, 0, s)
    decreases step
  {
    match step
    case Change(env) =>
    case Clock(env) =>
    case Cycle(env) =>
    case Crash(during, at) =>
      StepKeepsHeld(w, s, during);
      var trace := Perform(w, during).trace;
      var cut := Cut(trace, at);
      assert cut == trace[..|cut|];
      CutFacts(w.disk, trace, |cut|, s);
      var d := Open(DiskAt(w.disk, cut)).disk;
      DiskAtSnoc(w.disk, cut, Wrote(d, None));
      ReopensSnoc(w.disk, cut, 0, s, Wrote(d, None));
  }

  lemma {:induction false} CutFacts(start: Disk, trace: seq<Moment>, at: nat, s: State)
    requires at <= |trace| && Ops(trace) == [] && ReopensFrom(start, trace, 0, s)
    ensures Ops(trace[..at]) == [] && Reopens(DiskAt(start, trace[..at])) == s && ReopensFrom(start, trace[..at], 0, s)
  {
    forall k | 0 <= k <= at
      ensures Reopens(DiskAt(start, trace[..at][..k])) == s
    {
      assert trace[..at][..k] == trace[..k];
    }
    OpsOfPrefix(trace, at);
  }

  lemma {:induction false} OpsOfPrefix(trace: seq<Moment>, at: nat)
    requires at <= |trace|
    ensures |Ops(trace[..at])| <= |Ops(trace)|
  {
    if at < |trace| {
      OpsOfPrefix(trace[..|trace| - 1], at);
      assert trace[..|trace| - 1][..at] == trace[..at];
    } else {
      assert trace[..at] == trace;
    }
  }

  /** A held vault stays held over every run of changes, ticks, cycles and crashes at any moment, and git is never touched. */
  lemma {:induction false} HeldForever(w: World, s: State, steps: seq<Step>)
    requires Held(w, s) && forall i :: 0 <= i < |steps| ==> Unattended(steps[i])
    ensures Held(After(w, steps), s)
    ensures forall i :: 0 <= i < |steps| ==> Ops(Perform(After(w, steps[..i]), steps[i]).trace) == []
  {
    hide Held, Perform, Unattended;
    if steps != [] {
      var n := |steps| - 1;
      HeldForever(w, s, steps[..n]);
      StepKeepsHeld(After(w, steps[..n]), s, steps[n]);
      forall i | 0 <= i < |steps|
        ensures Ops(Perform(After(w, steps[..i]), steps[i]).trace) == []
      {
        if i < n {
          assert steps[..n][..i] == steps[..i] && steps[..n][i] == steps[i];
        }
      }
    }
  }

  /** Conflicts found by a cycle hold the vault. */
  lemma ConflictsHold(w: World, env: Env)
    requires FindsConflicts(w.mem.state, env)
    ensures Held(RunCycle(w, env).w, Conflict)
  {
    hide RunCycle;
    ConflictsAreNotForgotten(w, env);
    var r := RunCycle(w, env);
    var i :| 0 <= i < |r.trace| && r.trace[i] == Did(Integrate) && ReopensFrom(w.disk, r.trace, i, Conflict);
    assert r.trace[..|r.trace|] == r.trace;
  }

  lemma GiveUpHolds(r: Run, s: State, message: string, error: SyncError, env: Env)
    requires r.outcome.Running?
    ensures var g := GiveUp(r, s, message, error, env);
      && !g.outcome.Running? && g.w.mem == r.w.mem.(state := s, lastError := Some(message))
      && Reopens(g.w.disk) == if s in env.unsaved then Reopens(r.w.disk) else s
  {
  }

  lemma CheckEntersSafeMode(w: World, env: Env)
    requires w.mem.state != SafeMode && AfterCheck(w, env).w.mem.state == SafeMode
    ensures AfterCheck(w, env) == GiveUp(Start(w), SafeMode, "gitoxide open failed - safe mode", SafeModeRequired, env)
  {
    hide Record, JournalOf;
    if !Blocked(w.mem.state) && !(env.gitDir && !env.integrityOk) && env.secrets {
      var mem := w.mem.(preflight := env.warnings, state := Error, lastError := Some("Secret/credential pattern in staged content"));
      RecordGrows(With(Start(w), mem), PreflightEvent, false, env);
    }
  }

  lemma SafeModeFromCheck(w: World, env: Env)
    requires w.mem.state != SafeMode && AfterCheck(w, env).w.mem.state == SafeMode
    ensures Reopens(AfterCheck(w, env).w.disk) == if SafeMode in env.unsaved then Reopens(w.disk) else SafeMode
    ensures !AfterCheck(w, env).outcome.Running?
  {
    CheckEntersSafeMode(w, env);
    hide AfterCheck, GiveUp, Reopens;
    GiveUpHolds(Start(w), SafeMode, "gitoxide open failed - safe mode", SafeModeRequired, env);
  }

  lemma SafeModeFromIntegrate(r: Run, env: Env)
    requires r.outcome.Running? && IntegratePhase(r, env).w.mem.state == SafeMode
    ensures Reopens(IntegratePhase(r, env).w.disk) == if SafeMode in env.unsaved then Conflict else SafeMode
    ensures !IntegratePhase(r, env).outcome.Running?
  {
    hide Unsafe, GiveUp, Record;
    var done := Doing(Persist(Enter(r, Integrating), Integrate, env), Integrate);
    if env.integrate.Unmerged? {
      var message := env.integrate.message;
      GiveUpHolds(done, SafeMode, message, SafeModeRequired, env);
      GiveUpHolds(done, Error, message, GitFailed(message), env);
    } else {
      RecordGrows(done, IntegrateEvent, true, env);
      var noted := if env.integrate.files == [] then done else Record(done, IntegrateEvent, true, env);
      var held := Persist(With(noted, noted.w.mem.(conflicts := env.integrate.conflicts, state := Conflict)), NoOp, env);
      RecordGrows(held, ConflictEvent, false, env);
    }
  }

  lemma PersistKeeps(r: Run, op: Op, env: Env)
    ensures Persist(r, op, env).w.mem == r.w.mem && Persist(r, op, env).w.disk.queue == r.w.disk.queue
  {
  }

  lemma PutOffState(r: Run, env: Env)
    ensures PutOff(r, env).w.mem == r.w.mem.(state := OfflineQueued)
  {
    hide Persist, Enqueue, IsQueued;
    var item := Item(env.itemId, env.summary, env.candidates);
    var queued := if IsQueued(r.w.disk.queue, env.summary, env.candidates) then r else SaveQueue(r, Enqueue(r.w.disk.queue, item), env);
    PersistKeeps(Enter(queued, OfflineQueued), NoOp, env);
  }

  lemma BackOffState(r: Run, message: string, kind: Kind, env: Env)
    ensures BackOff(r, message, kind, env).w.mem
         == r.w.mem.(lastError := Some(message), state := Backoff, backoff := Doubled(r.w.mem.backoff))
  {
    hide Persist, Record, Doubled;
    var mem := r.w.mem.(lastError := Some(message), state := Backoff, backoff := Doubled(r.w.mem.backoff));
    RecordGrows(With(r, mem), kind, false, env);
    PersistKeeps(Record(With(r, mem), kind, false, env), NoOp, env);
  }

  // What each phase leaves in memory.
  lemma CommitPhaseMemory(r: Run, env: Env)
    requires r.outcome.Running?
    ensures var m, n := r.w.mem, CommitPhase(r, env).w.mem;
      n.state in {Committing, OfflineQueued, Error} && n.backoff == m.backoff && n.lastSuccess == m.lastSuccess
  {
    hide Persist, Record, PutOff, GiveUp;
    var named := Persist(Enter(r, Committing), Commit, env);
    var done := Doing(named, Commit);
    PersistKeeps(Enter(r, Committing), Commit, env);
    RecordGrows(done, CommitEvent, true, env);
    PutOffState(done, env);
    PutOffState(Record(done, CommitEvent, true, env), env);
    if named.outcome.Running? && env.commit.Broke? {
      GiveUpHolds(done, Error, env.commit.message, GitFailed(env.commit.message), env);
    }
  }

  lemma FetchPhaseMemory(r: Run, env: Env)
    requires r.outcome.Running?
    ensures var m, n := r.w.mem, FetchPhase(r, env).w.mem;
      n.state in {Fetching, Backoff} && n.lastSuccess == m.lastSuccess
        && n.backoff == if Fetching !in env.unsaved && env.fetch.Broke? then Doubled(m.backoff) else m.backoff
  {
    hide Record, BackOff, Doubled;
    var done := Doing(Persist(Enter(r, Fetching), Fetch, env), Fetch);
    if env.fetch.Broke? {
      BackOffState(done, env.fetch.message, FetchEvent, env);
    }
  }

  lemma ValidatePhaseMemory(r: Run, env: Env)
    requires r.outcome.Running?
    ensures var m, n := r.w.mem, ValidatePhase(r, env).w.mem; n.state in {Validating, Error} && n.backoff == m.backoff && n.lastSuccess == m.lastSuccess
  {
    hide Record;
    var done := Doing(Persist(Enter(r, Validating), Validate, env), Validate);
    if env.validate.Checked? {
      var mem := done.w.mem.(state := Error, lastError := Some(env.validate.report));
      RecordGrows(With(done, mem), ValidateEvent, false, env);
    }
  }

  lemma PushPhaseMemory(r: Run, env: Env)
    requires r.outcome.Running?
    ensures var m, n := r.w.mem, PushPhase(r, env).w.mem;
      n.state in {Pushing, Idle, Backoff}
        && n.lastSuccess == (if Pushing !in env.unsaved && env.push.Worked? then Some(env.now) else m.lastSuccess)
        && n.backoff == if Pushing in env.unsaved then m.backoff else if env.push.Worked? then FIRST_BACKOFF else Doubled(m.backoff)
  {
    hide Record, BackOff, Doubled;
    var done := Doing(Persist(Enter(r, Pushing), Push, env), Push);
    if env.push.Broke? {
      BackOffState(done, env.push.message, PushEvent, env);
    } else {
      var mem := done.w.mem.(state := Idle, lastSuccess := Some(env.now), lastError := None, backoff := FIRST_BACKOFF);
      RecordGrows(SaveQueue(With(done, mem), [], env), PushEvent, true, env);
    }
  }

  /** A cycle that ends in safe mode holds the vault if and only if that state could be written to the journal. */
  lemma SafeModeHoldsIff(w: World, env: Env)
    requires w.mem.state != SafeMode && Reopens(w.disk) != SafeMode && RunCycle(w, env).w.mem.state == SafeMode
    ensures Held(RunCycle(w, env).w, SafeMode) <==> SafeMode !in env.unsaved
  {
    hide CheckPhase, CommitPhase, FetchPhase, IntegratePhase, ValidatePhase, PushPhase, Reopens;
    var check, fetch := AfterCheck(w, env), AfterFetch(w, env);
    if check.w.mem.state == SafeMode {
      SafeModeFromCheck(w, env);
    } else {
      if check.outcome.Running? {
        CommitPhaseMemory(check, env);
      }
      if AfterCommit(w, env).outcome.Running? {
        FetchPhaseMemory(AfterCommit(w, env), env);
      }
      if AfterIntegrate(w, env).w.mem.state == SafeMode {
        SafeModeFromIntegrate(fetch, env);
      } else {
        if AfterIntegrate(w, env).outcome.Running? {
          ValidatePhaseMemory(AfterIntegrate(w, env), env);
        }
        if AfterValidate(w, env).outcome.Running? {
          PushPhaseMemory(AfterValidate(w, env), env);
        }
      }
    }
  }

  // ---------------------------------------------------------------- resolution

  lemma DiskAtNone(d: Disk)
    ensures DiskAt(d, []) == d
  {
  }

  /** Resolving does its operations without a journal entry: until its last write the disk is what it was. */
  lemma ResolutionIsUnjournaled(w: World, env: Env, k: nat)
    requires k < |Resolve(w, env).trace| && Resolve(w, env).trace[k].Did?
    ensures DiskAt(w.disk, Resolve(w, env).trace[..k]) == w.disk
  {
    hide PushHistory, DiskAt, Ops, JournalOf;
    var trace := Resolve(w, env).trace;
    DiskAtNone(w.disk);
    DiskAtSnoc(w.disk, [], Did(Commit));
    DiskAtSnoc(w.disk, [Did(Commit)], Did(Validate));
    assert [] + [Did(Commit)] == [Did(Commit)] && [Did(Commit)] + [Did(Validate)] == [Did(Commit), Did(Validate)];
    assert trace[..k] == [] || trace[..k] == [Did(Commit)] || trace[..k] == [Did(Commit), Did(Validate)];
  }

  /** A resolution leaves the conflict in memory if and only if nothing was written or the result was found invalid; when commit,
      validation itself or the push fails, the conflict is dropped from memory although nothing reached the remote. */
  lemma ResolutionKeepsConflictIff(w: World, env: Env)
    requires w.mem.state == Conflict
    ensures Resolve(w, env).w.mem.state == Conflict
       <==> !env.filesWritten || (env.commit.Worked? && env.validate.Checked? && !env.validate.ok)
  {
  }

  /** After a resolution whose push failed, the next change in the vault erases the conflict from the disk as well. */
  lemma FailedPushForgetsConflict(w: World, env: Env, later: Env)
    requires Held(w, Conflict)
    requires env.filesWritten && env.commit.Worked? && env.validate.Checked? && env.validate.ok && env.push.Broke?
    requires Debouncing !in later.unsaved
    ensures Resolve(w, env).outcome.Failed? && Reopens(Resolve(w, env).w.disk) == Conflict
    ensures var end := FsChange(Resolve(w, env).w, later).w; end.mem.state == Debouncing && Reopens(end.disk) == Debouncing
  {
  }

  // ---------------------------------------------------------------- backoff

  lemma CheckMemory(w: World, env: Env)
    ensures AfterCheck(w, env).w.mem.backoff == w.mem.backoff && AfterCheck(w, env).w.mem.lastSuccess == w.mem.lastSuccess
  {
  }

  lemma IntegratePhaseMemory(r: Run, env: Env)
    requires r.outcome.Running?
    ensures IntegratePhase(r, env).w.mem.backoff == r.w.mem.backoff && IntegratePhase(r, env).w.mem.lastSuccess == r.w.mem.lastSuccess
  {
    hide Unsafe, GiveUp, Record;
    var done := Doing(Persist(Enter(r, Integrating), Integrate, env), Integrate);
    if env.integrate.Unmerged? {
      var message := env.integrate.message;
      if Integrating !in env.unsaved {
        GiveUpHolds(done, SafeMode, message, SafeModeRequired, env);
        GiveUpHolds(done, Error, message, GitFailed(message), env);
      }
    } else {
      RecordGrows(done, IntegrateEvent, true, env);
      var noted := if env.integrate.files == [] then done else Record(done, IntegrateEvent, true, env);
      var held := Persist(With(noted, noted.w.mem.(conflicts := env.integrate.conflicts, state := Conflict)), NoOp, env);
      RecordGrows(held, ConflictEvent, false, env);
    }
  }

  /** The remote could not be reached or refused: a fetch or a push was made and failed. */
  predicate NetFails(s: State, env: Env) {
    || (Passed(s, env, 1) && Fetching !in env.unsaved && env.fetch.Broke?)
    || (Passed(s, env, 4) && Pushing !in env.unsaved && env.push.Broke?)
  }

  predicate Succeeds(s: State, env: Env) {
    Passed(s, env, 4) && Pushing !in env.unsaved && env.push.Worked?
  }

  /** A cycle sets the wait back after a successful push, doubles it after a failed fetch or push, and otherwise leaves it; the time
      of the last success changes if and only if it pushes successfully. */
  lemma CycleBackoff(w: World, env: Env)
    ensures RunCycle(w, env).w.mem.lastSuccess == if Succeeds(w.mem.state, env) then Some(env.now) else w.mem.lastSuccess
    ensures RunCycle(w, env).w.mem.backoff
         == if Succeeds(w.mem.state, env) then FIRST_BACKOFF else if NetFails(w.mem.state, env) then Doubled(w.mem.backoff) else w.mem.backoff
  {
    hide AfterCheck, CommitPhase, FetchPhase, IntegratePhase, ValidatePhase, PushPhase, Sound, Doubled;
    CheckProgress(w, env);
    CommitProgress(w, env);
    FetchProgress(w, env);
    IntegrateProgress(w, env);
    ValidateProgress(w, env);
    CheckMemory(w, env);
    if AfterCheck(w, env).outcome.Running? {
      CommitPhaseMemory(AfterCheck(w, env), env);
    }
    if AfterCommit(w, env).outcome.Running? {
      FetchPhaseMemory(AfterCommit(w, env), env);
    }
    if AfterFetch(w, env).outcome.Running? {
      IntegratePhaseMemory(AfterFetch(w, env), env);
    }
    if AfterIntegrate(w, env).outcome.Running? {
      ValidatePhaseMemory(AfterIntegrate(w, env), env);
    }
    if AfterValidate(w, env).outcome.Running? {
      PushPhaseMemory(AfterValidate(w, env), env);
    }
  }

  function Power2(n: nat): nat {
    if n == 0 then 1 else 2 * Power2(n - 1)
  }

  /** The wait after so many failures in a row. */
  function Wait(failures: nat): nat {
    if FIRST_BACKOFF * Power2(failures) > LAST_BACKOFF then LAST_BACKOFF else FIRST_BACKOFF * Power2(failures)
  }

  /** A step that runs a cycle, with what the cycle meets. */
  function CycleIn(w: World, step: Step): Option<Env> {
    match step
    case Cycle(env) => Some(env)
    case Clock(env) => if IsDue(w.mem, env) then Some(env.(offline := false)) else None
    case _ => None
  }

  function CountAfter(failures: nat, w: World, step: Step): nat {
    if step.Crash? then 0
    else
      var cycle := CycleIn(w, step);
      if cycle.None? then failures
      else if Succeeds(w.mem.state, cycle.value) then 0
      else if NetFails(w.mem.state, cycle.value) then failures + 1
      else failures
  }

  /** Failed fetches and pushes since the last successful push or reopening. */
  function Failures(w: World, steps: seq<Step>): nat {
    if steps == [] then 0
    else CountAfter(Failures(w, steps[..|steps| - 1]), After(w, steps[..|steps| - 1]), steps[|steps| - 1])
  }

  lemma StepBackoff(w: World, failures: nat, step: Step)
    requires w.mem.backoff == Wait(failures)
    ensures Perform(w, step).w.mem.backoff == Wait(CountAfter(failures, w, step))
  {
    hide RunCycle, Succeeds, NetFails;
    var cycle := CycleIn(w, step);
    if cycle.Some? {
      CycleBackoff(w, cycle.value);
    }
  }

  /** Over every run of a reopened vault the wait doubles with each failed fetch or push in a row, up to five minutes. */
  lemma {:induction false} BackoffDoubles(d: Disk, steps: seq<Step>)
    ensures After(Open(d), steps).mem.backoff == Wait(Failures(Open(d), steps))
  {
    if steps != [] {
      hide Perform, Wait;
      BackoffDoubles(d, steps[..|steps| - 1]);
      StepBackoff(After(Open(d), steps[..|steps| - 1]), Failures(Open(d), steps[..|steps| - 1]), steps[|steps| - 1]);
    }
  }

  // ---------------------------------------------------------------- two surprises

  /** A merged result that is found invalid is not held as a conflict: the vault is in error, and the next cycle is not blocked. */
  lemma InvalidResultIsNotHeld(w: World, env: Env)
    requires Passed(w.mem.state, env, 3) && Validating !in env.unsaved && env.validate.Checked? && !env.validate.ok
    ensures RunCycle(w, env).w.mem.state == Error && !Blocked(RunCycle(w, env).w.mem.state)
    ensures !Held(RunCycle(w, env).w, Conflict)
  {
    hide AfterIntegrate, Sound, Record;
    IntegrateProgress(w, env);
    ValidateProgress(w, env);
    var r := AfterIntegrate(w, env);
    var done := Doing(Persist(Enter(r, Validating), Validate, env), Validate);
    var mem := done.w.mem.(state := Error, lastError := Some(env.validate.report));
    RecordGrows(With(done, mem), ValidateEvent, false, env);
  }

  /** A vault that was closed while debouncing reopens debouncing but without a deadline: the clock alone never starts a cycle. */
  lemma {:induction false} ReopenedDebounceWaits(d: Disk, steps: seq<Step>)
    requires forall i :: 0 <= i < |steps| ==> steps[i].Clock?
    ensures After(Open(d), steps) == Open(d)
  {
    hide RunCycle;
    if steps != [] {
      ReopenedDebounceWaits(d, steps[..|steps| - 1]);
    }
  }

  // ---------------------------------------------------------------- what a finished call leaves

  /** The journal tells the state in memory and names no operation, so that reopening continues where the call ended. */
  ghost predicate Agrees(w: World) {
    && w.disk.journal.state == w.mem.state && w.disk.journal.op == NoOp
    && w.disk.journal.lastError == w.mem.lastError && w.disk.journal.lastSuccess == w.mem.lastSuccess
  }

  /** How a call ended: by a journal write that failed, by a validation that could not run, or with journal and memory agreeing. */
  ghost predicate EndsWell(r: Run) {
    r.outcome.Running? || r.outcome == Failed(JournalFailed) || (r.outcome.Failed? && r.outcome.error.ValidationFailed?) || Agrees(r.w)
  }

  lemma PersistAgrees(r: Run, env: Env, o: Outcome)
    requires r.outcome.Running?
    ensures EndsWell(Stop(Persist(r, NoOp, env), o))
    ensures Persist(r, NoOp, env).outcome.Running? ==> Agrees(Persist(r, NoOp, env).w)
  {
  }

  lemma RecordAgrees(r: Run, kind: Kind, ok: bool, env: Env)
    requires Agrees(r.w)
    ensures Agrees(Record(r, kind, ok, env).w)
  {
  }

  lemma NotedAgrees(r: Run, kind: Kind, env: Env, o: Outcome)
    requires r.outcome.Running?
    ensures EndsWell(Stop(Persist(Record(r, kind, false, env), NoOp, env), o))
  {
    hide Persist, Record, EndsWell;
    RecordGrows(r, kind, false, env);
    PersistAgrees(Record(r, kind, false, env), env, o);
  }

  lemma PutOffAgrees(r: Run, env: Env)
    requires r.outcome.Running?
    ensures EndsWell(PutOff(r, env))
  {
    hide Persist, EndsWell, Enqueue, IsQueued;
    var item := Item(env.itemId, env.summary, env.candidates);
    var queued := if IsQueued(r.w.disk.queue, env.summary, env.candidates) then r else SaveQueue(r, Enqueue(r.w.disk.queue, item), env);
    PersistAgrees(Enter(queued, OfflineQueued), env, Done);
  }

  lemma CheckAgrees(w: World, env: Env)
    requires !Blocked(w.mem.state)
    ensures EndsWell(AfterCheck(w, env))
  {
    hide Persist, Record;
    var r := Start(w);
    PersistAgrees(With(r, w.mem.(state := SafeMode, lastError := Some("gitoxide open failed - safe mode"))), env, Failed(SafeModeRequired));
    var seen := With(r, w.mem.(preflight := env.warnings));
    var mem := seen.w.mem.(state := Error, lastError := Some("Secret/credential pattern in staged content"));
    NotedAgrees(With(seen, mem), PreflightEvent, env, Failed(SecretsBlocked));
    PersistAgrees(Enter(seen, LockedSnapshot), env, Running);
  }

  lemma EntersOrFails(r: Run, s: State, op: Op, env: Env)
    requires r.outcome.Running?
    ensures var named := Persist(Enter(r, s), op, env); named.outcome.Running? || named.outcome == Failed(JournalFailed)
  {
  }

  lemma CommitAgrees(r: Run, env: Env)
    requires r.outcome.Running?
    ensures EndsWell(CommitPhase(r, env))
  {
    hide Persist, Record, PutOff;
    EntersOrFails(r, Committing, Commit, env);
    var named := Persist(Enter(r, Committing), Commit, env);
    var done := Doing(named, Commit);
    if named.outcome.Running? {
      RecordGrows(done, CommitEvent, true, env);
      PutOffAgrees(done, env);
      PutOffAgrees(Record(done, CommitEvent, true, env), env);
      if env.commit.Broke? {
        PersistAgrees(With(done, done.w.mem.(state := Error, lastError := Some(env.commit.message))), env, Failed(GitFailed(env.commit.message)));
      }
    }
  }

  lemma FetchAgrees(r: Run, env: Env)
    requires r.outcome.Running?
    ensures EndsWell(FetchPhase(r, env))
  {
    hide Persist, Record, Doubled;
    EntersOrFails(r, Fetching, Fetch, env);
    var done := Doing(Persist(Enter(r, Fetching), Fetch, env), Fetch);
    if done.outcome.Running? && env.fetch.Broke? {
      var mem := done.w.mem.(lastError := Some(env.fetch.message), state := Backoff, backoff := Doubled(done.w.mem.backoff));
      NotedAgrees(With(done, mem), FetchEvent, env, Failed(GitFailed(env.fetch.message)));
    }
  }

  lemma IntegrateAgrees(r: Run, env: Env)
    requires r.outcome.Running?
    ensures EndsWell(IntegratePhase(r, env))
  {
    hide Persist, Record, Unsafe;
    EntersOrFails(r, Integrating, Integrate, env);
    var done := Doing(Persist(Enter(r, Integrating), Integrate, env), Integrate);
    if done.outcome.Running? {
      match env.integrate
      case Unmerged(message) =>
        PersistAgrees(With(done, done.w.mem.(state := SafeMode, lastError := Some(message))), env, Failed(SafeModeRequired));
        PersistAgrees(With(done, done.w.mem.(state := Error, lastError := Some(message))), env, Failed(GitFailed(message)));
      case Merged(clean, conflicts, files) =>
        RecordGrows(done, IntegrateEvent, true, env);
        var noted := if files == [] then done else Record(done, IntegrateEvent, true, env);
        var mem := noted.w.mem.(conflicts := conflicts, state := Conflict);
        PersistAgrees(With(noted, mem), env, Running);
        var held := Persist(With(noted, mem), NoOp, env);
        if held.outcome.Running? {
          RecordAgrees(held, ConflictEvent, false, env);
        }
    }
  }

  lemma ValidateAgrees(r: Run, env: Env)
    requires r.outcome.Running?
    ensures EndsWell(ValidatePhase(r, env))
  {
    hide Persist, Record;
    EntersOrFails(r, Validating, Validate, env);
    var done := Doing(Persist(Enter(r, Validating), Validate, env), Validate);
    if done.outcome.Running? && env.validate.Checked? {
      NotedAgrees(With(done, done.w.mem.(state := Error, lastError := Some(env.validate.report))), ValidateEvent, env, Failed(ValidationBlocked));
    }
  }

  lemma PushAgrees(r: Run, env: Env)
    requires r.outcome.Running?
    ensures EndsWell(PushPhase(r, env))
  {
    hide Persist, Record, Doubled, SaveQueue;
    EntersOrFails(r, Pushing, Push, env);
    var done := Doing(Persist(Enter(r, Pushing), Push, env), Push);
    if done.outcome.Running? {
      match env.push
      case Worked =>
        var idle := With(done, done.w.mem.(state := Idle, lastSuccess := Some(env.now), lastError := None, backoff := FIRST_BACKOFF));
        SaveQueueKeeps(idle, [], env);
        var drained := SaveQueue(idle, [], env);
        RecordGrows(drained, PushEvent, true, env);
        PersistAgrees(Record(drained, PushEvent, true, env), env, Done);
      case Broke(message) =>
        var mem := done.w.mem.(lastError := Some(message), state := Backoff, backoff := Doubled(done.w.mem.backoff));
        NotedAgrees(With(done, mem), PushEvent, env, Failed(GitFailed(message)));
    }
  }

  lemma SaveQueueKeeps(r: Run, queue: seq<Item>, env: Env)
    ensures SaveQueue(r, queue, env).outcome == r.outcome && SaveQueue(r, queue, env).w.mem == r.w.mem
  {
  }

  /** A cycle that is not refused ends with journal and memory agreeing, unless a journal write failed or validation could not
      run; reopening then gives exactly the state in memory. */
  lemma CycleEndsJournaled(w: World, env: Env)
    requires !Blocked(w.mem.state)
    ensures var r := RunCycle(w, env);
      r.outcome == Failed(JournalFailed) || (r.outcome.Failed? && r.outcome.error.ValidationFailed?)
      || (Agrees(r.w) && Open(r.w.disk).mem.state == r.w.mem.state && Open(r.w.disk).mem.lastError == r.w.mem.lastError)
  {
    hide CommitPhase, FetchPhase, IntegratePhase, ValidatePhase, PushPhase, CheckPhase, Progress;
    CycleProgressEnds(w, env);
    CheckAgrees(w, env);
    if AfterCheck(w, env).outcome.Running? {
      CommitAgrees(AfterCheck(w, env), env);
    }
    if AfterCommit(w, env).outcome.Running? {
      FetchAgrees(AfterCommit(w, env), env);
    }
    if AfterFetch(w, env).outcome.Running? {
      IntegrateAgrees(AfterFetch(w, env), env);
    }
    if AfterIntegrate(w, env).outcome.Running? {
      ValidateAgrees(AfterIntegrate(w, env), env);
    }
    if AfterValidate(w, env).outcome.Running? {
      PushAgrees(AfterValidate(w, env), env);
    }
  }

  lemma CycleProgressEnds(w: World, env: Env)
    ensures !RunCycle(w, env).outcome.Running?
  {
    hide RunCycle, Progress;
    CycleProgress(w, env);
  }

  /** A successful push leaves the vault idle without an error, the queue empty if it could be written, and the push as the last
      event of the history if that could be written; the call reports success if and only if the idle state could be journaled. */
  lemma SuccessIsRecorded(w: World, env: Env)
    requires Succeeds(w.mem.state, env)
    ensures var r := RunCycle(w, env);
      && r.w.mem.state == Idle && r.w.mem.lastError == None && (r.outcome == Done <==> Idle !in env.unsaved)
      && (!env.queueWrite.Refused? ==> r.w.disk.queue == [])
      && (PushEvent !in env.lostEvents + env.tornEvents ==> r.w.disk.history != [] && r.w.disk.history[|r.w.disk.history| - 1] == Event(PushEvent, true))
  {
    hide AfterValidate, Sound, Record, SaveQueue;
    ValidateProgress(w, env);
    var done := Doing(Persist(Enter(AfterValidate(w, env), Pushing), Push, env), Push);
    var idle := With(done, done.w.mem.(state := Idle, lastSuccess := Some(env.now), lastError := None, backoff := FIRST_BACKOFF));
    SaveQueueKeeps(idle, [], env);
    SaveQueueStores(idle, [], env);
    var drained := SaveQueue(idle, [], env);
    RecordGrows(drained, PushEvent, true, env);
    RecordLast(drained, PushEvent, true, env);
  }

  lemma SaveQueueStores(r: Run, queue: seq<Item>, env: Env)
    ensures SaveQueue(r, queue, env).w.disk.queue
         == match env.queueWrite case Stored => queue case Refused => r.w.disk.queue case Torn => []
  {
  }

  lemma RecordLast(r: Run, kind: Kind, ok: bool, env: Env)
    ensures var n := Record(r, kind, ok, env).w.disk;
      n.queue == r.w.disk.queue && (kind !in env.lostEvents + env.tornEvents ==> n.history != [] && n.history[|n.history| - 1] == Event(kind, ok))
  {
  }
}
