/** How a sync cycle ends, told from what it meets: state, memory, outcome and history. */
module SyncEnds {
  import opened Wrappers
  import opened SyncModel
  import opened SyncLaws
  import opened SyncRuns

  /** The ways in which a cycle ends. `Unsaved` is a journal write that failed when a phase was about to begin. */
  datatype End =
    | Declined | Unopenable | SecretsFound | Unsaved(state: State) | Uncommitted(message: string) | Later | Unfetched(message: string)
    | Unmergeable(message: string) | Unintegrated(message: string) | Conflicted(conflicts: seq<string>) | Unvalidated(message: string)
    | Invalid(report: string) | Unpushed(message: string) | Pushed

  /** The first thing that stops the cycle. */
  ghost function EndOf(s: State, env: Env): End {
    if s in {SafeMode, Conflict, AwaitingUser} then Declined
    else if env.gitDir && !env.integrityOk then Unopenable
    else if env.secrets then SecretsFound
    else if LockedSnapshot in env.unsaved then Unsaved(LockedSnapshot)
    else if Committing in env.unsaved then Unsaved(Committing)
    else if env.offline || (env.commit.Worked? && !env.authed) then Later
    else if env.commit.Broke? then Uncommitted(env.commit.message)
    else if Fetching in env.unsaved then Unsaved(Fetching)
    else if env.fetch.Broke? then Unfetched(env.fetch.message)
    else if Integrating in env.unsaved then Unsaved(Integrating)
    else if env.integrate.Unmerged? then
      if Mentions(env.integrate.message, "no merge base") || Mentions(env.integrate.message, "corrupt") then Unmergeable(env.integrate.message)
      else Unintegrated(env.integrate.message)
    else if !env.integrate.clean then Conflicted(env.integrate.conflicts)
    else if Validating in env.unsaved then Unsaved(Validating)
    else if env.validate.Unchecked? then Unvalidated(env.validate.message)
    else if !env.validate.ok then Invalid(env.validate.report)
    else if Pushing in env.unsaved then Unsaved(Pushing)
    else if env.push.Broke? then Unpushed(env.push.message)
    else Pushed
  }

  ghost predicate Mentions(message: string, text: string) {
    exists before, after :: message == before + text + after
  }

  lemma MentionsIsContains(message: string, text: string)
    ensures Contains(message, text) <==> Mentions(message, text)
  {
    if Contains(message, text) {
      var i :| 0 <= i <= |message| && text <= message[i..];
      assert message == message[..i] + text + message[i..][|text|..];
    }
    if Mentions(message, text) {
      var before, after :| message == before + text + after;
      assert message[|before|..] == text + after;
    }
  }

  /** The state that each end leaves behind. */
  function LeftIn(end: End, s: State): State {
    match end
    case Declined => s
    case Unopenable => SafeMode
    case SecretsFound => Error
    case Unsaved(entered) => entered
    case Uncommitted(_) => Error
    case Later => OfflineQueued
    case Unfetched(_) => Backoff
    case Unmergeable(_) => SafeMode
    case Unintegrated(_) => Error
    case Conflicted(_) => Conflict
    case Unvalidated(_) => Validating
    case Invalid(_) => Error
    case Unpushed(_) => Backoff
    case Pushed => Idle
  }

  /** What the caller is told, provided that the last journal write succeeds. */
  function Told(end: End, s: State): Outcome {
    match end
    case Declined => Failed(if s == SafeMode then SafeModeRequired else UnresolvedConflicts)
    case Unopenable => Failed(SafeModeRequired)
    case SecretsFound => Failed(SecretsBlocked)
    case Unsaved(_) => Failed(JournalFailed)
    case Uncommitted(message) => Failed(GitFailed(message))
    case Later => Done
    case Unfetched(message) => Failed(GitFailed(message))
    case Unmergeable(_) => Failed(SafeModeRequired)
    case Unintegrated(message) => Failed(GitFailed(message))
    case Conflicted(_) => Failed(UnresolvedConflicts)
    case Unvalidated(message) => Failed(ValidationFailed(message))
    case Invalid(_) => Failed(ValidationBlocked)
    case Unpushed(message) => Failed(GitFailed(message))
    case Pushed => Done
  }

  /** A refused cycle and one whose validation breaks write no journal at their end. */
  function ToldAfter(end: End, s: State, env: Env): Outcome {
    if !end.Declined? && !end.Unvalidated? && LeftIn(end, s) in env.unsaved then Failed(JournalFailed) else Told(end, s)
  }

  /** The text kept as the last error. */
  function Blamed(end: End, before: Option<string>): Option<string> {
    match end
    case Declined => before
    case Unopenable => Some("gitoxide open failed - safe mode")
    case SecretsFound => Some("Secret/credential pattern in staged content")
    case Unsaved(_) => before
    case Uncommitted(message) => Some(message)
    case Later => before
    case Unfetched(message) => Some(message)
    case Unmergeable(message) => Some(message)
    case Unintegrated(message) => Some(message)
    case Conflicted(_) => before
    case Unvalidated(_) => before
    case Invalid(report) => Some(report)
    case Unpushed(message) => Some(message)
    case Pushed => None
  }

  /** What is in memory after the cycle. Notes, remote and deadline never change. */
  function Remembered(end: End, m: Memory, env: Env): Memory {
    Memory(LeftIn(end, m.state), if end.Conflicted? then end.conflicts else m.conflicts,
           if end.Declined? || end.Unopenable? then m.preflight else env.warnings, m.notes, m.remote, Blamed(end, m.lastError),
           if end.Pushed? then Some(env.now) else m.lastSuccess,
           if end.Pushed? then 2000
           else if !end.Unfetched? && !end.Unpushed? then m.backoff
           else if m.backoff > 150000 then 300000 else m.backoff * 2,
           m.deadline)
  }

  /** The events recorded on the way to each end. */
  function Recorded(end: End, env: Env): seq<Event> {
    var committed := [Event(CommitEvent, true)];
    var integrated := if env.integrate.Unmerged? || env.integrate.files == [] then committed
      else [Event(CommitEvent, true), Event(IntegrateEvent, true)];
    match end
    case Declined => []
    case Unopenable => []
    case SecretsFound => [Event(PreflightEvent, false)]
    case Unsaved(entered) =>
      if entered == LockedSnapshot || entered == Committing then []
      else if entered == Fetching || entered == Integrating then committed
      else integrated
    case Uncommitted(_) => []
    case Later => if env.commit.Worked? then committed else []
    case Unfetched(_) => committed + [Event(FetchEvent, false)]
    case Unmergeable(_) => committed
    case Unintegrated(_) => committed
    case Conflicted(_) => if Conflict in env.unsaved then integrated else integrated + [Event(ConflictEvent, false)]
    case Unvalidated(_) => integrated
    case Invalid(_) => integrated + [Event(ValidateEvent, false)]
    case Unpushed(_) => integrated + [Event(PushEvent, false)]
    case Pushed => integrated + [Event(PushEvent, true)]
  }

  /** The history after some events: one whose write is refused changes nothing, one whose write is torn empties it, and of the others
      the last two hundred stay. */
  function HistoryWith(history: seq<Event>, events: seq<Event>, env: Env): seq<Event> {
    if events == [] then history
    else
      var n := |events| - 1;
      var before := HistoryWith(history, events[..n], env);
      if events[n].kind in env.lostEvents then before
      else if events[n].kind in env.tornEvents then []
      else if |before| < 200 then before + [events[n]]
      else before[|before| - 199..] + [events[n]]
  }

  /** The call has ended so. */
  ghost predicate Ends(w: World, env: Env, end: End, r: Run) {
    && r.w.mem == Remembered(end, w.mem, env) && r.outcome == ToldAfter(end, w.mem.state, env)
    && r.w.disk.history == HistoryWith(w.disk.history, Recorded(end, env), env)
  }

  /** The call is still running, in the given state and after the given events. */
  ghost predicate GoesOn(w: World, env: Env, s: State, events: seq<Event>, r: Run) {
    && r.outcome.Running? && r.w.mem == w.mem.(preflight := env.warnings, state := s)
    && r.w.disk.history == HistoryWith(w.disk.history, events, env)
  }

  // ---------------------------------------------------------------- phase by phase

  lemma RecordAdds(history: seq<Event>, events: seq<Event>, r: Run, kind: Kind, ok: bool, env: Env)
    requires r.w.disk.history == HistoryWith(history, events, env)
    ensures var n := Record(r, kind, ok, env);
      && n.w.disk.history == HistoryWith(history, events + [Event(kind, ok)], env)
      && n.w.mem == r.w.mem && n.outcome == r.outcome && n.w.disk.queue == r.w.disk.queue
  {
    var all := events + [Event(kind, ok)];
    assert all[..|events|] == events;
    if |r.w.disk.history| >= 200 {
      var longer := r.w.disk.history + [Event(kind, ok)];
      assert longer[|longer| - 200..] == r.w.disk.history[|r.w.disk.history| - 199..] + [Event(kind, ok)];
    }
  }

  lemma NothingAdded(history: seq<Event>, env: Env)
    ensures HistoryWith(history, [], env) == history
  {
  }

  /** The number of phases that were passed. */
  function PhasesPassed(end: End): nat {
    match end
    case Declined => 0
    case Unopenable => 0
    case SecretsFound => 0
    case Unsaved(s) => if s == LockedSnapshot then 0 else if s == Committing then 1 else if s == Fetching then 2 else if s == Integrating then 3
      else if s == Validating then 4 else 5
    case Uncommitted(_) => 1
    case Later => 1
    case Unfetched(_) => 2
    case Unmergeable(_) => 3
    case Unintegrated(_) => 3
    case Conflicted(_) => 3
    case Unvalidated(_) => 4
    case Invalid(_) => 4
    case Unpushed(_) => 5
    case Pushed => 5
  }

  function StateAfter(phases: nat): State {
    if phases == 1 then LockedSnapshot else if phases == 2 then Committing else if phases == 3 then Fetching
    else if phases == 4 then Integrating else Validating
  }

  function EventsAfter(phases: nat, env: Env): seq<Event> {
    if phases < 2 then []
    else if phases < 4 || env.integrate.Unmerged? || env.integrate.files == [] then [Event(CommitEvent, true)]
    else [Event(CommitEvent, true), Event(IntegrateEvent, true)]
  }

  ghost predicate EndsOrGoesOn(w: World, env: Env, phases: nat, r: Run) {
    var end := EndOf(w.mem.state, env);
    if PhasesPassed(end) < phases then Ends(w, env, end, r) else GoesOn(w, env, StateAfter(phases), EventsAfter(phases, env), r)
  }

  lemma CheckEnds(w: World, env: Env)
    ensures EndsOrGoesOn(w, env, 1, AfterCheck(w, env))
  {
    hide Record, HistoryWith, Mentions;
    NothingAdded(w.disk.history, env);
    var mem := w.mem.(preflight := env.warnings, state := Error, lastError := Some("Secret/credential pattern in staged content"));
    RecordAdds(w.disk.history, [], With(Start(w), mem), PreflightEvent, false, env);
    assert [] + [Event(PreflightEvent, false)] == [Event(PreflightEvent, false)];
  }

  lemma PutOffEnds(r: Run, env: Env)
    requires r.outcome.Running?
    ensures var put := PutOff(r, env);
      && put.w.mem == r.w.mem.(state := OfflineQueued) && put.w.disk.history == r.w.disk.history
      && put.outcome == if OfflineQueued in env.unsaved then Failed(JournalFailed) else Done
  {
    hide IsQueued, Enqueue;
  }

  lemma GiveUpEnds(r: Run, s: State, message: string, error: SyncError, env: Env)
    requires r.outcome.Running?
    ensures var end := GiveUp(r, s, message, error, env);
      && end.w.mem == r.w.mem.(state := s, lastError := Some(message)) && end.w.disk.history == r.w.disk.history
      && end.outcome == if s in env.unsaved then Failed(JournalFailed) else Failed(error)
  {
  }

  lemma PersistsOn(r: Run, op: Op, env: Env)
    requires r.outcome.Running?
    ensures var named := Persist(r, op, env);
      && named.w.mem == r.w.mem && named.w.disk.history == r.w.disk.history
      && named.outcome == if r.w.mem.state in env.unsaved then Failed(JournalFailed) else Running
  {
  }

  lemma CommitPhaseEnds(w: World, env: Env, r: Run)
    requires GoesOn(w, env, LockedSnapshot, [], r) && PhasesPassed(EndOf(w.mem.state, env)) >= 1
    ensures EndsOrGoesOn(w, env, 2, CommitPhase(r, env))
  {
    hide Record, HistoryWith, Mentions, PutOff, Persist, GiveUp;
    NothingAdded(w.disk.history, env);
    PersistsOn(Enter(r, Committing), Commit, env);
    if Committing !in env.unsaved {
      var done := Doing(Persist(Enter(r, Committing), Commit, env), Commit);
      RecordAdds(w.disk.history, [], done, CommitEvent, true, env);
      assert [] + [Event(CommitEvent, true)] == [Event(CommitEvent, true)];
      PutOffEnds(done, env);
      PutOffEnds(Record(done, CommitEvent, true, env), env);
      if env.commit.Broke? {
        GiveUpEnds(done, Error, env.commit.message, GitFailed(env.commit.message), env);
      }
    }
  }

  lemma CommitEnds(w: World, env: Env)
    ensures EndsOrGoesOn(w, env, 2, AfterCommit(w, env))
  {
    hide CommitPhase, HistoryWith, EndOf, AfterCheck;
    CheckEnds(w, env);
    var r := AfterCheck(w, env);
    if PhasesPassed(EndOf(w.mem.state, env)) >= 1 {
      CommitPhaseEnds(w, env, r);
    }
  }

  lemma FetchEnds(w: World, env: Env)
    ensures EndsOrGoesOn(w, env, 3, AfterFetch(w, env))
  {
    hide Record, HistoryWith, Mentions, AfterCommit;
    CommitEnds(w, env);
    var r := AfterCommit(w, env);
    if r.outcome.Running? && env.fetch.Broke? {
      var done := Doing(Persist(Enter(r, Fetching), Fetch, env), Fetch);
      var mem := done.w.mem.(lastError := Some(env.fetch.message), state := Backoff, backoff := Doubled(done.w.mem.backoff));
      RecordAdds(w.disk.history, EventsAfter(2, env), With(done, mem), FetchEvent, false, env);
    }
  }

  lemma IntegratePhaseEnds(w: World, env: Env, r: Run)
    requires GoesOn(w, env, Fetching, EventsAfter(3, env), r) && PhasesPassed(EndOf(w.mem.state, env)) >= 3
    ensures EndsOrGoesOn(w, env, 4, IntegratePhase(r, env))
  {
    hide Record, HistoryWith, Mentions, Persist, GiveUp, Contains;
    PersistsOn(Enter(r, Integrating), Integrate, env);
    if Integrating !in env.unsaved {
      var done := Doing(Persist(Enter(r, Integrating), Integrate, env), Integrate);
      if env.integrate.Unmerged? {
        var message := env.integrate.message;
        MentionsIsContains(message, "no merge base");
        MentionsIsContains(message, "corrupt");
        GiveUpEnds(done, SafeMode, message, SafeModeRequired, env);
        GiveUpEnds(done, Error, message, GitFailed(message), env);
      } else {
        assert [Event(CommitEvent, true)] + [Event(IntegrateEvent, true)] == [Event(CommitEvent, true), Event(IntegrateEvent, true)];
        RecordAdds(w.disk.history, EventsAfter(3, env), done, IntegrateEvent, true, env);
        var noted := if env.integrate.files == [] then done else Record(done, IntegrateEvent, true, env);
        var mem := noted.w.mem.(conflicts := env.integrate.conflicts, state := Conflict);
        PersistsOn(With(noted, mem), NoOp, env);
        RecordAdds(w.disk.history, EventsAfter(4, env), Persist(With(noted, mem), NoOp, env), ConflictEvent, false, env);
      }
    }
  }

  lemma IntegrateEnds(w: World, env: Env)
    ensures EndsOrGoesOn(w, env, 4, AfterIntegrate(w, env))
  {
    hide IntegratePhase, HistoryWith, EndOf, AfterFetch;
    FetchEnds(w, env);
    var r := AfterFetch(w, env);
    if PhasesPassed(EndOf(w.mem.state, env)) >= 3 {
      IntegratePhaseEnds(w, env, r);
    }
  }

  lemma ValidateEnds(w: World, env: Env)
    ensures EndsOrGoesOn(w, env, 5, AfterValidate(w, env))
  {
    hide Record, HistoryWith, Mentions, AfterIntegrate;
    IntegrateEnds(w, env);
    var r := AfterIntegrate(w, env);
    if r.outcome.Running? && env.validate.Checked? {
      var done := Doing(Persist(Enter(r, Validating), Validate, env), Validate);
      var mem := done.w.mem.(state := Error, lastError := Some(env.validate.report));
      RecordAdds(w.disk.history, EventsAfter(4, env), With(done, mem), ValidateEvent, false, env);
    }
  }

  /** How every cycle ends. */
  lemma CycleEnds(w: World, env: Env)
    ensures Ends(w, env, EndOf(w.mem.state, env), RunCycle(w, env))
  {
    hide Record, HistoryWith, Mentions, AfterValidate;
    ValidateEnds(w, env);
    var r := AfterValidate(w, env);
    if r.outcome.Running? {
      var done := Doing(Persist(Enter(r, Pushing), Push, env), Push);
      if env.push.Broke? {
        var mem := done.w.mem.(lastError := Some(env.push.message), state := Backoff, backoff := Doubled(done.w.mem.backoff));
        RecordAdds(w.disk.history, EventsAfter(5, env), With(done, mem), PushEvent, false, env);
      } else {
        var mem := done.w.mem.(state := Idle, lastSuccess := Some(env.now), lastError := None, backoff := FIRST_BACKOFF);
        RecordAdds(w.disk.history, EventsAfter(5, env), SaveQueue(With(done, mem), [], env), PushEvent, true, env);
      }
    }
  }

  // ---------------------------------------------------------------- safe mode

  /** Nothing stops the cycle before its integration. */
  predicate IntegrationReached(env: Env) {
    && (env.gitDir ==> env.integrityOk) && !env.secrets && env.commit.Worked? && !env.offline && env.authed && env.fetch.Worked?
    && env.unsaved !! {LockedSnapshot, Committing, Fetching, Integrating}
  }

  /** The repository fails its check, or the integration is reached and fails for one of two reasons. */
  ghost predicate UnsafeRepository(env: Env) {
    || (env.gitDir && !env.integrityOk)
    || (IntegrationReached(env) && env.integrate.Unmerged?
        && (Mentions(env.integrate.message, "no merge base") || Mentions(env.integrate.message, "corrupt")))
  }

  /** A cycle that may run ends in safe mode if and only if the repository is unsafe; the caller is told so when the journal could be written. */
  lemma EntersSafeModeIff(w: World, env: Env)
    requires w.mem.state !in {SafeMode, Conflict, AwaitingUser}
    ensures RunCycle(w, env).w.mem.state == SafeMode <==> UnsafeRepository(env)
    ensures UnsafeRepository(env) ==> RunCycle(w, env).outcome == Failed(if SafeMode in env.unsaved then JournalFailed else SafeModeRequired)
  {
    hide RunCycle, Mentions, HistoryWith;
    CycleEnds(w, env);
    assert env.unsaved !! {LockedSnapshot, Committing, Fetching, Integrating} <==>
      LockedSnapshot !in env.unsaved && Committing !in env.unsaved && Fetching !in env.unsaved && Integrating !in env.unsaved;
  }

  /** An unsafe repository holds the vault in safe mode over every later run, exactly when that state could be written to the journal. */
  lemma UnsafeRepositoryHoldsIff(w: World, env: Env)
    requires w.mem.state !in {SafeMode, Conflict, AwaitingUser} && Reopens(w.disk) != SafeMode && UnsafeRepository(env)
    ensures Held(RunCycle(w, env).w, SafeMode) <==> SafeMode !in env.unsaved
  {
    hide RunCycle, Held, Reopens, UnsafeRepository;
    EntersSafeModeIff(w, env);
    SafeModeHoldsIff(w, env);
  }

  // ---------------------------------------------------------------- the other operations

  /** A tick runs a cycle, as one that is not offline, exactly when a debounce window has passed. */
  lemma TickEnds(w: World, env: Env)
    ensures var r, online := Tick(w, env), env.(offline := false);
      if w.mem.state == Debouncing && w.mem.deadline.Some? && w.mem.deadline.value <= env.now then Ends(w, online, EndOf(Debouncing, online), r)
      else r.w == w && r.trace == [] && r.outcome == Done
  {
    hide RunCycle, Ends, EndOf;
    CycleEnds(w, env.(offline := false));
  }

  /** A change in a configured and unblocked vault starts a window of 1500 milliseconds, whether or not the journal can be written: a tick
      within it does nothing, and the first one after it runs a cycle. */
  lemma ChangeThenTick(w: World, env: Env, later: Env)
    requires w.mem.state !in {Unconfigured, SafeMode, Conflict, AwaitingUser}
    ensures var c, online := FsChange(w, env), later.(offline := false);
      && c.outcome == Done && c.w.mem == w.mem.(state := Debouncing, deadline := Some(env.now + 1500))
      && (Debouncing in env.unsaved ==> c.w.disk == w.disk)
      && (Debouncing !in env.unsaved ==> c.w.disk == w.disk.(journal := JournalOf(c.w, NoOp)))
      && if later.now < env.now + 1500 then Tick(c.w, later).w == c.w && Tick(c.w, later).trace == []
         else Ends(c.w, online, EndOf(Debouncing, online), Tick(c.w, later))
  {
    hide Ends, EndOf, Tick;
    TickEnds(FsChange(w, env).w, later);
  }

  lemma WritesDoNothing(r: Run, kind: Kind, ok: bool, op: Op, env: Env)
    ensures Ops(Record(r, kind, ok, env).trace) == Ops(r.trace) && Ops(Persist(r, op, env).trace) == Ops(r.trace)
  {
    hide Ops, DiskAt, PushHistory;
    var history := PushHistory(r.w.disk.history, Event(kind, ok));
    var emptied := Empty(r, r.w.disk.(history := []), HistoryFile);
    DiskAtSnoc(r.w.disk, r.trace, Wrote(emptied.w.disk, Some(HistoryFile)));
    DiskAtSnoc(r.w.disk, emptied.trace, Wrote(r.w.disk.(history := history), None));
    DiskAtSnoc(r.w.disk, r.trace, Wrote(r.w.disk.(journal := JournalOf(r.w, op)), None));
  }

  /** What the resolution of conflicts does: it commits once the files are written, validates what was committed, pushes what is valid. */
  ghost function ResolveSteps(env: Env): nat {
    if !env.filesWritten then 0
    else if env.commit.Broke? then 1
    else if env.validate.Unchecked? || !env.validate.ok then 2
    else 3
  }

  /** The operations of a resolution, in order, and how it ends: the state tells how far it came, a result found invalid is a conflict again,
      and the disk changes at the end of a successful push only. */
  lemma ResolveEnds(w: World, env: Env)
    ensures var r, steps := Resolve(w, env), ResolveSteps(env);
      && Ops(r.trace) == [Commit, Validate, Push][..steps]
      && (steps == 0 ==> r.w == w && r.outcome == Failed(FilesFailed))
      && (steps == 1 ==> r.w == World(w.mem.(conflicts := [], state := Integrating), w.disk) && r.outcome == Failed(GitFailed(env.commit.message)))
      && (steps == 2 && env.validate.Unchecked? ==>
            r.w == World(w.mem.(conflicts := [], state := Validating), w.disk) && r.outcome == Failed(ValidationFailed(env.validate.message)))
      && (steps == 2 && env.validate.Checked? ==>
            && r.w == World(w.mem.(conflicts := [], state := Conflict, lastError := Some(env.validate.report)), w.disk)
            && r.outcome == Failed(ValidationBlocked))
      && (steps == 3 && env.push.Broke? ==>
            r.w == World(w.mem.(conflicts := [], state := Pushing), w.disk) && r.outcome == Failed(GitFailed(env.push.message)))
      && (steps == 3 && env.push.Worked? ==>
            && r.w.mem == w.mem.(conflicts := [], state := Idle, lastSuccess := Some(env.now))
            && r.w.disk.queue == w.disk.queue && r.w.disk.history == HistoryWith(w.disk.history, [Event(ResolveEvent, true)], env)
            && r.w.disk.journal == (if Idle in env.unsaved then w.disk.journal else JournalOf(World(r.w.mem, w.disk), NoOp))
            && r.outcome == if Idle in env.unsaved then Failed(JournalFailed) else Done)
  {
    hide Record, Persist, Ops, HistoryWith;
    FirstOps();
    if ResolveSteps(env) == 3 && env.push.Worked? {
      var mem := w.mem.(conflicts := [], state := Idle, lastSuccess := Some(env.now));
      ResolvePushed(Run(World(mem, w.disk), [Did(Commit), Did(Validate), Did(Push)], Running), env);
    }
  }

  lemma FirstOps()
    ensures Ops([]) == [] && Ops([Did(Commit)]) == [Commit] && Ops([Did(Commit), Did(Validate)]) == [Commit, Validate]
    ensures Ops([Did(Commit), Did(Validate), Did(Push)]) == [Commit, Validate, Push]
    ensures [] + [Did(Commit)] == [Did(Commit)] && [Did(Commit)] + [Did(Validate)] == [Did(Commit), Did(Validate)]
    ensures [Did(Commit), Did(Validate)] + [Did(Push)] == [Did(Commit), Did(Validate), Did(Push)]
  {
    var d := Disk(Journal(Idle, NoOp, None, None, None, 0, []), [], []);
    DiskAtSnoc(d, [], Did(Commit));
    DiskAtSnoc(d, [Did(Commit)], Did(Validate));
    DiskAtSnoc(d, [Did(Commit), Did(Validate)], Did(Push));
  }

  lemma ResolvePushed(r: Run, env: Env)
    requires r.outcome.Running?
    ensures var end := Stop(Persist(Record(r, ResolveEvent, true, env), NoOp, env), Done);
      && Ops(end.trace) == Ops(r.trace) && end.w.mem == r.w.mem && end.w.disk.queue == r.w.disk.queue
      && end.w.disk.history == HistoryWith(r.w.disk.history, [Event(ResolveEvent, true)], env)
      && end.w.disk.journal == (if r.w.mem.state in env.unsaved then r.w.disk.journal else JournalOf(r.w, NoOp))
      && end.outcome == if r.w.mem.state in env.unsaved then Failed(JournalFailed) else Done
  {
    hide Ops, HistoryWith, PushHistory;
    NothingAdded(r.w.disk.history, env);
    RecordAdds(r.w.disk.history, [], r, ResolveEvent, true, env);
    assert [] + [Event(ResolveEvent, true)] == [Event(ResolveEvent, true)];
    WritesDoNothing(r, ResolveEvent, true, NoOp, env);
    WritesDoNothing(Record(r, ResolveEvent, true, env), ResolveEvent, true, NoOp, env);
  }
}
