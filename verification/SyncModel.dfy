/** The sync state machine of a vault: what is in memory, what is on disk, and what each operation does to both.
    The outcome of every git call, validation and file write is a parameter. */
module SyncModel {
  import opened Wrappers

  datatype State =
    | Unconfigured | Authenticating | ReadyLocal | Idle | Debouncing | LockedSnapshot | Committing | Fetching | Integrating
    | Validating | Pushing | Conflict | AwaitingUser | OfflineQueued | Backoff | SafeMode | Error

  /** What the journal names as being under way. */
  datatype Op = NoOp | Commit | Fetch | Integrate | Validate | Push

  datatype Journal = Journal(state: State, op: Op, lastError: Option<string>, lastSuccess: Option<int>, remote: Option<string>,
                             queueLen: nat, notes: seq<Op>)

  datatype Item = Item(id: string, summary: string, paths: seq<string>)

  datatype Kind = PreflightEvent | CommitEvent | FetchEvent | IntegrateEvent | ConflictEvent | ValidateEvent | PushEvent | ResolveEvent

  datatype Event = Event(kind: Kind, ok: bool)

  datatype Disk = Disk(journal: Journal, queue: seq<Item>, history: seq<Event>)

  datatype Memory = Memory(state: State, conflicts: seq<string>, preflight: seq<string>, notes: seq<Op>, remote: Option<string>,
                           lastError: Option<string>, lastSuccess: Option<int>, backoff: nat, deadline: Option<int>)

  datatype World = World(mem: Memory, disk: Disk)

  datatype Call = Worked | Broke(message: string)

  datatype Integration = Merged(clean: bool, conflicts: seq<string>, files: seq<string>) | Unmerged(message: string)

  datatype Validation = Checked(ok: bool, report: string) | Unchecked(message: string)

  /** A file that is written in place is emptied first: the write succeeds, fails before that, or fails after it. What is left of a file
      then reads as empty, because no proper beginning of it is a whole JSON document. */
  datatype Writing = Stored | Refused | Torn

  datatype File = QueueFile | HistoryFile

  /** All that one call meets: outcomes of git and validation, the states whose journal write fails, the history events whose
      write is refused or torn, and how the queue is written. In one call a state is journaled, and a kind recorded, at most once. */
  datatype Env = Env(now: int, summary: string, itemId: string, offline: bool, gitDir: bool, integrityOk: bool,
                     candidates: seq<string>, warnings: seq<string>, secrets: bool, commit: Call, authed: bool, fetch: Call,
                     integrate: Integration, validate: Validation, push: Call, unsaved: set<State>, lostEvents: set<Kind>,
                     tornEvents: set<Kind>, queueWrite: Writing, filesWritten: bool)

  datatype SyncError =
    | SafeModeRequired | UnresolvedConflicts | SecretsBlocked | GitFailed(message: string) | ValidationFailed(message: string)
    | ValidationBlocked | JournalFailed | FilesFailed

  datatype Outcome = Running | Done | Failed(error: SyncError)

  /** What can be seen from outside while a call runs: the disk after each write, the disk while the queue or the history is emptied to be
      rewritten in place, and each operation as it starts. The journal is replaced as a whole. */
  datatype Moment = Wrote(disk: Disk, emptied: Option<File>) | Did(op: Op)

  datatype Run = Run(w: World, trace: seq<Moment>, outcome: Outcome)

  const FIRST_BACKOFF: nat := 2000
  const LAST_BACKOFF: nat := 300000
  const HISTORY_CAP: nat := 200
  const DEBOUNCE: nat := 1500

  // ---------------------------------------------------------------- queue and history

  /** The last events, as many as are kept. */
  function Capped(events: seq<Event>): seq<Event> {
    if |events| > HISTORY_CAP then events[|events| - HISTORY_CAP..] else events
  }

  function PushHistory(history: seq<Event>, e: Event): seq<Event> {
    Capped(history + [e])
  }

  predicate SameCommit(i: Item, summary: string, paths: seq<string>) {
    i.summary == summary && i.paths == paths
  }

  function IsQueued(queue: seq<Item>, summary: string, paths: seq<string>): bool {
    exists i :: 0 <= i < |queue| && SameCommit(queue[i], summary, paths)
  }

  function Enqueue(queue: seq<Item>, item: Item): seq<Item> {
    if IsQueued(queue, item.summary, item.paths) then queue else queue + [item]
  }

  // ---------------------------------------------------------------- single effects

  function Start(w: World): Run {
    Run(w, [], Running)
  }

  function Write(r: Run, d: Disk): Run {
    Run(World(r.w.mem, d), r.trace + [Wrote(d, None)], r.outcome)
  }

  function Empty(r: Run, d: Disk, file: File): Run {
    Run(World(r.w.mem, d), r.trace + [Wrote(d, Some(file))], r.outcome)
  }

  function Doing(r: Run, op: Op): Run {
    Run(r.w, r.trace + [Did(op)], r.outcome)
  }

  function With(r: Run, mem: Memory): Run {
    Run(World(mem, r.w.disk), r.trace, r.outcome)
  }

  function Enter(r: Run, s: State): Run {
    With(r, r.w.mem.(state := s))
  }

  /** Ends a call that is still running. */
  function Stop(r: Run, o: Outcome): Run {
    if r.outcome.Running? then Run(r.w, r.trace, o) else r
  }

  function Record(r: Run, kind: Kind, ok: bool, env: Env): Run {
    if kind in env.lostEvents then r
    else
      var history, emptied := PushHistory(r.w.disk.history, Event(kind, ok)), Empty(r, r.w.disk.(history := []), HistoryFile);
      if kind in env.tornEvents then emptied else Write(emptied, r.w.disk.(history := history))
  }

  function JournalOf(w: World, op: Op): Journal {
    Journal(w.mem.state, op, w.mem.lastError, w.mem.lastSuccess, w.mem.remote, |w.disk.queue|, w.mem.notes)
  }

  /** Writes the journal; a failed write leaves the old one and ends the call. */
  function Persist(r: Run, op: Op, env: Env): Run {
    if r.w.mem.state in env.unsaved then Stop(r, Failed(JournalFailed))
    else Write(r, r.w.disk.(journal := JournalOf(r.w, op)))
  }

  function SaveQueue(r: Run, queue: seq<Item>, env: Env): Run {
    var emptied := Empty(r, r.w.disk.(queue := []), QueueFile);
    match env.queueWrite
    case Refused => r
    case Torn => emptied
    case Stored => Write(emptied, r.w.disk.(queue := queue))
  }

  // ---------------------------------------------------------------- the phases of a cycle

  function PutOff(r: Run, env: Env): Run {
    var item := Item(env.itemId, env.summary, env.candidates);
    var queued := if IsQueued(r.w.disk.queue, env.summary, env.candidates) then r else SaveQueue(r, Enqueue(r.w.disk.queue, item), env);
    Stop(Persist(Enter(queued, OfflineQueued), NoOp, env), Done)
  }

  function GiveUp(r: Run, s: State, message: string, error: SyncError, env: Env): Run {
    Stop(Persist(With(r, r.w.mem.(state := s, lastError := Some(message))), NoOp, env), Failed(error))
  }

  function Doubled(backoff: nat): nat {
    if backoff * 2 > LAST_BACKOFF then LAST_BACKOFF else backoff * 2
  }

  function BackOff(r: Run, message: string, kind: Kind, env: Env): Run {
    var mem := r.w.mem.(lastError := Some(message), state := Backoff, backoff := Doubled(r.w.mem.backoff));
    Stop(Persist(Record(With(r, mem), kind, false, env), NoOp, env), Failed(GitFailed(message)))
  }

  function CheckPhase(r: Run, env: Env): Run {
    if env.gitDir && !env.integrityOk then GiveUp(r, SafeMode, "gitoxide open failed - safe mode", SafeModeRequired, env)
    else
      var seen := With(r, r.w.mem.(preflight := env.warnings));
      if env.secrets then
        var mem := seen.w.mem.(state := Error, lastError := Some("Secret/credential pattern in staged content"));
        Stop(Persist(Record(With(seen, mem), PreflightEvent, false, env), NoOp, env), Failed(SecretsBlocked))
      else Persist(Enter(seen, LockedSnapshot), NoOp, env)
  }

  function CommitPhase(r: Run, env: Env): Run {
    var named := Persist(Enter(r, Committing), Commit, env);
    if !named.outcome.Running? then named
    else
      var done := Doing(named, Commit);
      match env.commit
      case Worked =>
        var noted := Record(done, CommitEvent, true, env);
        if env.offline || !env.authed then PutOff(noted, env) else noted
      case Broke(message) =>
        if env.offline then PutOff(done, env) else GiveUp(done, Error, message, GitFailed(message), env)
  }

  function FetchPhase(r: Run, env: Env): Run {
    var named := Persist(Enter(r, Fetching), Fetch, env);
    if !named.outcome.Running? then named
    else
      var done := Doing(named, Fetch);
      match env.fetch
      case Worked => done
      case Broke(message) => BackOff(done, message, FetchEvent, env)
  }

  predicate Contains(s: string, t: string) {
    exists i :: 0 <= i <= |s| && t <= s[i..]
  }

  predicate Unsafe(message: string) {
    Contains(message, "no merge base") || Contains(message, "corrupt")
  }

  function IntegratePhase(r: Run, env: Env): Run {
    var named := Persist(Enter(r, Integrating), Integrate, env);
    if !named.outcome.Running? then named
    else
      var done := Doing(named, Integrate);
      match env.integrate
      case Unmerged(message) =>
        if Unsafe(message) then GiveUp(done, SafeMode, message, SafeModeRequired, env)
        else GiveUp(done, Error, message, GitFailed(message), env)
      case Merged(clean, conflicts, files) =>
        var noted := if files == [] then done else Record(done, IntegrateEvent, true, env);
        if clean then noted
        else
          var held := Persist(With(noted, noted.w.mem.(conflicts := conflicts, state := Conflict)), NoOp, env);
          if held.outcome.Running? then Stop(Record(held, ConflictEvent, false, env), Failed(UnresolvedConflicts)) else held
  }

  function ValidatePhase(r: Run, env: Env): Run {
    var named := Persist(Enter(r, Validating), Validate, env);
    if !named.outcome.Running? then named
    else
      var done := Doing(named, Validate);
      match env.validate
      case Unchecked(message) => Stop(done, Failed(ValidationFailed(message)))
      case Checked(ok, report) =>
        if ok then done
        else
          var mem := done.w.mem.(state := Error, lastError := Some(report));
          Stop(Persist(Record(With(done, mem), ValidateEvent, false, env), NoOp, env), Failed(ValidationBlocked))
  }

  function PushPhase(r: Run, env: Env): Run {
    var named := Persist(Enter(r, Pushing), Push, env);
    if !named.outcome.Running? then named
    else
      var done := Doing(named, Push);
      match env.push
      case Worked =>
        var mem := done.w.mem.(state := Idle, lastSuccess := Some(env.now), lastError := None, backoff := FIRST_BACKOFF);
        Stop(Persist(Record(SaveQueue(With(done, mem), [], env), PushEvent, true, env), NoOp, env), Done)
      case Broke(message) => BackOff(done, message, PushEvent, env)
  }

  predicate Blocked(s: State) {
    s == SafeMode || s == Conflict || s == AwaitingUser
  }

  function Refusal(s: State): SyncError {
    if s == SafeMode then SafeModeRequired else UnresolvedConflicts
  }

  // The call up to the end of each phase; a phase runs only while the call is still running.
  function AfterCheck(w: World, env: Env): Run {
    if Blocked(w.mem.state) then Stop(Start(w), Failed(Refusal(w.mem.state))) else CheckPhase(Start(w), env)
  }

  function AfterCommit(w: World, env: Env): Run {
    var r := AfterCheck(w, env);
    if r.outcome.Running? then CommitPhase(r, env) else r
  }

  function AfterFetch(w: World, env: Env): Run {
    var r := AfterCommit(w, env);
    if r.outcome.Running? then FetchPhase(r, env) else r
  }

  function AfterIntegrate(w: World, env: Env): Run {
    var r := AfterFetch(w, env);
    if r.outcome.Running? then IntegratePhase(r, env) else r
  }

  function AfterValidate(w: World, env: Env): Run {
    var r := AfterIntegrate(w, env);
    if r.outcome.Running? then ValidatePhase(r, env) else r
  }

  /** One full cycle: check, commit, fetch, integrate, validate, push. */
  function RunCycle(w: World, env: Env): Run {
    var r := AfterValidate(w, env);
    if r.outcome.Running? then PushPhase(r, env) else r
  }

  // ---------------------------------------------------------------- the other operations

  /** A change in the vault starts the debounce window; a failed journal write is ignored. */
  function FsChange(w: World, env: Env): Run {
    if w.mem.state == Unconfigured || Blocked(w.mem.state) then Stop(Start(w), Done)
    else
      var mem := w.mem.(state := Debouncing, deadline := Some(env.now + DEBOUNCE));
      var r := Persist(With(Start(w), mem), NoOp, env);
      Run(r.w, r.trace, Done)
  }

  predicate IsDue(mem: Memory, env: Env) {
    mem.state == Debouncing && mem.deadline.Some? && env.now >= mem.deadline.value
  }

  function Tick(w: World, env: Env): Run {
    if IsDue(w.mem, env) then RunCycle(w, env.(offline := false)) else Stop(Start(w), Done)
  }

  /** The user's choices have been written into the vault; commit, validate and push them. Nothing is journaled before the end. */
  function Resolve(w: World, env: Env): Run {
    if !env.filesWritten then Stop(Start(w), Failed(FilesFailed))
    else
      var r := Doing(With(Start(w), w.mem.(conflicts := [], state := Integrating)), Commit);
      match env.commit
      case Broke(message) => Stop(r, Failed(GitFailed(message)))
      case Worked =>
        var v := Doing(Enter(r, Validating), Validate);
        match env.validate
        case Unchecked(message) => Stop(v, Failed(ValidationFailed(message)))
        case Checked(ok, report) =>
          if !ok then Stop(With(v, v.w.mem.(state := Conflict, lastError := Some(report))), Failed(ValidationBlocked))
          else
            var p := Doing(Enter(v, Pushing), Push);
            match env.push
            case Broke(message) => Stop(p, Failed(GitFailed(message)))
            case Worked =>
              var idle := With(p, p.w.mem.(state := Idle, lastSuccess := Some(env.now)));
              Stop(Persist(Record(idle, ResolveEvent, true, env), NoOp, env), Done)
  }

  /** The state to resume in when an operation was under way. */
  function Resumed(s: State, op: Op): State {
    match op
    case NoOp => s
    case Commit => Idle
    case Fetch => Backoff
    case Integrate => Conflict
    case Validate => Validating
    case Push => Backoff
  }

  function RecoveryNotes(op: Op): seq<Op> {
    if op == NoOp then [] else [op]
  }

  function Recovered(j: Journal): Journal {
    j.(state := Resumed(j.state, j.op), op := NoOp, notes := j.notes + RecoveryNotes(j.op))
  }

  /** Opening a vault: recover the journal, save it, and start from what it says. */
  function Open(d: Disk): World {
    var j := Recovered(d.journal);
    World(Memory(j.state, [], [], RecoveryNotes(d.journal.op), j.remote, j.lastError, j.lastSuccess, FIRST_BACKOFF, None), d.(journal := j))
  }
}
