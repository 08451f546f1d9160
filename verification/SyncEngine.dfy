/** The sync engine as an object: its fields are updated step by step, its files by the store, and every method does exactly what
    the state machine says. */
module SyncEngine {
  import opened Wrappers
  import M = SyncModel
  import opened SyncModel

  /** The three files kept beside a vault. */
  class Store {
    var journal: Journal
    var queue: seq<Item>
    var history: seq<Event>
    /** What could be seen of the current call so far. */
    ghost var trace: seq<Moment>

    constructor (d: Disk)
      ensures Contents() == d && trace == []
    {
      journal, queue, history, trace := d.journal, d.queue, d.history, [];
    }

    function Contents(): Disk
      reads this
    {
      Disk(journal, queue, history)
    }

    /** The current call has had exactly the effects of this run. */
    ghost predicate At(r: Run)
      reads this
    {
      Contents() == r.w.disk && trace == r.trace
    }

    ghost method Begin(op: Op, r: Run)
      requires At(r)
      modifies this`trace
      ensures At(Doing(r, op))
    {
      trace := trace + [Did(op)];
    }

    method SaveJournal(j: Journal, saved: bool, ghost r: Run)
      requires At(r)
      modifies this
      ensures At(if saved then Write(r, r.w.disk.(journal := j)) else r)
    {
      if saved {
        journal := j;
        trace := trace + [Wrote(Contents(), None)];
      }
    }

    /** Appends an event and keeps the last two hundred. */
    method PushHistory(kind: Kind, ok: bool, env: Env, ghost r: Run)
      requires At(r)
      modifies this
      ensures At(Record(r, kind, ok, env))
    {
      var events := history + [Event(kind, ok)];
      if |events| > HISTORY_CAP {
        var skip := |events| - HISTORY_CAP;
        events := events[skip..];
      }
      if kind !in env.lostEvents {
        history := [];
        trace := trace + [Wrote(Contents(), Some(HistoryFile))];
        if kind !in env.tornEvents {
          history := events;
          trace := trace + [Wrote(Contents(), None)];
        }
      }
    }

    method FindQueued(summary: string, paths: seq<string>) returns (found: Option<Item>)
      ensures found.Some? <==> IsQueued(queue, summary, paths)
      ensures found.Some? ==> found.value in queue && SameCommit(found.value, summary, paths)
    {
      for i := 0 to |queue|
        invariant forall j :: 0 <= j < i ==> !SameCommit(queue[j], summary, paths)
      {
        if queue[i].summary == summary && queue[i].paths == paths {
          assert SameCommit(queue[i], summary, paths);
          return Some(queue[i]);
        }
      }
      found := None;
    }

    /** Queues a commit unless it is queued already; returns the queued one. */
    method Enqueue(env: Env, ghost r: Run) returns (item: Item)
      requires At(r)
      modifies this
      ensures At(if IsQueued(r.w.disk.queue, env.summary, env.candidates) then r
                 else SaveQueue(r, M.Enqueue(r.w.disk.queue, Item(env.itemId, env.summary, env.candidates)), env))
      ensures if IsQueued(r.w.disk.queue, env.summary, env.candidates)
              then item in r.w.disk.queue && SameCommit(item, env.summary, env.candidates)
              else item == Item(env.itemId, env.summary, env.candidates)
    {
      var found := FindQueued(env.summary, env.candidates);
      if found.Some? {
        return found.value;
      }
      item := Item(env.itemId, env.summary, env.candidates);
      WriteQueue(queue + [item], env, r);
    }

    /** Rewrites the queue file in place. */
    method WriteQueue(items: seq<Item>, env: Env, ghost r: Run)
      requires At(r)
      modifies this
      ensures At(SaveQueue(r, items, env))
    {
      if env.queueWrite != Refused {
        queue := [];
        trace := trace + [Wrote(Contents(), Some(QueueFile))];
        if env.queueWrite == Stored {
          queue := items;
          trace := trace + [Wrote(Contents(), None)];
        }
      }
    }

    /** Empties the queue and returns what was on it. */
    method DrainQueue(env: Env, ghost r: Run) returns (items: seq<Item>)
      requires At(r)
      modifies this
      ensures At(SaveQueue(r, [], env)) && items == r.w.disk.queue
    {
      items := queue;
      WriteQueue([], env, r);
    }

    /** Maps an interrupted operation to a state to resume in, and notes it. */
    method RecoverFromInterrupt() returns (notes: seq<Op>)
      modifies this`journal
      ensures journal == Recovered(old(journal)) && notes == RecoveryNotes(old(journal.op))
    {
      notes := [];
      match journal.op {
        case NoOp =>
        case Commit =>
          notes := [Commit];
          journal := journal.(state := Idle, op := NoOp);
        case Fetch =>
          notes := [Fetch];
          journal := journal.(state := Backoff, op := NoOp);
        case Integrate =>
          notes := [Integrate];
          journal := journal.(state := Conflict, op := NoOp);
        case Validate =>
          notes := [Validate];
          journal := journal.(state := Validating, op := NoOp);
        case Push =>
          notes := [Push];
          journal := journal.(state := Backoff, op := NoOp);
      }
      journal := journal.(notes := journal.notes + notes);
    }
  }

  class Engine {
    const store: Store
    var state: State
    var conflicts: seq<string>
    var preflight: seq<string>
    var notes: seq<Op>
    var remote: Option<string>
    var lastError: Option<string>
    var lastSuccess: Option<int>
    var backoff: nat
    var deadline: Option<int>

    /** Opens a vault after a crash or a normal end. */
    constructor (s: Store)
      modifies s
      ensures store == s && Now() == M.Open(old(s.Contents())) && s.trace == [Wrote(s.Contents(), None)]
    {
      var found := s.RecoverFromInterrupt();
      s.trace := [Wrote(s.Contents(), None)];
      store := s;
      state, notes, remote, lastError, lastSuccess := s.journal.state, found, s.journal.remote, s.journal.lastError, s.journal.lastSuccess;
      conflicts, preflight, backoff, deadline := [], [], FIRST_BACKOFF, None;
    }

    function Memory(): M.Memory
      reads this
    {
      M.Memory(state, conflicts, preflight, notes, remote, lastError, lastSuccess, backoff, deadline)
    }

    function Now(): World
      reads this, store
    {
      World(Memory(), store.Contents())
    }

    /** Memory and files are where this run has brought them. */
    ghost predicate At(r: Run)
      reads this, store
    {
      Memory() == r.w.mem && store.At(r)
    }

    method Persist(op: Op, env: Env, ghost r: Run) returns (outcome: Outcome)
      requires At(r) && r.outcome.Running?
      modifies store
      ensures At(M.Persist(r, op, env)) && outcome == M.Persist(r, op, env).outcome
    {
      var j := Journal(state, op, lastError, lastSuccess, remote, |store.queue|, notes);
      store.SaveJournal(j, state !in env.unsaved, r);
      outcome := if state in env.unsaved then Failed(JournalFailed) else Running;
    }

    /** Moves to a state and names the operation in the journal before starting it. */
    method EnterPhase(s: State, op: Op, env: Env, ghost r: Run) returns (outcome: Outcome)
      requires At(r) && r.outcome.Running?
      modifies this`state, store
      ensures var named := M.Persist(Enter(r, s), op, env);
        outcome == named.outcome && At(if outcome.Running? then Doing(named, op) else named)
    {
      state := s;
      outcome := Persist(op, env, Enter(r, s));
      if outcome.Running? {
        store.Begin(op, M.Persist(Enter(r, s), op, env));
      }
    }

    method PutOff(env: Env, ghost r: Run) returns (outcome: Outcome)
      requires At(r) && r.outcome.Running?
      modifies this`state, store
      ensures At(M.PutOff(r, env)) && outcome == M.PutOff(r, env).outcome
    {
      hide IsQueued, M.Enqueue;
      ghost var item := Item(env.itemId, env.summary, env.candidates);
      ghost var q := if IsQueued(r.w.disk.queue, env.summary, env.candidates) then r else SaveQueue(r, M.Enqueue(r.w.disk.queue, item), env);
      var _ := store.Enqueue(env, r);
      state := OfflineQueued;
      outcome := Persist(NoOp, env, Enter(q, OfflineQueued));
      if outcome.Running? {
        outcome := Done;
      }
    }

    method GiveUp(s: State, message: string, error: SyncError, env: Env, ghost r: Run) returns (outcome: Outcome)
      requires At(r) && r.outcome.Running?
      modifies this`state, this`lastError, store
      ensures At(M.GiveUp(r, s, message, error, env)) && outcome == M.GiveUp(r, s, message, error, env).outcome
    {
      state := s;
      lastError := Some(message);
      outcome := Persist(NoOp, env, With(r, r.w.mem.(state := s, lastError := Some(message))));
      if outcome.Running? {
        outcome := Failed(error);
      }
    }

    /** Records an event, persists, and ends the call with an error. */
    method EndWith(kind: Kind, error: SyncError, env: Env, ghost r: Run) returns (outcome: Outcome)
      requires At(r) && r.outcome.Running?
      modifies store
      ensures var end := Stop(M.Persist(Record(r, kind, false, env), NoOp, env), Failed(error)); At(end) && outcome == end.outcome
    {
      store.PushHistory(kind, false, env, r);
      outcome := Persist(NoOp, env, Record(r, kind, false, env));
      if outcome.Running? {
        outcome := Failed(error);
      }
    }

    method BackOff(message: string, kind: Kind, env: Env, ghost r: Run) returns (outcome: Outcome)
      requires At(r) && r.outcome.Running?
      modifies this`state, this`lastError, this`backoff, store
      ensures At(M.BackOff(r, message, kind, env)) && outcome == M.BackOff(r, message, kind, env).outcome
    {
      hide Record, M.Persist;
      lastError := Some(message);
      state := Backoff;
      backoff := if backoff * 2 > LAST_BACKOFF then LAST_BACKOFF else backoff * 2;
      ghost var mem := r.w.mem.(lastError := Some(message), state := Backoff, backoff := Doubled(r.w.mem.backoff));
      outcome := EndWith(kind, GitFailed(message), env, With(r, mem));
    }

    method CheckPhase(env: Env, ghost r: Run) returns (outcome: Outcome)
      requires At(r) && r.outcome.Running?
      modifies this, store
      ensures At(M.CheckPhase(r, env)) && outcome == M.CheckPhase(r, env).outcome
    {
      hide Record, M.Persist, M.GiveUp;
      if env.gitDir && !env.integrityOk {
        outcome := GiveUp(SafeMode, "gitoxide open failed - safe mode", SafeModeRequired, env, r);
        return;
      }
      preflight := env.warnings;
      ghost var seen := With(r, r.w.mem.(preflight := env.warnings));
      if env.secrets {
        state := Error;
        lastError := Some("Secret/credential pattern in staged content");
        outcome := EndWith(PreflightEvent, SecretsBlocked, env, With(seen, seen.w.mem.(state := Error, lastError := lastError)));
        return;
      }
      state := LockedSnapshot;
      outcome := Persist(NoOp, env, Enter(seen, LockedSnapshot));
    }

    method CommitPhase(env: Env, ghost r: Run) returns (outcome: Outcome)
      requires At(r) && r.outcome.Running?
      modifies this, store
      ensures At(M.CommitPhase(r, env)) && outcome == M.CommitPhase(r, env).outcome
    {
      hide Record, M.Persist, M.GiveUp, M.PutOff;
      outcome := EnterPhase(Committing, Commit, env, r);
      if !outcome.Running? {
        return;
      }
      ghost var done := Doing(M.Persist(Enter(r, Committing), Commit, env), Commit);
      match env.commit {
        case Worked =>
          store.PushHistory(CommitEvent, true, env, done);
          ghost var noted := Record(done, CommitEvent, true, env);
          RecordRuns(done, CommitEvent, true, env);
          if env.offline || !env.authed {
            outcome := PutOff(env, noted);
          }
        case Broke(message) =>
          if env.offline {
            outcome := PutOff(env, done);
          } else {
            outcome := GiveUp(Error, message, GitFailed(message), env, done);
          }
      }
    }

    method FetchPhase(env: Env, ghost r: Run) returns (outcome: Outcome)
      requires At(r) && r.outcome.Running?
      modifies this, store
      ensures At(M.FetchPhase(r, env)) && outcome == M.FetchPhase(r, env).outcome
    {
      hide M.Persist, M.BackOff;
      outcome := EnterPhase(Fetching, Fetch, env, r);
      if outcome.Running? && env.fetch.Broke? {
        outcome := BackOff(env.fetch.message, FetchEvent, env, Doing(M.Persist(Enter(r, Fetching), Fetch, env), Fetch));
      }
    }

    method IntegratePhase(env: Env, ghost r: Run) returns (outcome: Outcome)
      requires At(r) && r.outcome.Running?
      modifies this, store
      ensures At(M.IntegratePhase(r, env)) && outcome == M.IntegratePhase(r, env).outcome
    {
      hide Record, M.Persist, M.GiveUp, Contains;
      outcome := EnterPhase(Integrating, Integrate, env, r);
      if !outcome.Running? {
        return;
      }
      ghost var done := Doing(M.Persist(Enter(r, Integrating), Integrate, env), Integrate);
      match env.integrate {
        case Unmerged(message) =>
          if Contains(message, "no merge base") || Contains(message, "corrupt") {
            outcome := GiveUp(SafeMode, message, SafeModeRequired, env, done);
          } else {
            outcome := GiveUp(Error, message, GitFailed(message), env, done);
          }
        case Merged(clean, found, files) =>
          ghost var noted := if files == [] then done else Record(done, IntegrateEvent, true, env);
          RecordRuns(done, IntegrateEvent, true, env);
          if files != [] {
            store.PushHistory(IntegrateEvent, true, env, done);
          }
          if !clean {
            outcome := Hold(found, env, noted);
          }
      }
    }

    /** Conflicts are kept for the user; the journal is written before the history. */
    method Hold(found: seq<string>, env: Env, ghost r: Run) returns (outcome: Outcome)
      requires At(r) && r.outcome.Running?
      modifies this`conflicts, this`state, store
      ensures var held := M.Persist(With(r, r.w.mem.(conflicts := found, state := Conflict)), NoOp, env);
        var end := if held.outcome.Running? then Stop(Record(held, ConflictEvent, false, env), Failed(UnresolvedConflicts)) else held;
        At(end) && outcome == end.outcome
    {
      hide Record, M.Persist;
      conflicts := found;
      state := Conflict;
      outcome := Persist(NoOp, env, With(r, r.w.mem.(conflicts := found, state := Conflict)));
      if outcome.Running? {
        ghost var held := M.Persist(With(r, r.w.mem.(conflicts := found, state := Conflict)), NoOp, env);
        store.PushHistory(ConflictEvent, false, env, held);
        RecordRuns(held, ConflictEvent, false, env);
        outcome := Failed(UnresolvedConflicts);
      }
    }

    method ValidatePhase(env: Env, ghost r: Run) returns (outcome: Outcome)
      requires At(r) && r.outcome.Running?
      modifies this, store
      ensures At(M.ValidatePhase(r, env)) && outcome == M.ValidatePhase(r, env).outcome
    {
      hide Record, M.Persist;
      outcome := EnterPhase(Validating, Validate, env, r);
      if !outcome.Running? {
        return;
      }
      ghost var done := Doing(M.Persist(Enter(r, Validating), Validate, env), Validate);
      match env.validate {
        case Unchecked(message) =>
          outcome := Failed(ValidationFailed(message));
        case Checked(ok, report) =>
          if !ok {
            state := Error;
            lastError := Some(report);
            outcome := EndWith(ValidateEvent, ValidationBlocked, env, With(done, done.w.mem.(state := Error, lastError := Some(report))));
          }
      }
    }

    method PushPhase(env: Env, ghost r: Run) returns (outcome: Outcome)
      requires At(r) && r.outcome.Running?
      modifies this, store
      ensures At(M.PushPhase(r, env)) && outcome == M.PushPhase(r, env).outcome
    {
      hide Record, M.Persist, M.BackOff, SaveQueue;
      outcome := EnterPhase(Pushing, Push, env, r);
      if !outcome.Running? {
        return;
      }
      ghost var done := Doing(M.Persist(Enter(r, Pushing), Push, env), Push);
      match env.push {
        case Worked =>
          state := Idle;
          lastSuccess := Some(env.now);
          lastError := None;
          backoff := FIRST_BACKOFF;
          ghost var idle := With(done, done.w.mem.(state := Idle, lastSuccess := Some(env.now), lastError := None, backoff := FIRST_BACKOFF));
          SaveQueueRuns(idle, env);
          var _ := store.DrainQueue(env, idle);
          ghost var drained := SaveQueue(idle, [], env);
          store.PushHistory(PushEvent, true, env, drained);
          RecordRuns(drained, PushEvent, true, env);
          outcome := Persist(NoOp, env, Record(drained, PushEvent, true, env));
          if outcome.Running? {
            outcome := Done;
          }
        case Broke(message) =>
          outcome := BackOff(message, PushEvent, env, done);
      }
    }

    /** One full cycle. */
    method RunCycle(env: Env) returns (outcome: Outcome)
      modifies this, store
      ensures var r := M.RunCycle(old(Now()), env); At(r) && outcome == r.outcome
    {
      hide M.CheckPhase, M.CommitPhase, M.FetchPhase, M.IntegratePhase, M.ValidatePhase, M.PushPhase;
      ghost var w := Now();
      store.trace := [];
      if state == SafeMode {
        return Failed(SafeModeRequired);
      }
      if state == Conflict || state == AwaitingUser {
        return Failed(UnresolvedConflicts);
      }
      outcome := CheckPhase(env, Start(w));
      if outcome.Running? {
        outcome := CommitPhase(env, AfterCheck(w, env));
        if outcome.Running? {
          outcome := FetchPhase(env, AfterCommit(w, env));
          if outcome.Running? {
            outcome := IntegratePhase(env, AfterFetch(w, env));
            if outcome.Running? {
              outcome := ValidatePhase(env, AfterIntegrate(w, env));
              if outcome.Running? {
                outcome := PushPhase(env, AfterValidate(w, env));
              }
            }
          }
        }
      }
    }

    /** A change in the vault; a failed journal write is ignored. */
    method OnFsChange(env: Env)
      modifies this, store
      ensures At(FsChange(old(Now()), env))
    {
      hide M.Persist;
      ghost var w := Now();
      store.trace := [];
      if state == Unconfigured || state == Conflict || state == AwaitingUser || state == SafeMode {
        return;
      }
      state := Debouncing;
      deadline := Some(env.now + DEBOUNCE);
      var _ := Persist(NoOp, env, With(Start(w), w.mem.(state := Debouncing, deadline := Some(env.now + DEBOUNCE))));
    }

    /** The clock has moved on. */
    method OnTick(env: Env) returns (outcome: Outcome)
      modifies this, store
      ensures var r := Tick(old(Now()), env); At(r) && outcome == r.outcome
    {
      hide M.RunCycle;
      if state == Debouncing && deadline.Some? && env.now >= deadline.value {
        outcome := RunCycle(env.(offline := false));
      } else {
        store.trace := [];
        outcome := Done;
      }
    }

    /** The user has chosen how to resolve the conflicts. */
    method ResolveConflicts(env: Env) returns (outcome: Outcome)
      modifies this, store
      ensures var r := Resolve(old(Now()), env); At(r) && outcome == r.outcome
    {
      hide Record, M.Persist;
      ghost var w := Now();
      store.trace := [];
      if !env.filesWritten {
        return Failed(FilesFailed);
      }
      conflicts := [];
      state := Integrating;
      ghost var start := With(Start(w), w.mem.(conflicts := [], state := Integrating));
      store.Begin(Commit, start);
      if env.commit.Broke? {
        return Failed(GitFailed(env.commit.message));
      }
      state := Validating;
      ghost var v := Enter(Doing(start, Commit), Validating);
      store.Begin(Validate, v);
      match env.validate {
        case Unchecked(message) =>
          return Failed(ValidationFailed(message));
        case Checked(ok, report) =>
          if !ok {
            state := Conflict;
            lastError := Some(report);
            return Failed(ValidationBlocked);
          }
      }
      state := Pushing;
      ghost var p := Enter(Doing(v, Validate), Pushing);
      store.Begin(Push, p);
      if env.push.Broke? {
        return Failed(GitFailed(env.push.message));
      }
      state := Idle;
      lastSuccess := Some(env.now);
      ghost var idle := With(Doing(p, Push), p.w.mem.(state := Idle, lastSuccess := Some(env.now)));
      store.PushHistory(ResolveEvent, true, env, idle);
      RecordRuns(idle, ResolveEvent, true, env);
      outcome := Persist(NoOp, env, Record(idle, ResolveEvent, true, env));
      if outcome.Running? {
        outcome := Done;
      }
    }
  }

  lemma RecordRuns(r: Run, kind: Kind, ok: bool, env: Env)
    ensures Record(r, kind, ok, env).outcome == r.outcome && Record(r, kind, ok, env).w.mem == r.w.mem
  {
  }

  lemma SaveQueueRuns(r: Run, env: Env)
    ensures SaveQueue(r, [], env).outcome == r.outcome && SaveQueue(r, [], env).w.mem == r.w.mem
  {
  }
}
