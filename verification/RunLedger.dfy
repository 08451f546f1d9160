/** How a whole execution ends and what it has spent, told from job and environment by a ledger that knows nothing of node states. */
module RunLedger {
  import opened Wrappers
  import opened Digraph
  import opened Workflow
  import opened Permissions
  import opened RunModel
  import opened RunFates
  import opened RunSafety
  import opened RunSilence

  /** What counts for how a run goes on. */
  datatype Ledger = Ledger(steps: int, tokens: int, files: int, asked: nat, cache: map<Key, HandlerOutcome>, artifacts: seq<string>, cancelled: bool)

  datatype Ending = GoesOn | OutOfBudget(budget: Budget) | Unapproved | Broken(message: string) | Stopped

  datatype Account = Account(ledger: Ledger, ending: Ending)

  function LedgerOf(run: Run): Ledger {
    Ledger(run.steps, run.tokens, run.files, |run.approvals|, run.cache, run.artifacts, run.cancelRequested)
  }

  /** A delivered result is cached, and its artifact counts as a file. */
  function Delivery(key: Key, l: Ledger, o: HandlerOutcome): Ledger
    requires o.Result?
  {
    var kept := l.(cache := l.cache[key := o]);
    if o.artifact == "" then kept else kept.(files := l.files + 1, artifacts := l.artifacts + [o.artifact])
  }

  /** The attempts at a node: first those that deliver nothing, each a step and the tokens it spent, then one that delivers or overdraws. */
  ghost function AttemptsAccount(job: Job, env: Env, id: Id, l: Ledger): Account
    requires id in job.nodes && id in job.keys
  {
    var n := FirstStop(job, env, id, l.steps, l.tokens, l.cancelled, 0);
    var spent := l.(steps := l.steps + n, tokens := TokensAfter(env, id, l.steps, l.tokens, n), cancelled := ToldToStop(env, id, l.steps, l.cancelled, n));
    if n > job.nodes[id].retryMax then
      var last := if n == 0 then "" else Complaint(ReplyTo(env, id, l.steps, n - 1).outcome);
      Account(spent, if last == "" then GoesOn else Broken(last))
    else if spent.cancelled then Account(spent, Stopped)
    else
      var reply := ReplyTo(env, id, l.steps, n);
      var more := spent.(steps := spent.steps + 1, tokens := spent.tokens + TokensOf(reply.outcome), cancelled := reply.cancels);
      if reply.outcome.Result? && !Overdraws(job, spent.tokens, reply.outcome) then Account(Delivery(job.keys[id], more, reply.outcome), GoesOn)
      else Account(more, OutOfBudget(TokenBudget))
  }

  ghost function HandlerAccount(job: Job, env: Env, id: Id, l: Ledger): Account
    requires id in job.nodes && id in job.keys
  {
    if job.keys[id] in l.cache then Account(l, GoesOn) else AttemptsAccount(job, env, id, l)
  }

  /** One node: a cancellation stops the run, a finished node costs nothing, each budget must have something left, a class that does not
      apply automatically must be approved, and a cached result costs nothing. */
  ghost function NodeAccount(job: Job, env: Env, id: Id, finished: bool, l: Ledger): Account
    requires id in job.nodes && id in job.keys
  {
    if l.cancelled then Account(l, Stopped)
    else if finished then Account(l, GoesOn)
    else if l.steps >= (if job.maxSteps == 0 then 80 else job.maxSteps) then Account(l, OutOfBudget(StepBudget))
    else if job.maxTokens.Some? && l.tokens >= job.maxTokens.value then Account(l, OutOfBudget(TokenBudget))
    else if job.maxFiles.Some? && l.files >= job.maxFiles.value then Account(l, OutOfBudget(FileBudget))
    else if Automatic(job.nodes[id].permissionClass) then HandlerAccount(job, env, id, l)
    else
      var answer := env.approve(id, l.asked);
      var asked := l.(asked := l.asked + 1, cancelled := answer.cancels);
      if answer.approved then HandlerAccount(job, env, id, asked) else Account(asked, Unapproved)
  }

  ghost function WalkAccount(job: Job, env: Env, order: seq<Id>, finished: set<Id>, l: Ledger): Account
    requires forall id :: id in order ==> id in job.nodes && id in job.keys
    decreases |order|
  {
    if order == [] then Account(l, GoesOn)
    else
      assert order[0] in order;
      var a := NodeAccount(job, env, order[0], order[0] in finished, l);
      if a.ending.GoesOn? then WalkAccount(job, env, order[1..], finished, a.ledger) else a
  }

  /** How status and error of a run show its ending. */
  ghost predicate Shows(start: Run, end: Run, e: Ending) {
    match e
    case GoesOn => end.status == start.status && end.error == start.error
    case OutOfBudget(b) => end.status == Failed && end.error == Some(OverBudget(b))
    case Unapproved => end.status == NeedsReview && end.error == start.error
    case Broken(message) => end.status == Failed && end.error == Some(HandlerError(message))
    case Stopped => end.status == Cancelled && end.error == if start.error.Some? then start.error else Some(CancelledByUser)
  }

  // ---------------------------------------------------------------- the runs follow the ledger

  lemma FumblesCounted(env: Env, id: Id, run: Run, n: nat)
    requires id in run.nodeStates
    ensures var l, r := LedgerOf(run), AfterFumbles(env, id, run, n);
      && LedgerOf(r) == l.(steps := l.steps + n, tokens := TokensAfter(env, id, l.steps, l.tokens, n), cancelled := ToldToStop(env, id, l.steps, l.cancelled, n))
      && r.status == run.status && r.error == run.error
  {
    hide Retries, TokensAfter, ReplyTo;
    NoTokensYet(env, id, run.steps, run.tokens);
  }

  lemma AttemptsFollow(job: Job, env: Env, id: Id, run: Run)
    requires id in job.nodes && id in job.keys && id in run.nodeStates && run.status == Running
    ensures var t, a := TryNode(job, env, id, run, 0, ""), AttemptsAccount(job, env, id, LedgerOf(run));
      && LedgerOf(t.run) == a.ledger
      && (t.verdict.Done? || t.verdict.PassedOver? <==> a.ending.GoesOn?)
      && (!t.verdict.GaveUp? ==> Shows(run, t.run, a.ending))
      && (t.verdict.GaveUp? <==> a.ending.Broken?) && (t.verdict.GaveUp? ==> a.ending == Broken(t.verdict.message))
      && (t.verdict.GaveUp? ==> t.run.status == Running && t.run.error == run.error)
      && id in t.run.nodeStates
  {
    hide TryNode, FirstStop, Fumbles, TokensAfter, ReplyTo, AfterFumbles, ToldToStop, Fumbled;
    AttemptsAre(job, env, id, run);
    var n := FirstStop(job, env, id, run.steps, run.tokens, run.cancelRequested, 0);
    FumblesCounted(env, id, run, n);
    FumblesBooked(env, id, run, n);
    OneOfThree(job, id, AfterFumbles(env, id, run, n).tokens, ReplyTo(env, id, run.steps, n).outcome);
  }

  lemma HandlerFollows(job: Job, env: Env, id: Id, run: Run)
    requires id in job.nodes && id in job.keys && id in run.nodeStates && run.status == Running
    ensures var v, a := Perform(job, env, id, run), HandlerAccount(job, env, id, LedgerOf(run));
      LedgerOf(v.run) == a.ledger && (v.halted <==> !a.ending.GoesOn?) && Shows(run, v.run, a.ending)
  {
    hide TryNode, AttemptsAccount;
    AttemptsFollow(job, env, id, run);
  }

  lemma VisitFollows(job: Job, env: Env, id: Id, run: Run, resume: bool)
    requires id in job.nodes && id in job.keys && run.status == Running
    ensures var v, a := VisitNode(job, env, id, run, resume), NodeAccount(job, env, id, resume && IsSucceeded(run, id), LedgerOf(run));
      LedgerOf(v.run) == a.ledger && (v.halted <==> !a.ending.GoesOn?) && Shows(run, v.run, a.ending)
  {
    hide Perform, HandlerAccount, EvaluateNodeAction, Automatic;
    AutomaticIff(job.nodes[id].permissionClass);
    if !run.cancelRequested && !(resume && IsSucceeded(run, id)) {
      var r := SetNode(run, id, NodeState(NodeRunning, AttemptsBefore(run, id), NoDetail));
      HandlerFollows(job, env, id, r);
      HandlerFollows(job, env, id, Asked(r, id, env.approve(id, |r.approvals|)));
    }
  }

  lemma {:induction false} WalkFollows(job: Job, env: Env, order: seq<Id>, run: Run, resume: bool, finished: set<Id>)
    requires Listed(job, order) && Distinct(order) && run.status == Running
    requires forall id :: id in order ==> (id in finished <==> resume && IsSucceeded(run, id))
    ensures var v, a := VisitAll(job, env, order, run, resume), WalkAccount(job, env, order, finished, LedgerOf(run));
      LedgerOf(v.run) == a.ledger && (v.halted <==> !a.ending.GoesOn?) && Shows(run, v.run, a.ending)
    decreases |order|
  {
    hide VisitNode, NodeAccount, IsSucceeded;
    if order != [] {
      var head, rest := order[0], order[1..];
      assert head in order && order == [head] + rest;
      HeadNotInTail(order);
      VisitFollows(job, env, head, run, resume);
      var v := VisitNode(job, env, head, run, resume);
      if !v.halted {
        RunsOn(job, env, head, run, resume);
        forall id | id in rest
          ensures IsSucceeded(v.run, id) <==> IsSucceeded(run, id)
        {
          OthersStay(job, env, head, run, id, resume);
        }
        WalkFollows(job, env, rest, v.run, resume, finished);
      }
    }
  }

  ghost function FinishedNodes(run: Run, resume: bool): set<Id> {
    set id | id in run.nodeStates && resume && run.nodeStates[id].status == NodeSucceeded
  }

  /** The account of an execution that may start. */
  ghost function ExecutionAccount(job: Job, env: Env, run: Run, resume: bool): Account
    requires ValidJob(job)
  {
    WalkAccount(job, env, OrderOf(job), FinishedNodes(run, resume), LedgerOf(run))
  }

  /** How an execution ends, and what it has spent and produced by then. Without an artifact, criteria are unmet. */
  lemma ExecutionEnds(job: Job, env: Env, run: Run, resume: bool)
    requires ValidJob(job) && !run.cancelRequested && run.status != Cancelled
    ensures var end, a := Execute(job, env, run, resume).run, ExecutionAccount(job, env, run, resume);
      && LedgerOf(end) == a.ledger
      && if !a.ending.GoesOn? then Shows(run, end, a.ending)
         else if job.criteria && a.ledger.artifacts == [] then end.status == NeedsReview && end.error == Some(CriteriaUnmet)
         else end.status == Succeeded && end.error == run.error
  {
    hide VisitAll, WalkAccount, OrderOf;
    OrderListed(job);
    WalkFollows(job, env, OrderOf(job), Started(run, resume), resume, FinishedNodes(run, resume));
  }

  /** An execution fails for a budget if and only if, by the account, that budget is reached before a node or overdrawn by a result. */
  lemma OverBudgetIff(job: Job, env: Env, run: Run, resume: bool, budget: Budget)
    requires ValidJob(job) && !run.cancelRequested && run.status != Cancelled
    ensures var end := Execute(job, env, run, resume).run;
      end.status == Failed && end.error == Some(OverBudget(budget)) <==>
        ExecutionAccount(job, env, run, resume).ending == OutOfBudget(budget)
  {
    hide Execute, ExecutionAccount;
    ExecutionEnds(job, env, run, resume);
  }

  /** A run that was told to stop, or that is cancelled, is executed no further: no call, no step, and the state as it was. */
  lemma CancelledExecution(job: Job, env: Env, run: Run, resume: bool)
    requires ValidJob(job) && (run.cancelRequested || run.status == Cancelled)
    ensures var s := Execute(job, env, run, resume);
      && s.calls == [] && LedgerOf(s.run) == LedgerOf(run).(cancelled := true) && s.run.nodeStates == run.nodeStates
      && s.run.status == (if run.status in {Succeeded, Failed} then run.status else Cancelled)
      && s.run.error == (if run.status in {Succeeded, Failed, Cancelled} || run.error.Some? then run.error else Some(CancelledByUser))
  {
    hide VisitAll;
  }
}
