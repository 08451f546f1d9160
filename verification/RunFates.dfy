/** How the attempts at a node and a whole execution end, told from the replies of handlers and approvals and from the budgets. */
module RunFates {
  import opened Wrappers
  import opened Digraph
  import opened Workflow
  import opened Permissions
  import opened RunModel
  import Topo

  // ---------------------------------------------------------------- one attempt

  /** The handler's reply to the attempt after the first `k`, when `steps` were spent before the first. */
  function ReplyTo(env: Env, id: Id, steps: int, k: nat): Reply {
    env.handle(id, steps + k + 1)
  }

  function TokensOf(outcome: HandlerOutcome): int {
    if outcome.Result? then outcome.tokens else 0
  }

  /** The tokens spent after the first `k` attempts. */
  function TokensAfter(env: Env, id: Id, steps: int, tokens: int, k: nat): int {
    if k == 0 then tokens else TokensAfter(env, id, steps, tokens, k - 1) + TokensOf(ReplyTo(env, id, steps, k - 1).outcome)
  }

  /** The result takes the run over its token budget. */
  predicate Overdraws(job: Job, tokens: int, outcome: HandlerOutcome) {
    outcome.Result? && outcome.tokens != 0 && job.maxTokens.Some? && tokens + outcome.tokens > job.maxTokens.value
  }

  /** A result within the token budget whose artifact, if it has one, the node may write. */
  ghost predicate Delivers(job: Job, id: Id, tokens: int, outcome: HandlerOutcome)
    requires id in job.nodes
  {
    && outcome.Result? && !Overdraws(job, tokens, outcome)
    && (outcome.artifact == "" || MayWrite(job.nodes[id].permissionClass, outcome.artifact))
  }

  /** An exception, or an artifact that the node may not write. */
  ghost predicate Fumbles(job: Job, id: Id, tokens: int, outcome: HandlerOutcome)
    requires id in job.nodes
  {
    !Delivers(job, id, tokens, outcome) && !Overdraws(job, tokens, outcome)
  }

  function Complaint(outcome: HandlerOutcome): string {
    if outcome.Raised? then outcome.message else "unsafe write path"
  }

  /** The run in which the node has delivered. */
  function Delivered(job: Job, id: Id, run: Run, attempts: int, outcome: HandlerOutcome): Run
    requires id in job.keys && outcome.Result?
  {
    Run(run.status, run.nodeStates[id := NodeState(NodeSucceeded, attempts, Computed(job.keys[id], outcome))], run.events + [Committed(id)],
        run.approvals, run.cache[job.keys[id] := outcome], run.steps, run.tokens + outcome.tokens,
        if outcome.artifact == "" then run.files else run.files + 1,
        if outcome.artifact == "" then run.artifacts else run.artifacts + [outcome.artifact],
        run.error, run.cancelRequested)
  }

  function OutOf(run: Run, budget: Budget): Run {
    run.(status := Failed, error := Some(OverBudget(budget)), events := run.events + [BudgetExceeded(budget)])
  }

  /** What an attempt does to the run. */
  lemma SettleIs(job: Job, id: Id, run: Run, attempts: int, outcome: HandlerOutcome)
    requires id in job.nodes && id in job.keys
    ensures var s := Settle(job, id, run, attempts, outcome);
      && (Delivers(job, id, run.tokens, outcome) ==> s == Commit(Delivered(job, id, run, attempts, outcome)))
      && (Overdraws(job, run.tokens, outcome) ==> s == Halt(OutOf(run.(tokens := run.tokens + outcome.tokens), TokenBudget)))
      && (Fumbles(job, id, run.tokens, outcome) ==> s == FailedAttempt(run.(tokens := run.tokens + TokensOf(outcome)), Complaint(outcome)))
  {
    hide MayAutoApply, ClassOrDefault, EvaluateNodeAction, MayWrite;
    if outcome.Result? && outcome.artifact != "" {
      MayWriteIff(job.nodes[id].permissionClass, outcome.artifact);
    }
  }

  // ---------------------------------------------------------------- the attempts at one node

  function Retries(id: Id, n: nat): seq<Event> {
    seq(n, k requires 0 <= k < n => Retried(id, k + 1))
  }

  /** The run after the first `n` attempts, none of which delivered; only the last can have asked for cancellation. */
  function AfterFumbles(env: Env, id: Id, run: Run, n: nat): Run
    requires id in run.nodeStates
  {
    if n == 0 then run
    else run.(nodeStates := run.nodeStates[id := run.nodeStates[id].(attempts := n)], steps := run.steps + n,
              tokens := TokensAfter(env, id, run.steps, run.tokens, n), events := run.events + Retries(id, n),
              cancelRequested := run.cancelRequested || ReplyTo(env, id, run.steps, n - 1).cancels)
  }

  /** The run during the attempt after the first `n`. */
  function During(env: Env, id: Id, run: Run, n: nat): Run
    requires id in run.nodeStates
  {
    var r := AfterFumbles(env, id, run, n);
    r.(nodeStates := r.nodeStates[id := r.nodeStates[id].(attempts := n + 1)], steps := r.steps + 1)
  }

  /** The first `n` attempts deliver nothing, and the loop goes on after each of them. */
  ghost predicate Fumbled(job: Job, env: Env, id: Id, run: Run, n: nat)
    requires id in job.nodes
  {
    && (n > 0 ==> !run.cancelRequested && n <= job.nodes[id].retryMax + 1)
    && (forall k :: 0 <= k < n ==> Fumbles(job, id, TokensAfter(env, id, run.steps, run.tokens, k), ReplyTo(env, id, run.steps, k).outcome))
    && (forall k :: 0 <= k < n - 1 ==> !ReplyTo(env, id, run.steps, k).cancels)
  }

  function LastComplaint(env: Env, id: Id, run: Run, n: nat): string {
    if n == 0 then "" else Complaint(ReplyTo(env, id, run.steps, n - 1).outcome)
  }

  /** How the loop ends after `n` attempts that delivered nothing: none is left, a cancellation was asked for, or one more attempt delivers
      or overdraws the token budget. */
  ghost predicate AttemptsEnd(job: Job, env: Env, id: Id, run: Run, n: nat, r: Run, verdict: Verdict)
    requires id in job.nodes && id in job.keys && id in run.nodeStates
  {
    var before, reply := AfterFumbles(env, id, run, n), ReplyTo(env, id, run.steps, n);
    var during := During(env, id, run, n).(cancelRequested := reply.cancels);
    if n > job.nodes[id].retryMax then
      r == before && verdict == if LastComplaint(env, id, run, n) == "" then PassedOver else GaveUp(LastComplaint(env, id, run, n))
    else if before.cancelRequested then r == Cancel(before) && verdict == Halted
    else if Delivers(job, id, before.tokens, reply.outcome) then r == Delivered(job, id, during, n + 1, reply.outcome) && verdict == Done
    else
      && Overdraws(job, before.tokens, reply.outcome)
      && r == OutOf(during.(tokens := before.tokens + reply.outcome.tokens), TokenBudget) && verdict == Halted
  }

  lemma RetriesGrow(run: Run, id: Id, n: nat)
    ensures run.events + Retries(id, n + 1) == (run.events + Retries(id, n)) + [Retried(id, n + 1)]
    ensures run.events + Retries(id, 0) == run.events
  {
    assert Retries(id, n + 1) == Retries(id, n) + [Retried(id, n + 1)];
  }

  lemma FumblesBooked(env: Env, id: Id, run: Run, n: nat)
    requires id in run.nodeStates
    ensures var before := AfterFumbles(env, id, run, n);
      && before.tokens == TokensAfter(env, id, run.steps, run.tokens, n) && before.steps == run.steps + n && id in before.nodeStates
      && before.events == run.events + Retries(id, n)
  {
    RetriesGrow(run, id, n);
    NoTokensYet(env, id, run.steps, run.tokens);
    hide Retries, TokensAfter, ReplyTo;
  }

  lemma AttemptStarts(env: Env, id: Id, run: Run, n: nat)
    requires id in run.nodeStates
    ensures var before, reply := AfterFumbles(env, id, run, n), ReplyTo(env, id, run.steps, n);
      && before.tokens == TokensAfter(env, id, run.steps, run.tokens, n) && before.steps == run.steps + n && id in before.nodeStates
      && before.events == run.events + Retries(id, n)
      && Starting(before, id, n) == During(env, id, run, n) && reply == env.handle(id, Starting(before, id, n).steps)
  {
    FumblesBooked(env, id, run, n);
    hide Retries, TokensAfter, AfterFumbles;
  }

  lemma NoTokensYet(env: Env, id: Id, steps: int, tokens: int)
    ensures TokensAfter(env, id, steps, tokens, 0) == tokens
  {
  }

  lemma AttemptFumbles(env: Env, id: Id, run: Run, n: nat)
    requires id in run.nodeStates && !AfterFumbles(env, id, run, n).cancelRequested
    ensures var before, reply := AfterFumbles(env, id, run, n), ReplyTo(env, id, run.steps, n);
      AfterFumbles(env, id, run, n + 1) == During(env, id, run, n).(cancelRequested := reply.cancels,
        tokens := before.tokens + TokensOf(reply.outcome), events := before.events + [Retried(id, n + 1)])
  {
    hide Retries, ReplyTo;
    RetriesGrow(run, id, n);
    AttemptStarts(env, id, run, n);
    assert AfterFumbles(env, id, run, n + 1).nodeStates == During(env, id, run, n).nodeStates;
  }

  lemma FumbledOn(job: Job, env: Env, id: Id, run: Run, n: nat)
    requires id in job.nodes && id in run.nodeStates && Fumbled(job, env, id, run, n)
    requires n <= job.nodes[id].retryMax && !AfterFumbles(env, id, run, n).cancelRequested
    requires Fumbles(job, id, TokensAfter(env, id, run.steps, run.tokens, n), ReplyTo(env, id, run.steps, n).outcome)
    ensures Fumbled(job, env, id, run, n + 1)
  {
    hide Fumbles, ReplyTo, TokensAfter;
  }

  /** One round of the loop. */
  lemma TryStep(job: Job, env: Env, id: Id, run: Run, a: nat)
    requires id in job.nodes && id in job.keys && id in run.nodeStates
    requires a <= job.nodes[id].retryMax && !AfterFumbles(env, id, run, a).cancelRequested
    ensures var before, reply := AfterFumbles(env, id, run, a), ReplyTo(env, id, run.steps, a);
      var during := During(env, id, run, a).(cancelRequested := reply.cancels);
      var t, call := TryNode(job, env, id, before, a, LastComplaint(env, id, run, a)), Call(id, During(env, id, run, a));
      && (Delivers(job, id, before.tokens, reply.outcome) ==> t == Attempts(Delivered(job, id, during, a + 1, reply.outcome), [call], Done))
      && (Overdraws(job, before.tokens, reply.outcome) ==>
            t == Attempts(OutOf(during.(tokens := before.tokens + reply.outcome.tokens), TokenBudget), [call], Halted))
      && (Fumbles(job, id, before.tokens, reply.outcome) ==>
            var rest := TryNode(job, env, id, AfterFumbles(env, id, run, a + 1), a + 1, LastComplaint(env, id, run, a + 1));
            t == Attempts(rest.run, [call] + rest.calls, rest.verdict))
  {
    hide Settle, Fumbles, Delivers, Overdraws, TokensAfter, Delivered, ReplyTo, OutOf, Retries;
    AttemptStarts(env, id, run, a);
    AttemptFumbles(env, id, run, a);
    var before, reply := AfterFumbles(env, id, run, a), ReplyTo(env, id, run.steps, a);
    var after := AfterReply(Starting(before, id, a), reply);
    hide AfterFumbles, Starting;
    assert after == During(env, id, run, a).(cancelRequested := reply.cancels);
    SettleIs(job, id, after, a + 1, reply.outcome);
  }

  /** Before the attempt after the first `a`, the run is to stop. */
  predicate ToldToStop(env: Env, id: Id, steps: int, cancelled: bool, a: nat) {
    cancelled || (a > 0 && ReplyTo(env, id, steps, a - 1).cancels)
  }

  /** How many attempts deliver nothing before the loop ends, counted on from the first `a`. */
  ghost function FirstStop(job: Job, env: Env, id: Id, steps: int, tokens: int, cancelled: bool, a: nat): (n: nat)
    requires id in job.nodes
    ensures a <= n
    decreases job.nodes[id].retryMax + 1 - a
  {
    if a > job.nodes[id].retryMax || ToldToStop(env, id, steps, cancelled, a)
       || !Fumbles(job, id, TokensAfter(env, id, steps, tokens, a), ReplyTo(env, id, steps, a).outcome) then a
    else FirstStop(job, env, id, steps, tokens, cancelled, a + 1)
  }

  /** From the attempt after the first `a` on, the loop makes these calls and ends after `n` attempts that delivered nothing. */
  ghost predicate TriesEnd(job: Job, env: Env, id: Id, run: Run, a: nat, n: nat, t: Attempts)
    requires id in job.nodes && id in job.keys && id in run.nodeStates
  {
    && a <= n && AttemptsEnd(job, env, id, run, n, t.run, t.verdict)
    && |t.calls| == n - a + (if n > job.nodes[id].retryMax || AfterFumbles(env, id, run, n).cancelRequested then 0 else 1)
    && forall k :: 0 <= k < |t.calls| ==> t.calls[k] == Call(id, During(env, id, run, a + k))
  }

  lemma OneMoreTry(job: Job, env: Env, id: Id, run: Run, a: nat, n: nat, rest: Attempts)
    requires id in job.nodes && id in job.keys && id in run.nodeStates && TriesEnd(job, env, id, run, a + 1, n, rest)
    ensures TriesEnd(job, env, id, run, a, n, Attempts(rest.run, [Call(id, During(env, id, run, a))] + rest.calls, rest.verdict))
  {
    hide AttemptsEnd, AfterFumbles, During;
    var calls := [Call(id, During(env, id, run, a))] + rest.calls;
    forall k | 0 <= k < |calls|
      ensures calls[k] == Call(id, During(env, id, run, a + k))
    {
      if k > 0 {
        assert calls[k] == rest.calls[k - 1] && a + 1 + (k - 1) == a + k;
      }
    }
  }

  lemma StopsWhenTold(env: Env, id: Id, run: Run, a: nat)
    requires id in run.nodeStates
    ensures AfterFumbles(env, id, run, a).cancelRequested <==> ToldToStop(env, id, run.steps, run.cancelRequested, a)
  {
    hide TokensAfter, Retries, ReplyTo;
  }

  lemma FirstStopStep(job: Job, env: Env, id: Id, run: Run, a: nat)
    requires id in job.nodes && id in run.nodeStates
    ensures var before, reply := AfterFumbles(env, id, run, a), ReplyTo(env, id, run.steps, a);
      var n := FirstStop(job, env, id, run.steps, run.tokens, run.cancelRequested, a);
      if a > job.nodes[id].retryMax || before.cancelRequested || !Fumbles(job, id, before.tokens, reply.outcome) then n == a
      else n == FirstStop(job, env, id, run.steps, run.tokens, run.cancelRequested, a + 1)
  {
    hide TokensAfter, Retries, ReplyTo, Fumbles;
    StopsWhenTold(env, id, run, a);
    FumblesBooked(env, id, run, a);
    hide AfterFumbles, ToldToStop;
  }

  /** How the retry loop ends. */
  lemma {:induction false} TryFrom(job: Job, env: Env, id: Id, run: Run, a: nat)
    requires id in job.nodes && id in job.keys && id in run.nodeStates && Fumbled(job, env, id, run, a)
    ensures var n := FirstStop(job, env, id, run.steps, run.tokens, run.cancelRequested, a);
      && Fumbled(job, env, id, run, n)
      && TriesEnd(job, env, id, run, a, n, TryNode(job, env, id, AfterFumbles(env, id, run, a), a, LastComplaint(env, id, run, a)))
    decreases job.nodes[id].retryMax + 1 - a
  {
    hide Fumbled, Fumbles, AfterFumbles, During, ReplyTo, LastComplaint, TriesEnd, TryNode, FirstStop;
    FirstStopStep(job, env, id, run, a);
    FumblesBooked(env, id, run, a);
    if GoesOn(job, env, id, run, a) {
      TryGoesOn(job, env, id, run, a);
      FumbledOn(job, env, id, run, a);
      FumblesBooked(env, id, run, a + 1);
      TryFrom(job, env, id, run, a + 1);
      OneMoreTry(job, env, id, run, a, FirstStop(job, env, id, run.steps, run.tokens, run.cancelRequested, a),
        TryNode(job, env, id, AfterFumbles(env, id, run, a + 1), a + 1, LastComplaint(env, id, run, a + 1)));
    } else {
      LastTry(job, env, id, run, a);
    }
  }

  /** One more attempt is made, and it delivers nothing. */
  ghost predicate GoesOn(job: Job, env: Env, id: Id, run: Run, a: nat)
    requires id in job.nodes && id in run.nodeStates
  {
    var before := AfterFumbles(env, id, run, a);
    a <= job.nodes[id].retryMax && !before.cancelRequested && Fumbles(job, id, before.tokens, ReplyTo(env, id, run.steps, a).outcome)
  }

  lemma TryGoesOn(job: Job, env: Env, id: Id, run: Run, a: nat)
    requires id in job.nodes && id in job.keys && id in run.nodeStates && GoesOn(job, env, id, run, a)
    ensures var t := TryNode(job, env, id, AfterFumbles(env, id, run, a), a, LastComplaint(env, id, run, a));
      var rest := TryNode(job, env, id, AfterFumbles(env, id, run, a + 1), a + 1, LastComplaint(env, id, run, a + 1));
      t == Attempts(rest.run, [Call(id, During(env, id, run, a))] + rest.calls, rest.verdict)
  {
    hide Fumbles, AfterFumbles, During, ReplyTo, TryNode, Delivers, Overdraws, OutOf, Delivered, LastComplaint;
    FumblesBooked(env, id, run, a);
    FumblesBooked(env, id, run, a + 1);
    TryStep(job, env, id, run, a);
  }

  lemma LastTry(job: Job, env: Env, id: Id, run: Run, a: nat)
    requires id in job.nodes && id in job.keys && id in run.nodeStates && !GoesOn(job, env, id, run, a)
    ensures TriesEnd(job, env, id, run, a, a, TryNode(job, env, id, AfterFumbles(env, id, run, a), a, LastComplaint(env, id, run, a)))
  {
    hide Fumbles, AfterFumbles, During, ReplyTo, TryNode, Delivers, Overdraws, OutOf, Delivered, LastComplaint;
    var before, reply := AfterFumbles(env, id, run, a), ReplyTo(env, id, run.steps, a);
    FumblesBooked(env, id, run, a);
    if a > job.nodes[id].retryMax || before.cancelRequested {
      NoMoreTries(job, env, id, before, a, LastComplaint(env, id, run, a));
    } else {
      TryStep(job, env, id, run, a);
      OneOfThree(job, id, before.tokens, reply.outcome);
    }
  }

  /** The retry loop of one node, from its first attempt: it makes as many attempts as deliver nothing, and at most one more. */
  lemma AttemptsAre(job: Job, env: Env, id: Id, run: Run)
    requires id in job.nodes && id in job.keys && id in run.nodeStates
    ensures var n := FirstStop(job, env, id, run.steps, run.tokens, run.cancelRequested, 0);
      && Fumbled(job, env, id, run, n) && TriesEnd(job, env, id, run, 0, n, TryNode(job, env, id, run, 0, ""))
  {
    hide TriesEnd, FirstStop, TryNode, Fumbles, Retries;
    TryFrom(job, env, id, run, 0);
  }

  lemma NoMoreTries(job: Job, env: Env, id: Id, run: Run, a: nat, lastErr: string)
    requires id in job.nodes && id in job.keys && id in run.nodeStates && (a > job.nodes[id].retryMax || run.cancelRequested)
    ensures TryNode(job, env, id, run, a, lastErr) ==
      if a > job.nodes[id].retryMax then Attempts(run, [], if lastErr == "" then PassedOver else GaveUp(lastErr)) else Attempts(Cancel(run), [], Halted)
  {
  }

  lemma OneOfThree(job: Job, id: Id, tokens: int, outcome: HandlerOutcome)
    requires id in job.nodes
    ensures !Fumbles(job, id, tokens, outcome) ==> Delivers(job, id, tokens, outcome) || Overdraws(job, tokens, outcome)
    ensures Overdraws(job, tokens, outcome) ==> !Delivers(job, id, tokens, outcome) && !Fumbles(job, id, tokens, outcome)
    ensures Delivers(job, id, tokens, outcome) ==> outcome.Result? && !Fumbles(job, id, tokens, outcome)
  {
    hide MayWrite;
  }
}
