/** One caller of the protocol on its own: what the interleaved steps of all goroutines do to it, and the
    paths it can take through its retry loop. */
module Retries {
  import opened Types
  import opened Protocol
  import opened Pairing

  /** The submission fails; or the request is pushed, the trigger is taken, and a response arrives; or no
      attempt is allowed at all. */
  datatype Move = Fail(error: string) | Push(reqId: nat) | Hand | Answer(outcome: Outcome) | Surrender

  predicate CanMove(cfg: Config, caller: Caller, m: Move) {
    match m
    case Fail(_) => caller.pc.AtLoop? && caller.pc.attempt < cfg.maxRetry
    case Push(_) => caller.pc.AtLoop? && caller.pc.attempt < cfg.maxRetry
    case Hand => caller.pc.AtTrigger?
    case Answer(_) => caller.pc.AtReceive?
    case Surrender => caller.pc.AtLoop? && caller.pc.attempt >= cfg.maxRetry
  }

  function Moved(cfg: Config, caller: Caller, m: Move): Caller
    requires CanMove(cfg, caller, m)
  {
    match m
    case Fail(error) => EndAttempt(cfg, caller, Err(error))
    case Push(reqId) => caller.(pc := AtTrigger(caller.pc.attempt, reqId))
    case Hand => caller.(pc := AtReceive(caller.pc.attempt, caller.pc.reqId))
    case Answer(outcome) => EndAttempt(cfg, caller, outcome)
    case Surrender => caller.(pc := Returned(Err(GAVE_UP)))
  }

  /** Where a path of moves leads a caller, if the caller can take it. */
  function After(cfg: Config, caller: Caller, moves: seq<Move>): Option<Caller> {
    if moves == [] then Some(caller)
    else
      var n := |moves| - 1;
      match After(cfg, caller, moves[..n])
      case None => None
      case Some(before) => if CanMove(cfg, before, moves[n]) then Some(Moved(cfg, before, moves[n])) else None
  }

  predicate Follows(cfg: Config, caller: Caller, moves: seq<Move>, caller': Caller) {
    After(cfg, caller, moves) == Some(caller')
  }

  lemma FollowOn(cfg: Config, caller: Caller, moves: seq<Move>, before: Caller, m: Move)
    requires Follows(cfg, caller, moves, before) && CanMove(cfg, before, m)
    ensures Follows(cfg, caller, moves + [m], Moved(cfg, before, m))
  {
    assert (moves + [m])[..|moves|] == moves;
  }

  // ---------------------------------------------------------------- the steps of the protocol

  ghost predicate MovesTo(cfg: Config, caller: Caller, caller': Caller) {
    caller == caller' || exists m :: CanMove(cfg, caller, m) && caller' == Moved(cfg, caller, m)
  }

  /** Each step of the protocol leaves a caller alone or is one of its moves. */
  lemma EveryStepIsAMove(cfg: Config, s: State, a: Action, c: nat)
    requires Enabled(cfg, s, a) && c in s.callers
    ensures c in Next(cfg, s, a).callers && MovesTo(cfg, s.callers[c], Next(cfg, s, a).callers[c])
  {
    match a
    case ByCaller(step) => CallerStepIsAMove(cfg, s, step, c);
    case ByScheduler(step) =>
      if step.Trigger? && step.c == c {
        assert CanMove(cfg, s.callers[c], Hand);
        assert NextScheduler(cfg, s, step).callers[c] == Moved(cfg, s.callers[c], Hand);
      }
    case ByRoutine(step) =>
      if step.Respond? && s.routines[step.reqId].req.call == c {
        var m := Answer(s.routines[step.reqId].pc.response);
        assert CanMove(cfg, s.callers[c], m) && NextRoutine(cfg, s, step).callers[c] == Moved(cfg, s.callers[c], m);
      }
    case ByFleet(step) =>
  }

  lemma CallerStepIsAMove(cfg: Config, s: State, a: CallerStep, c: nat)
    requires CallerEnabled(cfg, s, a) && c in s.callers
    ensures c in NextCaller(cfg, s, a).callers && MovesTo(cfg, s.callers[c], NextCaller(cfg, s, a).callers[c])
  {
    if a.c == c {
      var m := if a.GiveUp? then Surrender else if a.FailSubmit? then Fail(a.error) else Push(|s.submitted|);
      assert CanMove(cfg, s.callers[c], m) && NextCaller(cfg, s, a).callers[c] == Moved(cfg, s.callers[c], m);
    }
  }

  /** So what a caller goes through in a run of the protocol is a path of its moves. */
  lemma {:induction false} RunsFollow(cfg: Config, states: seq<State>, actions: seq<Action>, a: nat, b: nat, c: nat)
    returns (moves: seq<Move>)
    requires IsRun(cfg, states, actions) && a <= b < |states| && c in states[a].callers
    ensures c in states[b].callers && Follows(cfg, states[a].callers[c], moves, states[b].callers[c])
    decreases b
  {
    if a == b {
      moves := [];
    } else {
      moves := RunsFollow(cfg, states, actions, a, b - 1, c);
      assert StepAt(cfg, states, actions, b - 1);
      EveryStepIsAMove(cfg, states[b - 1], actions[b - 1], c);
      var before := states[b - 1].callers[c];
      if states[b].callers[c] != before {
        var m :| CanMove(cfg, before, m) && states[b].callers[c] == Moved(cfg, before, m);
        FollowOn(cfg, states[a].callers[c], moves, before, m);
        moves := moves + [m];
      }
    }
  }

  // ---------------------------------------------------------------- the loop

  predicate AtStart(caller: Caller) {
    caller.pc == AtLoop(0) && caller.outcomes == []
  }

  lemma MoveKeepsCallerOk(cfg: Config, caller: Caller, m: Move)
    requires CanMove(cfg, caller, m) && CallerOk(cfg, caller)
    ensures CallerOk(cfg, Moved(cfg, caller, m))
  {
    match m
    case Fail(error) => EndAttemptOk(cfg, caller, Err(error));
    case Answer(outcome) => EndAttemptOk(cfg, caller, outcome);
    case Surrender => assert caller.outcomes == [];
    case _ =>
  }

  lemma {:induction false} PathsKeepCallerOk(cfg: Config, caller: Caller, moves: seq<Move>, caller': Caller)
    requires Follows(cfg, caller, moves, caller') && CallerOk(cfg, caller)
    ensures CallerOk(cfg, caller')
  {
    if moves != [] {
      var n := |moves| - 1;
      var before := After(cfg, caller, moves[..n]).value;
      PathsKeepCallerOk(cfg, caller, moves[..n], before);
      MoveKeepsCallerOk(cfg, before, moves[n]);
    }
  }

  /** What attempt number `i`, counted from 0, ends with: the error of its submission, or the response. */
  function OutcomeOf(submit: nat -> Option<string>, receive: nat -> Outcome, i: nat): Outcome {
    match submit(i)
    case Some(error) => Err(error)
    case None => receive(i)
  }

  ghost predicate Recorded(submit: nat -> Option<string>, receive: nat -> Outcome, outcomes: seq<Outcome>) {
    forall j | 0 <= j < |outcomes| :: outcomes[j] == OutcomeOf(submit, receive, j)
  }

  /** The moves of the first `n` attempts. */
  function PathOf(submit: nat -> Option<string>, receive: nat -> Outcome, n: nat): seq<Move> {
    if n == 0 then []
    else
      PathOf(submit, receive, n - 1)
      + match submit(n - 1)
        case Some(error) => [Fail(error)]
        case None => [Push(0)] + [Hand] + [Answer(receive(n - 1))]
  }

  /** One attempt with a response: push, hand over the trigger, receive. */
  lemma Attempt(cfg: Config, caller: Caller, moves: seq<Move>, before: Caller, outcome: Outcome)
    requires Follows(cfg, caller, moves, before) && before.pc.AtLoop? && before.pc.attempt < cfg.maxRetry
    ensures Follows(cfg, caller, moves + ([Push(0)] + [Hand] + [Answer(outcome)]), EndAttempt(cfg, before, outcome))
  {
    var pushed := Moved(cfg, before, Push(0));
    var handed := Moved(cfg, pushed, Hand);
    FollowOn(cfg, caller, moves, before, Push(0));
    FollowOn(cfg, caller, moves + [Push(0)], pushed, Hand);
    FollowOn(cfg, caller, moves + [Push(0)] + [Hand], handed, Answer(outcome));
    assert Moved(cfg, handed, Answer(outcome)) == EndAttempt(cfg, before, outcome);
    assert moves + [Push(0)] + [Hand] + [Answer(outcome)] == moves + ([Push(0)] + [Hand] + [Answer(outcome)]);
  }

  lemma PathGrows(cfg: Config, submit: nat -> Option<string>, receive: nat -> Outcome, caller: Caller,
                  before: Caller, n: nat)
    requires Follows(cfg, caller, PathOf(submit, receive, n), before) && before.pc == AtLoop(n) && n < cfg.maxRetry
    ensures Follows(cfg, caller, PathOf(submit, receive, n + 1), EndAttempt(cfg, before, OutcomeOf(submit, receive, n)))
  {
    match submit(n)
    case Some(error) => FollowOn(cfg, caller, PathOf(submit, receive, n), before, Fail(error));
    case None => Attempt(cfg, caller, PathOf(submit, receive, n), before, receive(n));
  }

  lemma {:induction false} FailuresKeepLooping(cfg: Config, submit: nat -> Option<string>, receive: nat -> Outcome,
                                               caller: Caller, outcomes: seq<Outcome>)
    requires AtStart(caller) && AllErrors(outcomes) && (outcomes == [] || |outcomes| < cfg.maxRetry)
    requires Recorded(submit, receive, outcomes)
    ensures Follows(cfg, caller, PathOf(submit, receive, |outcomes|),
                    caller.(pc := AtLoop(|outcomes|), outcomes := outcomes))
  {
    if outcomes == [] {
      assert caller == caller.(pc := AtLoop(0), outcomes := []);
    } else {
      var front, last := outcomes[..|outcomes| - 1], outcomes[|outcomes| - 1];
      FailuresKeepLooping(cfg, submit, receive, caller, front);
      var before := caller.(pc := AtLoop(|front|), outcomes := front);
      assert last in outcomes && front + [last] == outcomes;
      PathGrows(cfg, submit, receive, caller, before, |front|);
    }
  }

  /** The moves of a call that makes `n` attempts. */
  function CallPath(submit: nat -> Option<string>, receive: nat -> Outcome, n: nat): seq<Move> {
    if n == 0 then [Surrender] else PathOf(submit, receive, n)
  }

  lemma NoAttemptSurrenders(cfg: Config, caller: Caller)
    requires AtStart(caller) && cfg.maxRetry <= 0
    ensures Follows(cfg, caller, [Surrender], caller.(pc := Returned(Err(GAVE_UP)), outcomes := []))
  {
    assert [Surrender][..0] == [];
    assert Moved(cfg, caller, Surrender) == caller.(pc := Returned(Err(GAVE_UP)), outcomes := []);
  }

  lemma LastAttemptReturns(cfg: Config, caller: Caller, front: seq<Outcome>, last: Outcome)
    requires last.Ok? || |front| >= cfg.maxRetry - 1
    ensures EndAttempt(cfg, caller.(pc := AtLoop(|front|), outcomes := front), last)
         == caller.(pc := Returned(last), outcomes := front + [last])
  {}

  /** What the retry loop does is a path of the protocol: failing submissions and responses in the order
      of the attempts lead its caller to return what the contract of the loop asks for. */
  lemma CallIsAPath(cfg: Config, submit: nat -> Option<string>, receive: nat -> Outcome, caller: Caller,
                    outcomes: seq<Outcome>, result: Outcome)
    requires AtStart(caller) && Recorded(submit, receive, outcomes) && FinalResult(cfg.maxRetry, outcomes, result)
    ensures Follows(cfg, caller, CallPath(submit, receive, |outcomes|),
                    caller.(pc := Returned(result), outcomes := outcomes))
  {
    if outcomes == [] {
      NoAttemptSurrenders(cfg, caller);
    } else {
      var front, last := outcomes[..|outcomes| - 1], outcomes[|outcomes| - 1];
      assert front + [last] == outcomes;
      FailuresKeepLooping(cfg, submit, receive, caller, front);
      PathGrows(cfg, submit, receive, caller, caller.(pc := AtLoop(|front|), outcomes := front), |front|);
      LastAttemptReturns(cfg, caller, front, last);
    }
  }

  /** For any retry limit, positive or not: outcomes and a result satisfy the contract of the loop exactly
      when the caller of the protocol has a path on which it collects these outcomes and returns that
      result. */
  lemma CallFunctionRefinesProtocol(cfg: Config, caller: Caller, outcomes: seq<Outcome>, result: Outcome)
    requires AtStart(caller)
    ensures FinalResult(cfg.maxRetry, outcomes, result)
      <==> exists moves :: Follows(cfg, caller, moves, caller.(pc := Returned(result), outcomes := outcomes))
  {
    var end := caller.(pc := Returned(result), outcomes := outcomes);
    if FinalResult(cfg.maxRetry, outcomes, result) {
      var receive := (i: nat) => if i < |outcomes| then outcomes[i] else result;
      CallIsAPath(cfg, (i: nat) => None, receive, caller, outcomes, result);
      assert exists moves :: Follows(cfg, caller, moves, end);
    }
    if moves :| Follows(cfg, caller, moves, end) {
      PathsKeepCallerOk(cfg, caller, moves, end);
    }
  }
}
