/** Retries: which attempt a response belongs to, how many attempts are made, and what is returned. */
module Pairing {
  import opened Types
  import opened Protocol
  import opened History

  /** The caller that made the request is waiting for exactly this attempt. */
  predicate AwaitedBy(s: State, req: Request) {
    req.call in s.callers && Waiting(s.callers[req.call].pc) && s.callers[req.call].pc.reqId == req.id
  }

  predicate InFlight(s: State, id: nat) {
    id in s.routines && Unanswered(s.routines[id])
  }

  ghost predicate Paired(s: State) {
    && (forall i | 0 <= i < |s.submitted| && Popped(s) <= i :: AwaitedBy(s, s.submitted[i]))
    && (forall id | id in s.routines && Unanswered(s.routines[id]) :: AwaitedBy(s, s.routines[id].req))
    && (forall c | c in s.callers && Waiting(s.callers[c].pc) :: Outstanding(s, c, s.callers[c].pc.reqId))
  }

  /** Attempt `id` of caller `c` is queued, or dispatched and not answered yet. */
  predicate Outstanding(s: State, c: nat, id: nat) {
    && id < |s.submitted| && s.submitted[id].call == c
    && (id >= Popped(s) || InFlight(s, id))
  }

  /** Steps that neither start nor end a wait, nor move a request, keep the pairing. */
  lemma PairedFrame(s: State, s': State)
    requires Paired(s)
    requires s'.submitted == s.submitted && Popped(s') == Popped(s) && s'.routines == s.routines
    requires forall c | c in s.callers && Waiting(s.callers[c].pc) ::
      c in s'.callers && Waiting(s'.callers[c].pc) && s'.callers[c].pc.reqId == s.callers[c].pc.reqId
    requires forall c | c in s'.callers && Waiting(s'.callers[c].pc) :: c in s.callers && Waiting(s.callers[c].pc)
    ensures Paired(s')
  {
    forall i | 0 <= i < |s'.submitted| && Popped(s') <= i ensures AwaitedBy(s', s'.submitted[i]) {
      assert AwaitedBy(s, s.submitted[i]);
    }
    forall c | c in s'.callers && Waiting(s'.callers[c].pc) ensures Outstanding(s', c, s'.callers[c].pc.reqId) {
      assert Outstanding(s, c, s.callers[c].pc.reqId);
    }
  }

  lemma PairedBySubmit(cfg: Config, s: State, c: nat)
    requires CallerEnabled(cfg, s, Submit(c)) && Fifo(s) && Placements(s) && Paired(s)
    ensures Paired(NextCaller(cfg, s, Submit(c)))
  {
    var s' := NextCaller(cfg, s, Submit(c));
    forall i | 0 <= i < |s'.submitted| && Popped(s') <= i ensures AwaitedBy(s', s'.submitted[i]) {
      if i < |s.submitted| {
        assert AwaitedBy(s, s.submitted[i]);
      }
    }
    forall c' | c' in s'.callers && Waiting(s'.callers[c'].pc) ensures Outstanding(s', c', s'.callers[c'].pc.reqId) {
      if c' != c {
        assert Outstanding(s, c', s.callers[c'].pc.reqId);
      }
    }
  }

  lemma PairedByCaller(cfg: Config, s: State, a: CallerStep)
    requires CallerEnabled(cfg, s, a) && Fifo(s) && Placements(s) && Paired(s)
    ensures Paired(NextCaller(cfg, s, a))
  {
    if a.Submit? {
      PairedBySubmit(cfg, s, a.c);
    } else {
      PairedFrame(s, NextCaller(cfg, s, a));
    }
  }

  lemma PairedByPop(cfg: Config, s: State)
    requires s.scheduler.Inserted? && Fifo(s) && Placements(s) && Paired(s)
    ensures Paired(NextScheduler(cfg, s, Pop))
  {
    var s' := NextScheduler(cfg, s, Pop);
    var id := Popped(s);
    assert s.scheduler.req == s.submitted[id] && s.submitted[id].id == id;
    assert AwaitedBy(s, s.submitted[id]);
    forall c | c in s'.callers && Waiting(s'.callers[c].pc) ensures Outstanding(s', c, s'.callers[c].pc.reqId) {
      assert Outstanding(s, c, s.callers[c].pc.reqId);
    }
    forall i | 0 <= i < |s'.submitted| && Popped(s') <= i ensures AwaitedBy(s', s'.submitted[i]) {
      assert AwaitedBy(s, s.submitted[i]);
    }
  }

  lemma PairedByScheduler(cfg: Config, s: State, a: SchedulerStep)
    requires SchedulerEnabled(cfg, s, a) && Fifo(s) && Placements(s) && Paired(s)
    ensures Paired(NextScheduler(cfg, s, a))
  {
    if a.Pop? {
      PairedByPop(cfg, s);
    } else {
      PairedFrame(s, NextScheduler(cfg, s, a));
    }
  }

  /** Handing over a response ends the wait for exactly this attempt: the caller that made it was
      waiting for it and now has its outcome; every other caller and routine is as before. */
  lemma RespondEndsOneWait(cfg: Config, s: State, id: nat)
    requires RoutineEnabled(s, Respond(id)) && Fifo(s) && Placements(s) && Paired(s)
    ensures var c := s.routines[id].req.call;
      var s' := NextRoutine(cfg, s, Respond(id));
      && s.callers[c].pc.AtReceive? && s.callers[c].pc.reqId == id
      && !Waiting(s'.callers[c].pc)
      && s'.callers[c].outcomes == s.callers[c].outcomes + [s.routines[id].pc.response]
      && s'.callers.Keys == s.callers.Keys
      && (forall other | other in s.callers && other != c :: s'.callers[other] == s.callers[other])
      && s'.routines.Keys == s.routines.Keys && s'.routines[id].pc.Answered?
      && (forall other | other in s.routines && other != id :: s'.routines[other] == s.routines[other])
  {
    assert RoutineOk(s, id) && AwaitedBy(s, s.routines[id].req);
  }

  lemma OtherStaysAwaited(cfg: Config, s: State, id: nat, req: Request)
    requires RoutineEnabled(s, Respond(id)) && Fifo(s) && Placements(s) && Paired(s)
    requires AwaitedBy(s, req) && req.id != id
    ensures AwaitedBy(NextRoutine(cfg, s, Respond(id)), req)
  {
    RespondEndsOneWait(cfg, s, id);
  }

  lemma OtherStaysOutstanding(cfg: Config, s: State, id: nat, c: nat)
    requires RoutineEnabled(s, Respond(id)) && Fifo(s) && Placements(s) && Paired(s)
    requires c in s.callers && c != s.routines[id].req.call && Waiting(s.callers[c].pc)
    ensures Outstanding(NextRoutine(cfg, s, Respond(id)), c, s.callers[c].pc.reqId)
  {
    RespondEndsOneWait(cfg, s, id);
    assert Outstanding(s, c, s.callers[c].pc.reqId) && RoutineOk(s, id);
  }

  lemma PairedByRespond(cfg: Config, s: State, id: nat)
    requires RoutineEnabled(s, Respond(id)) && Fifo(s) && Placements(s) && Paired(s)
    ensures Paired(NextRoutine(cfg, s, Respond(id)))
  {
    RespondEndsOneWait(cfg, s, id);
    var s' := NextRoutine(cfg, s, Respond(id));
    forall i | 0 <= i < |s'.submitted| && Popped(s') <= i ensures AwaitedBy(s', s'.submitted[i]) {
      assert RoutineOk(s, id) && s.submitted[i].id != id;
      OtherStaysAwaited(cfg, s, id, s.submitted[i]);
    }
    forall other | other in s'.routines && Unanswered(s'.routines[other])
      ensures AwaitedBy(s', s'.routines[other].req)
    {
      assert RoutineOk(s, other) && s.routines[other].req.id == other;
      OtherStaysAwaited(cfg, s, id, s.routines[other].req);
    }
    forall c | c in s'.callers && Waiting(s'.callers[c].pc) ensures Outstanding(s', c, s'.callers[c].pc.reqId) {
      OtherStaysOutstanding(cfg, s, id, c);
    }
  }

  lemma PairedByRoutine(cfg: Config, s: State, a: RoutineStep)
    requires RoutineEnabled(s, a) && Fifo(s) && Placements(s) && Paired(s)
    ensures Paired(NextRoutine(cfg, s, a))
  {
    if a.Respond? {
      PairedByRespond(cfg, s, a.reqId);
    } else {
      var s' := NextRoutine(cfg, s, a);
      forall i | 0 <= i < |s'.submitted| && Popped(s') <= i ensures AwaitedBy(s', s'.submitted[i]) {
        assert AwaitedBy(s, s.submitted[i]);
      }
      forall c | c in s'.callers && Waiting(s'.callers[c].pc) ensures Outstanding(s', c, s'.callers[c].pc.reqId) {
        assert Outstanding(s, c, s.callers[c].pc.reqId);
      }
    }
  }

  lemma PairedByFleet(cfg: Config, s: State, a: FleetStep)
    requires FleetEnabled(s, a) && Paired(s)
    ensures Paired(NextFleet(cfg, s, a))
  {
    PairedFrame(s, NextFleet(cfg, s, a));
  }

  lemma PairedStep(cfg: Config, s: State, a: Action)
    requires Enabled(cfg, s, a) && Fifo(s) && Placements(s) && Paired(s)
    ensures Paired(Next(cfg, s, a))
  {
    match a
    case ByCaller(step) => PairedByCaller(cfg, s, step);
    case ByScheduler(step) => PairedByScheduler(cfg, s, step);
    case ByRoutine(step) => PairedByRoutine(cfg, s, step);
    case ByFleet(step) => PairedByFleet(cfg, s, step);
  }

  /** The ids of the attempts of a caller that no one has answered yet. */
  ghost function UnansweredOf(s: State, c: nat): set<nat> {
    (set req | req in s.queue && req.call == c :: req.id)
    + (set id | id in s.routines && Unanswered(s.routines[id]) && s.routines[id].req.call == c)
  }

  /** A caller that waits has exactly one unanswered attempt, the one it waits for; a caller that
      does not wait has none. */
  lemma OneUnansweredAttempt(s: State, c: nat)
    requires Fifo(s) && Placements(s) && Paired(s)
    ensures UnansweredOf(s, c)
         == if c in s.callers && Waiting(s.callers[c].pc) then {s.callers[c].pc.reqId} else {}
  {
    forall req | req in s.queue && req.call == c ensures AwaitedBy(s, req) {
      var k :| 0 <= k < |s.queue| && s.queue[k] == req;
      assert req == s.submitted[Popped(s) + k];
    }
    if c in s.callers && Waiting(s.callers[c].pc) {
      var id := s.callers[c].pc.reqId;
      assert Outstanding(s, c, id);
      if id >= Popped(s) {
        assert s.queue[id - Popped(s)] == s.submitted[id];
      } else {
        assert RoutineOk(s, id);
      }
    }
  }

  // ---------------------------------------------------------------- the retry loop

  ghost predicate AllErrors(outcomes: seq<Outcome>) {
    forall o | o in outcomes :: o.Err?
  }

  /** The result is that of the last attempt; every earlier attempt failed; and a failure is returned
      only after the last attempt allowed. */
  ghost predicate FinalResult(maxRetry: int, outcomes: seq<Outcome>, result: Outcome) {
    if outcomes == [] then maxRetry <= 0 && result == Err(GAVE_UP)
    else
      && |outcomes| <= maxRetry
      && result == outcomes[|outcomes| - 1] && AllErrors(outcomes[..|outcomes| - 1])
      && (result.Err? ==> |outcomes| == maxRetry)
  }

  ghost predicate CallerOk(cfg: Config, caller: Caller) {
    match caller.pc
    case AtLoop(i) => i == |caller.outcomes| && AllErrors(caller.outcomes) && (i == 0 || i < cfg.maxRetry)
    case AtTrigger(i, _) => i == |caller.outcomes| && AllErrors(caller.outcomes) && i < cfg.maxRetry
    case AtReceive(i, _) => i == |caller.outcomes| && AllErrors(caller.outcomes) && i < cfg.maxRetry
    case Returned(result) => FinalResult(cfg.maxRetry, caller.outcomes, result)
  }

  ghost predicate Retrying(cfg: Config, s: State) {
    forall c | c in s.callers :: CallerOk(cfg, s.callers[c])
  }

  lemma EndAttemptOk(cfg: Config, caller: Caller, outcome: Outcome)
    requires !caller.pc.Returned? && caller.pc.attempt < cfg.maxRetry && CallerOk(cfg, caller)
    ensures CallerOk(cfg, EndAttempt(cfg, caller, outcome))
  {
    var outcomes := caller.outcomes + [outcome];
    assert outcomes[..|outcomes| - 1] == caller.outcomes;
  }

  lemma CallerStepOk(cfg: Config, s: State, a: CallerStep)
    requires CallerEnabled(cfg, s, a) && (a.c in s.callers ==> CallerOk(cfg, s.callers[a.c]))
    ensures a.c in NextCaller(cfg, s, a).callers && CallerOk(cfg, NextCaller(cfg, s, a).callers[a.c])
  {
    match a
    case Call(_, _, _, _, _) =>
    case GiveUp(c) => assert s.callers[c].outcomes == [];
    case FailSubmit(c, error) => EndAttemptOk(cfg, s.callers[c], Err(error));
    case Submit(_) =>
  }

  lemma RetryingByCaller(cfg: Config, s: State, a: CallerStep)
    requires CallerEnabled(cfg, s, a) && Retrying(cfg, s)
    ensures Retrying(cfg, NextCaller(cfg, s, a))
  {
    CallerStepOk(cfg, s, a);
    var s' := NextCaller(cfg, s, a);
    forall c | c in s'.callers ensures CallerOk(cfg, s'.callers[c]) {
      assert c != a.c ==> s'.callers[c] == s.callers[c];
    }
  }

  lemma RetryingStep(cfg: Config, s: State, a: Action)
    requires Enabled(cfg, s, a) && Retrying(cfg, s)
    ensures Retrying(cfg, Next(cfg, s, a))
  {
    match a
    case ByCaller(step) => RetryingByCaller(cfg, s, step);
    case ByScheduler(step) =>
      if step.Trigger? { assert CallerOk(cfg, s.callers[step.c]); }
    case ByRoutine(step) =>
      if step.Respond? {
        var c := s.routines[step.reqId].req.call;
        assert CallerOk(cfg, s.callers[c]);
        EndAttemptOk(cfg, s.callers[c], s.routines[step.reqId].pc.response);
      }
    case ByFleet(step) =>
  }

  // ---------------------------------------------------------------- attempts

  /** How many requests a caller has pushed. */
  function Pushed(requests: seq<Request>, c: nat): nat {
    if requests == [] then 0
    else Pushed(requests[..|requests| - 1], c) + if requests[|requests| - 1].call == c then 1 else 0
  }

  /** The attempts of a caller so far: those that ended, and the one it waits for. */
  function Attempts(s: State, c: nat): nat {
    if c !in s.callers then 0
    else |s.callers[c].outcomes| + if Waiting(s.callers[c].pc) then 1 else 0
  }

  /** Every request pushed belongs to an attempt. */
  ghost predicate Counted(s: State) {
    forall c: nat :: Pushed(s.submitted, c) <= Attempts(s, c)
  }

  lemma CountedByCaller(cfg: Config, s: State, a: CallerStep)
    requires CallerEnabled(cfg, s, a) && Counted(s)
    ensures Counted(NextCaller(cfg, s, a))
  {
    var s' := NextCaller(cfg, s, a);
    forall c: nat ensures Pushed(s'.submitted, c) <= Attempts(s', c) {
      assert Pushed(s.submitted, c) <= Attempts(s, c);
      if a.Submit? {
        assert s'.submitted[..|s.submitted|] == s.submitted;
      }
    }
  }

  lemma CountedFrame(s: State, s': State)
    requires Counted(s) && s'.submitted == s.submitted
    requires forall c: nat :: Attempts(s, c) <= Attempts(s', c)
    ensures Counted(s')
  {
    forall c: nat ensures Pushed(s'.submitted, c) <= Attempts(s', c) {
      assert Pushed(s.submitted, c) <= Attempts(s, c);
    }
  }

  lemma CountedStep(cfg: Config, s: State, a: Action)
    requires Enabled(cfg, s, a) && Counted(s)
    ensures Counted(Next(cfg, s, a))
  {
    match a
    case ByCaller(step) => CountedByCaller(cfg, s, step);
    case ByScheduler(step) => CountedFrame(s, NextScheduler(cfg, s, step));
    case ByRoutine(step) => CountedFrame(s, NextRoutine(cfg, s, step));
    case ByFleet(step) => CountedFrame(s, NextFleet(cfg, s, step));
  }
}
