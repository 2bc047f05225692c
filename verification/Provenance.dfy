/** Where requests, responses and placements come from: each is traced back to the action of the run that
    brought it in, field by field. */
module Provenance {
  import opened Types
  import opened Placement
  import opened Protocol
  import opened History
  import opened Pairing
  import opened Runs

  // ---------------------------------------------------------------- requests

  /** A call with these arguments is among the first `k` actions. */
  ghost predicate Called(actions: seq<Action>, k: nat, c: nat, func: string, payload: string, cpu: int, memory: int)
    requires k <= |actions|
  {
    exists j :: 0 <= j < k && actions[j] == ByCaller(Call(c, func, payload, cpu, memory))
  }

  ghost predicate CallerTraced(actions: seq<Action>, k: nat, s: State, c: nat)
    requires k <= |actions| && c in s.callers
  {
    var caller := s.callers[c];
    Called(actions, k, c, caller.func, caller.payload, caller.cpu, caller.memory)
  }

  ghost predicate RequestTraced(actions: seq<Action>, k: nat, req: Request)
    requires k <= |actions|
  {
    Called(actions, k, req.call, req.func, req.payload, req.cpu, req.memory)
  }

  predicate SameArguments(a: Caller, b: Caller) {
    a.func == b.func && a.payload == b.payload && a.cpu == b.cpu && a.memory == b.memory
  }

  lemma CallerStepKeepsArguments(cfg: Config, s: State, a: CallerStep, c: nat)
    requires CallerEnabled(cfg, s, a) && !a.Call? && c in NextCaller(cfg, s, a).callers
    ensures c in s.callers && SameArguments(NextCaller(cfg, s, a).callers[c], s.callers[c])
  {
    assert a.c != c ==> NextCaller(cfg, s, a).callers[c] == s.callers[c];
  }

  /** What a step does to the arguments of a call. */
  lemma StepKeepsArguments(cfg: Config, s: State, a: Action, c: nat)
    requires Enabled(cfg, s, a) && c in Next(cfg, s, a).callers
    ensures var caller := Next(cfg, s, a).callers[c];
      || a == ByCaller(Call(c, caller.func, caller.payload, caller.cpu, caller.memory))
      || (c in s.callers && SameArguments(caller, s.callers[c]))
  {
    match a
    case ByCaller(step) =>
      if !step.Call? {
        CallerStepKeepsArguments(cfg, s, step, c);
      }
    case ByScheduler(step) => assert SameArguments(NextScheduler(cfg, s, step).callers[c], s.callers[c]);
    case ByRoutine(step) => assert SameArguments(NextRoutine(cfg, s, step).callers[c], s.callers[c]);
    case ByFleet(step) => assert NextFleet(cfg, s, step).callers == s.callers;
  }

  lemma StepPushes(cfg: Config, s: State, a: Action)
    requires Enabled(cfg, s, a)
    ensures var s' := Next(cfg, s, a);
      if a.ByCaller? && a.caller.Submit?
      then s'.submitted == s.submitted + [NewRequest(s, a.caller.c)]
      else s'.submitted == s.submitted
  {}

  /** Every call and every request pushed for it carries the arguments the call was made with. */
  lemma {:induction false} RequestsCarryTheirCalls(cfg: Config, states: seq<State>, actions: seq<Action>, k: nat)
    requires IsRun(cfg, states, actions) && k <= |actions|
    ensures forall c | c in states[k].callers :: CallerTraced(actions, k, states[k], c)
    ensures forall req | req in states[k].submitted :: RequestTraced(actions, k, req)
    decreases k
  {
    if k > 0 {
      RequestsCarryTheirCalls(cfg, states, actions, k - 1);
      assert StepAt(cfg, states, actions, k - 1);
      var s, a := states[k - 1], actions[k - 1];
      forall c | c in states[k].callers ensures CallerTraced(actions, k, states[k], c) {
        StepKeepsArguments(cfg, s, a, c);
        assert c in s.callers ==> CallerTraced(actions, k - 1, s, c);
      }
      StepPushes(cfg, s, a);
      forall req | req in states[k].submitted ensures RequestTraced(actions, k, req) {
        if req in s.submitted {
          assert RequestTraced(actions, k - 1, req);
        } else {
          assert CallerTraced(actions, k - 1, s, req.call);
        }
      }
    }
  }

  // ---------------------------------------------------------------- responses

  /** The worker answered the request with `o` among the first `k` actions. */
  ghost predicate Finished(actions: seq<Action>, k: nat, id: nat, o: Outcome)
    requires k <= |actions|
  {
    exists j :: 0 <= j < k && actions[j] == ByRoutine(Finish(id, o))
  }

  ghost predicate SubmissionFailed(actions: seq<Action>, k: nat, c: nat, o: Outcome)
    requires k <= |actions|
  {
    exists j :: 0 <= j < k && actions[j].ByCaller? && actions[j].caller.FailSubmit? && actions[j].caller.c == c
                && o == Err(actions[j].caller.error)
  }

  /** The outcome is the error of a failed submission of the caller, or what a worker answered to one of
      its own requests. */
  ghost predicate OutcomeTraced(actions: seq<Action>, k: nat, submitted: seq<Request>, c: nat, o: Outcome)
    requires k <= |actions|
  {
    || SubmissionFailed(actions, k, c, o)
    || exists id :: 0 <= id < |submitted| && submitted[id].call == c && Finished(actions, k, id, o)
  }

  lemma TracedLater(actions: seq<Action>, k: nat, submitted: seq<Request>, submitted': seq<Request>, c: nat, o: Outcome)
    requires k < |actions| && submitted <= submitted' && OutcomeTraced(actions, k, submitted, c, o)
    ensures OutcomeTraced(actions, k + 1, submitted', c, o)
  {
    if !SubmissionFailed(actions, k, c, o) {
      var id :| 0 <= id < |submitted| && submitted[id].call == c && Finished(actions, k, id, o);
      assert submitted'[id].call == c && Finished(actions, k + 1, id, o);
    }
  }

  ghost predicate ResponsesTraced(actions: seq<Action>, k: nat, s: State)
    requires k <= |actions|
  {
    forall id | id in s.routines && s.routines[id].pc.Sending? :: Finished(actions, k, id, s.routines[id].pc.response)
  }

  lemma {:induction false} SendersFinished(cfg: Config, states: seq<State>, actions: seq<Action>, k: nat)
    requires IsRun(cfg, states, actions) && k <= |actions|
    ensures ResponsesTraced(actions, k, states[k])
    decreases k
  {
    if k > 0 {
      SendersFinished(cfg, states, actions, k - 1);
      assert StepAt(cfg, states, actions, k - 1);
      var s, a, s' := states[k - 1], actions[k - 1], states[k];
      forall id | id in s'.routines && s'.routines[id].pc.Sending?
        ensures Finished(actions, k, id, s'.routines[id].pc.response)
      {
        SenderBefore(cfg, s, a, id);
        if a != ByRoutine(Finish(id, s'.routines[id].pc.response)) {
          assert Finished(actions, k - 1, id, s'.routines[id].pc.response);
        }
      }
    }
  }

  lemma SenderBefore(cfg: Config, s: State, a: Action, id: nat)
    requires Enabled(cfg, s, a) && id in Next(cfg, s, a).routines && Next(cfg, s, a).routines[id].pc.Sending?
    ensures var s' := Next(cfg, s, a);
      a == ByRoutine(Finish(id, s'.routines[id].pc.response)) || (id in s.routines && s.routines[id] == s'.routines[id])
  {
    match a
    case ByCaller(step) => assert NextCaller(cfg, s, step).routines == s.routines;
    case ByScheduler(step) => assert step.Pop? || NextScheduler(cfg, s, step).routines == s.routines;
    case ByRoutine(step) =>
    case ByFleet(step) => assert NextFleet(cfg, s, step).routines == s.routines;
  }

  lemma CallerStepRecords(cfg: Config, s: State, a: CallerStep, c: nat)
    requires CallerEnabled(cfg, s, a) && c in NextCaller(cfg, s, a).callers
    ensures var outcomes := NextCaller(cfg, s, a).callers[c].outcomes;
      if a.Call? && a.c == c then outcomes == []
      else
        && c in s.callers
        && outcomes == s.callers[c].outcomes + if a.FailSubmit? && a.c == c then [Err(a.error)] else []
  {
    assert a.c != c ==> NextCaller(cfg, s, a).callers[c] == s.callers[c];
  }

  lemma RoutineStepRecords(cfg: Config, s: State, a: RoutineStep, c: nat)
    requires RoutineEnabled(s, a) && c in NextRoutine(cfg, s, a).callers
    ensures c in s.callers
    ensures NextRoutine(cfg, s, a).callers[c].outcomes
      == s.callers[c].outcomes
         + if a.Respond? && s.routines[a.reqId].req.call == c then [s.routines[a.reqId].pc.response] else []
  {}

  /** Everything a call ever recorded as the outcome of an attempt was such an outcome. */
  lemma {:induction false} OutcomesAreTraced(cfg: Config, states: seq<State>, actions: seq<Action>, k: nat, c: nat)
    requires IsRun(cfg, states, actions) && k <= |actions| && c in states[k].callers
    ensures forall o | o in states[k].callers[c].outcomes :: OutcomeTraced(actions, k, states[k].submitted, c, o)
    decreases k
  {
    if k > 0 {
      assert StepAt(cfg, states, actions, k - 1);
      var s, a, s' := states[k - 1], actions[k - 1], states[k];
      StepPushes(cfg, s, a);
      forall o | o in s'.callers[c].outcomes ensures OutcomeTraced(actions, k, s'.submitted, c, o) {
        if c in s.callers && o in s.callers[c].outcomes {
          OutcomesAreTraced(cfg, states, actions, k - 1, c);
          TracedLater(actions, k - 1, s.submitted, s'.submitted, c, o);
        } else {
          NewOutcomeIsTraced(cfg, states, actions, k - 1, c, o);
        }
      }
    }
  }

  lemma NewOutcomeIsTraced(cfg: Config, states: seq<State>, actions: seq<Action>, k: nat, c: nat, o: Outcome)
    requires IsRun(cfg, states, actions) && k < |actions| && c in states[k + 1].callers
    requires o in states[k + 1].callers[c].outcomes && (c in states[k].callers ==> o !in states[k].callers[c].outcomes)
    ensures OutcomeTraced(actions, k + 1, states[k + 1].submitted, c, o)
  {
    assert StepAt(cfg, states, actions, k);
    match actions[k]
    case ByCaller(step) =>
      CallerStepRecords(cfg, states[k], step, c);
      assert SubmissionFailed(actions, k + 1, c, o);
    case ByRoutine(step) =>
      RoutineStepRecords(cfg, states[k], step, c);
      SendersFinished(cfg, states, actions, k);
      InvariantHolds(cfg, states, actions, k);
      assert RoutineOk(states[k], step.reqId) && Finished(actions, k, step.reqId, o);
      assert Finished(actions, k + 1, step.reqId, o) && states[k + 1].submitted[step.reqId].call == c;
    case _ =>
  }

  /** A call returns a payload only if a worker answered one of its own requests with it. */
  lemma SuccessesComeFromWorkers(cfg: Config, states: seq<State>, actions: seq<Action>, k: nat, c: nat, payload: string)
    requires IsRun(cfg, states, actions) && k <= |actions| && c in states[k].callers
    requires states[k].callers[c].pc == Returned(Ok(payload))
    ensures exists id :: 0 <= id < |states[k].submitted| && states[k].submitted[id].call == c
                         && Finished(actions, k, id, Ok(payload))
  {
    InvariantHolds(cfg, states, actions, k);
    var caller := states[k].callers[c];
    assert CallerOk(cfg, caller);
    assert Ok(payload) in caller.outcomes;
    OutcomesAreTraced(cfg, states, actions, k, c);
  }

  // ---------------------------------------------------------------- from the worker to the caller

  /** The routine still holds this response, or has handed it over. */
  predicate Holds(s: State, id: nat, o: Outcome) {
    id in s.routines ==> s.routines[id].pc == Sending(o) || s.routines[id].pc.Answered?
  }

  lemma HoldsStep(cfg: Config, s: State, a: Action, id: nat, o: Outcome)
    requires Enabled(cfg, s, a) && Fifo(s) && id < Popped(s) && Holds(s, id, o)
    ensures id < Popped(Next(cfg, s, a)) && Holds(Next(cfg, s, a), id, o)
  {
    match a
    case ByCaller(step) =>
      var s' := NextCaller(cfg, s, step);
      assert Popped(s') == Popped(s) && s'.routines == s.routines;
    case ByScheduler(step) => HoldsByScheduler(cfg, s, step, id, o);
    case ByRoutine(step) => assert Popped(NextRoutine(cfg, s, step)) == Popped(s);
    case ByFleet(step) =>
      var s' := NextFleet(cfg, s, step);
      assert Popped(s') == Popped(s) && s'.routines == s.routines;
  }

  lemma HoldsByScheduler(cfg: Config, s: State, a: SchedulerStep, id: nat, o: Outcome)
    requires SchedulerEnabled(cfg, s, a) && Fifo(s) && id < Popped(s) && Holds(s, id, o)
    ensures id < Popped(NextScheduler(cfg, s, a)) && Holds(NextScheduler(cfg, s, a), id, o)
  {
    if a.Pop? {
      assert s.scheduler.req.id == Popped(s);
    }
  }

  lemma {:induction false} ResponseIsKept(cfg: Config, states: seq<State>, actions: seq<Action>, j: nat, k: nat,
                                          id: nat, o: Outcome)
    requires IsRun(cfg, states, actions) && j < k <= |actions| && actions[j] == ByRoutine(Finish(id, o))
    ensures id < Popped(states[k]) && Holds(states[k], id, o)
    decreases k
  {
    assert StepAt(cfg, states, actions, k - 1);
    InvariantHolds(cfg, states, actions, k - 1);
    if k == j + 1 {
      assert RoutineOk(states[j], id);
      assert Popped(NextRoutine(cfg, states[j], Finish(id, o))) == Popped(states[j]);
    } else {
      ResponseIsKept(cfg, states, actions, j, k - 1, id, o);
      HoldsStep(cfg, states[k - 1], actions[k - 1], id, o);
    }
  }

  /** What the worker answered is what the caller gets: when the routine responds, the answer becomes the
      last outcome of the call that pushed the request. */
  lemma AnswersReachTheirCaller(cfg: Config, states: seq<State>, actions: seq<Action>, j: nat, k: nat, id: nat,
                                o: Outcome)
    requires IsRun(cfg, states, actions) && j < k < |actions|
    requires actions[j] == ByRoutine(Finish(id, o)) && actions[k] == ByRoutine(Respond(id))
    ensures id < |states[k].submitted|
    ensures var c := states[k].submitted[id].call;
      && c in states[k].callers && c in states[k + 1].callers
      && states[k + 1].callers[c].outcomes == states[k].callers[c].outcomes + [o]
      && (o.Ok? ==> states[k + 1].callers[c].pc == Returned(o))
  {
    assert StepAt(cfg, states, actions, k);
    InvariantHolds(cfg, states, actions, k);
    ResponseIsKept(cfg, states, actions, j, k, id, o);
    assert RoutineOk(states[k], id);
  }

  // ---------------------------------------------------------------- placements

  /** The row names an instance of its function that was running in the given state, and its address. */
  ghost predicate RanAt(s: State, row: Row) {
    exists x :: x in s.fleet.instances && x.service == row.service && x.ipv4 == row.ipv4 && x.func == row.func
                && x.lastStatus == "RUNNING"
  }

  ghost predicate Ran(states: seq<State>, k: nat, row: Row)
    requires k < |states|
  {
    exists m :: 0 <= m <= k && RanAt(states[m], row)
  }

  ghost predicate ListRan(states: seq<State>, k: nat, func: string, instances: seq<Instance>)
    requires k < |states|
  {
    exists m :: 0 <= m <= k && instances == RunningOf(states[m].fleet.instances, func)
  }

  ghost predicate Located(states: seq<State>, k: nat)
    requires k < |states|
  {
    var s := states[k];
    && (s.scheduler.SawInstances? ==> ListRan(states, k, s.scheduler.req.func, s.scheduler.instances))
    && (HoldsRow(s.scheduler) ==> Ran(states, k, s.scheduler.row))
    && (forall row | row in s.rows :: Ran(states, k, row))
    && (forall id | id in s.routines :: Ran(states, k, s.routines[id].row))
  }

  lemma RanLater(states: seq<State>, k: nat, row: Row)
    requires k + 1 < |states| && Ran(states, k, row)
    ensures Ran(states, k + 1, row)
  {
    var m :| 0 <= m <= k && RanAt(states[m], row);
  }

  lemma ChosenRan(cfg: Config, states: seq<State>, k: nat, x: Instance)
    requires k < |states| && Located(states, k) && states[k].scheduler.SawInstances?
    requires SchedulerEnabled(cfg, states[k], ReadRows(true, Some(x)))
    ensures Ran(states, k, Placed(states[k].scheduler.req, x))
  {
    var req, instances := states[k].scheduler.req, states[k].scheduler.instances;
    var m :| 0 <= m <= k && instances == RunningOf(states[m].fleet.instances, req.func);
    assert RanAt(states[m], Placed(req, x));
  }

  lemma LocatedByScheduler(cfg: Config, states: seq<State>, k: nat, a: SchedulerStep)
    requires k + 1 < |states| && Located(states, k)
    requires SchedulerEnabled(cfg, states[k], a) && states[k + 1] == NextScheduler(cfg, states[k], a)
    ensures Located(states, k + 1)
  {
    var s, s' := states[k], states[k + 1];
    if a.ReadInstances? && a.ok {
      assert s'.fleet == s.fleet;
      assert s'.scheduler.instances == RunningOf(states[k + 1].fleet.instances, s'.scheduler.req.func);
    }
    if a.ReadRows? && a.ok && a.choice.Some? {
      ChosenRan(cfg, states, k, a.choice.value);
    }
    if HoldsRow(s'.scheduler) {
      RanLater(states, k, s'.scheduler.row);
    }
    forall row | row in s'.rows ensures Ran(states, k + 1, row) {
      RanLater(states, k, row);
    }
    forall id | id in s'.routines ensures Ran(states, k + 1, s'.routines[id].row) {
      RanLater(states, k, s'.routines[id].row);
    }
  }

  lemma LocatedFrame(states: seq<State>, k: nat)
    requires k + 1 < |states| && Located(states, k) && states[k + 1].scheduler == states[k].scheduler
    requires forall row | row in states[k + 1].rows :: row in states[k].rows
    requires forall id | id in states[k + 1].routines ::
      id in states[k].routines && states[k + 1].routines[id].row == states[k].routines[id].row
    ensures Located(states, k + 1)
  {
    var s' := states[k + 1];
    if s'.scheduler.SawInstances? {
      var m :| 0 <= m <= k && s'.scheduler.instances == RunningOf(states[m].fleet.instances, s'.scheduler.req.func);
    }
    if HoldsRow(s'.scheduler) {
      RanLater(states, k, s'.scheduler.row);
    }
    forall row | row in s'.rows ensures Ran(states, k + 1, row) {
      RanLater(states, k, row);
    }
    forall id | id in s'.routines ensures Ran(states, k + 1, s'.routines[id].row) {
      assert id in states[k].routines && Ran(states, k, states[k].routines[id].row);
      RanLater(states, k, s'.routines[id].row);
    }
  }

  lemma LocatedStep(cfg: Config, states: seq<State>, actions: seq<Action>, k: nat)
    requires IsRun(cfg, states, actions) && k < |actions| && Located(states, k)
    ensures Located(states, k + 1)
  {
    assert StepAt(cfg, states, actions, k);
    var s, s' := states[k], states[k + 1];
    match actions[k]
    case ByScheduler(step) => LocatedByScheduler(cfg, states, k, step);
    case ByCaller(step) => LocatedFrame(states, k);
    case ByRoutine(step) => LocatedFrame(states, k);
    case ByFleet(step) => LocatedFrame(states, k);
  }

  lemma {:induction false} AllLocated(cfg: Config, states: seq<State>, actions: seq<Action>, k: nat)
    requires IsRun(cfg, states, actions) && k < |states|
    ensures Located(states, k)
    decreases k
  {
    if k > 0 {
      AllLocated(cfg, states, actions, k - 1);
      LocatedStep(cfg, states, actions, k - 1);
    }
  }

  /** The row is that of the request submitted under its id, field by field. */
  predicate Carries(row: Row, submitted: seq<Request>) {
    && row.reqId < |submitted|
    && var req := submitted[row.reqId];
       row.func == req.func && row.payload == req.payload && row.cpu == req.cpu && row.memory == req.memory
  }

  /** Every placement row and every call routine carries the request as it was submitted, and goes to an
      instance, and the address of that instance, that was running its function at some earlier moment. */
  lemma RequestsGoToRunningInstances(cfg: Config, states: seq<State>, actions: seq<Action>, k: nat)
    requires IsRun(cfg, states, actions) && k < |states|
    ensures forall row | row in states[k].rows :: Carries(row, states[k].submitted) && Ran(states, k, row)
    ensures forall id | id in states[k].routines ::
      var routine := states[k].routines[id];
      && routine.row.reqId == id && Carries(routine.row, states[k].submitted) && Ran(states, k, routine.row)
      && routine.req == states[k].submitted[id]
  {
    InvariantHolds(cfg, states, actions, k);
    AllLocated(cfg, states, actions, k);
    var s := states[k];
    forall row | row in s.rows ensures Carries(row, s.submitted) {
      assert s.dispatched[row.reqId] == s.submitted[row.reqId];
    }
    forall id | id in s.routines
      ensures s.routines[id].row.reqId == id && Carries(s.routines[id].row, s.submitted)
      ensures s.routines[id].req == s.submitted[id]
    {
      assert RoutineOk(s, id) && s.dispatched[id] == s.submitted[id];
    }
  }
}
