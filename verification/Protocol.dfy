/** The protocol of the scheduler, its callers and the fleet, one step per interaction.

    A step is the smallest stretch of one goroutine that another goroutine can observe: a table
    query, a table update, a queue operation, or a hand-over on a channel. */
module Protocol {
  import opened Types
  import opened Tables
  import opened Placement
  import opened Fleet
  import opened FleetProofs

  datatype Config = Config(policy: Policy, maxRetry: int, pools: Pools)

  // ---------------------------------------------------------------- goroutines

  /** Where CallFunction is: at the head of its retry loop, blocked on the trigger channel, blocked
      on its response channel, or back at its caller.  `attempt` is the loop counter. */
  datatype CallerPc =
    | AtLoop(attempt: int)
    | AtTrigger(attempt: int, reqId: nat)
    | AtReceive(attempt: int, reqId: nat)
    | Returned(result: Outcome)

  /** `outcomes` is the history of the attempts that ended. */
  datatype Caller = Caller(func: string, payload: string, cpu: int, memory: int, pc: CallerPc, outcomes: seq<Outcome>)

  /** Where the one scheduling routine is inside ScheduleRoutine and Schedule. */
  datatype SchedulerPc =
    | Idle
    | Woken
    | Peeked(req: Request)
    | SawInstances(req: Request, instances: seq<Instance>)
    | Chose(req: Request, row: Row)
    | Inserted(req: Request, row: Row)

  /** Where the routine that calls the worker is: calling, sending the response, or past the send
      and about to delete its row. */
  datatype RoutinePc = Calling | Sending(response: Outcome) | Answered

  datatype Routine = Routine(req: Request, row: Row, pc: RoutinePc)

  /** Where AsyncDeleteFuncInstance is for a removed service.  `late` counts the rows inserted on the
      service since its removal; `exposed` is 1 if the scheduler already held the service at that
      moment, in its list of instances or as its choice, and 0 otherwise.  Both are history. */
  datatype DrainPc = Polling | Confirmed | Deleted
  datatype Drain = Drain(pc: DrainPc, exposed: nat, late: nat)

  datatype State = State(
    callers: map<nat, Caller>,
    queue: seq<Request>,
    scheduler: SchedulerPc,
    routines: map<nat, Routine>,
    rows: seq<Row>,
    fleet: Fleet,
    drains: map<nat, Drain>,
    submitted: seq<Request>,   // history: every request ever pushed
    dispatched: seq<Request>)  // history: every request ever entered in the placement table

  /** The start of the server: the placement table was just emptied; instances may exist. */
  ghost predicate Initial(cfg: Config, s: State) {
    && s.callers == map[] && s.queue == [] && s.scheduler == Idle && s.routines == map[] && s.rows == []
    && s.drains == map[] && s.submitted == [] && s.dispatched == []
    && FleetOk(s.fleet) && s.fleet.removed == [] && Bounded(s.fleet, cfg.pools)
  }

  // ---------------------------------------------------------------- steps

  /** Steps of CallFunction and SubmitRequest. */
  datatype CallerStep =
    | Call(c: nat, func: string, payload: string, cpu: int, memory: int)
    | GiveUp(c: nat)
    | FailSubmit(c: nat, error: string)
    | Submit(c: nat)

  /** Steps of ScheduleRoutine and Schedule; `ok` says whether the query or update works. */
  datatype SchedulerStep =
    | Trigger(c: nat)
    | Tick
    | Peek
    | ReadInstances(ok: bool)
    | ReadRows(ok: bool, choice: Option<Instance>)
    | Insert(ok: bool)
    | Pop

  /** Steps of CallInstanceFunctionRoutine; `Respond` is the hand-over to the caller. */
  datatype RoutineStep =
    | Finish(reqId: nat, response: Outcome)
    | Respond(reqId: nat)
    | DeleteRow(reqId: nat, ok: bool)

  /** Steps of the fleet manager: creation, scaling, deletion, status refresh, and the drain routines. */
  datatype FleetStep =
    | CreateFn(func: string, specs: seq<Spec>, result: Result)
    | ScaleFn(request: ScaleRequest, result: Result)
    | DeleteFn(func: string, readOk: bool, metaOk: bool)
    | Refresh(instances: seq<Instance>)
    | Poll(service: nat, ok: bool)
    | DeleteService(service: nat)

  datatype Action =
    | ByCaller(caller: CallerStep)
    | ByScheduler(scheduler: SchedulerStep)
    | ByRoutine(routine: RoutineStep)
    | ByFleet(fleet: FleetStep)

  const GAVE_UP := "call function failed"

  predicate Waiting(pc: CallerPc) {
    pc.AtTrigger? || pc.AtReceive?
  }

  predicate Unanswered(routine: Routine) {
    !routine.pc.Answered?
  }

  /** The running instances of a function, in table order. */
  function RunningOf(instances: seq<Instance>, func: string): (r: seq<Instance>)
    ensures forall x :: x in r <==> x in instances && x.func == func && x.lastStatus == RUNNING
  {
    if instances == [] then []
    else
      var last := instances[|instances| - 1];
      RunningOf(instances[..|instances| - 1], func)
      + if last.func == func && last.lastStatus == RUNNING then [last] else []
  }

  predicate Looping(s: State, c: nat) {
    c in s.callers && s.callers[c].pc.AtLoop?
  }

  predicate CallerEnabled(cfg: Config, s: State, a: CallerStep) {
    match a
    case Call(c, _, _, _, _) => c !in s.callers
    case GiveUp(c) => Looping(s, c) && s.callers[c].pc.attempt >= cfg.maxRetry
    case FailSubmit(c, _) => Looping(s, c) && s.callers[c].pc.attempt < cfg.maxRetry
    case Submit(c) => Looping(s, c) && s.callers[c].pc.attempt < cfg.maxRetry
  }

  ghost predicate SchedulerEnabled(cfg: Config, s: State, a: SchedulerStep) {
    match a
    case Trigger(c) => c in s.callers && s.callers[c].pc.AtTrigger? && s.scheduler.Idle?
    case Tick => s.scheduler.Idle?
    case Peek => s.scheduler.Woken?
    case ReadInstances(_) => s.scheduler.Peeked?
    case ReadRows(ok, choice) =>
      && s.scheduler.SawInstances?
      && (ok ==> Chooses(cfg.policy, s.scheduler.req, RowsOfFunction(s.rows, s.scheduler.req.func),
                         s.scheduler.instances, choice))
    case Insert(_) => s.scheduler.Chose?
    case Pop => s.scheduler.Inserted?
  }

  predicate RoutineEnabled(s: State, a: RoutineStep) {
    match a
    case Finish(id, _) => id in s.routines && s.routines[id].pc.Calling?
    case Respond(id) =>
      && id in s.routines && s.routines[id].pc.Sending?
      && s.routines[id].req.call in s.callers && s.callers[s.routines[id].req.call].pc.AtReceive?
    case DeleteRow(id, _) => id in s.routines && s.routines[id].pc.Answered?
  }

  ghost predicate FleetEnabled(s: State, a: FleetStep) {
    match a
    case CreateFn(_, specs, _) => forall spec | spec in specs :: spec.minReplica >= 0
    case ScaleFn(_, _) => true
    case DeleteFn(_, _, _) => true
    case Refresh(instances) => Refreshed(s.fleet.instances, instances)
    case Poll(service, _) => service in s.drains && s.drains[service].pc.Polling?
    case DeleteService(service) => service in s.drains && s.drains[service].pc.Confirmed?
  }

  ghost predicate Enabled(cfg: Config, s: State, a: Action) {
    match a
    case ByCaller(step) => CallerEnabled(cfg, s, step)
    case ByScheduler(step) => SchedulerEnabled(cfg, s, step)
    case ByRoutine(step) => RoutineEnabled(s, step)
    case ByFleet(step) => FleetEnabled(s, step)
  }

  /** The caller after an attempt ended: return a success, or the error if no attempt is left. */
  function EndAttempt(cfg: Config, caller: Caller, outcome: Outcome): Caller
    requires !caller.pc.Returned?
  {
    var next := if outcome.Ok? || caller.pc.attempt >= cfg.maxRetry - 1 then Returned(outcome)
                else AtLoop(caller.pc.attempt + 1);
    caller.(pc := next, outcomes := caller.outcomes + [outcome])
  }

  function NewRequest(s: State, c: nat): Request
    requires c in s.callers
  {
    var caller := s.callers[c];
    Request(|s.submitted|, c, caller.func, caller.payload, caller.cpu, caller.memory)
  }

  /** 1 if the scheduler may still place its request on the service without reading the table of
      instances again. */
  function Flight(scheduler: SchedulerPc, service: nat): nat {
    match scheduler
    case SawInstances(_, instances) =>
      if exists i :: 0 <= i < |instances| && instances[i].service == service then 1 else 0
    case Chose(_, row) => if row.service == service then 1 else 0
    case _ => 0
  }

  /** A scaling took place: each service it removed gets a drain. */
  function SetFleet(s: State, fleet: Fleet): State
    requires s.fleet.removed <= fleet.removed
  {
    var gone := fleet.removed[|s.fleet.removed|..];
    s.(fleet := fleet,
       drains := s.drains + map service | service in gone :: Drain(Polling, Flight(s.scheduler, service), 0))
  }

  function InsertRow(s: State, req: Request, row: Row): State {
    s.(rows := s.rows + [row],
       dispatched := s.dispatched + [req],
       scheduler := Inserted(req, row),
       drains := if row.service !in s.drains then s.drains
                 else s.drains[row.service := s.drains[row.service].(late := s.drains[row.service].late + 1)])
  }

  function NextCaller(cfg: Config, s: State, a: CallerStep): State
    requires CallerEnabled(cfg, s, a)
  {
    match a
    case Call(c, func, payload, cpu, memory) =>
      s.(callers := s.callers[c := Caller(func, payload, cpu, memory, AtLoop(0), [])])
    case GiveUp(c) =>
      s.(callers := s.callers[c := s.callers[c].(pc := Returned(Err(GAVE_UP)))])
    case FailSubmit(c, error) =>
      s.(callers := s.callers[c := EndAttempt(cfg, s.callers[c], Err(error))])
    case Submit(c) =>
      var req := NewRequest(s, c);
      s.(queue := s.queue + [req],
         submitted := s.submitted + [req],
         callers := s.callers[c := s.callers[c].(pc := AtTrigger(s.callers[c].pc.attempt, req.id))])
  }

  ghost function NextScheduler(cfg: Config, s: State, a: SchedulerStep): State
    requires SchedulerEnabled(cfg, s, a)
  {
    match a
    case Trigger(c) =>
      var pc := s.callers[c].pc;
      s.(scheduler := Woken, callers := s.callers[c := s.callers[c].(pc := AtReceive(pc.attempt, pc.reqId))])
    case Tick => s.(scheduler := Woken)
    case Peek => s.(scheduler := if s.queue == [] then Idle else Peeked(s.queue[0]))
    case ReadInstances(ok) =>
      var req := s.scheduler.req;
      s.(scheduler := if ok then SawInstances(req, RunningOf(s.fleet.instances, req.func)) else Idle)
    case ReadRows(ok, choice) =>
      var req := s.scheduler.req;
      s.(scheduler := if ok && choice.Some? then Chose(req, Placed(req, choice.value)) else Idle)
    case Insert(ok) =>
      if ok then InsertRow(s, s.scheduler.req, s.scheduler.row) else s.(scheduler := Idle)
    case Pop =>
      var req := s.scheduler.req;
      s.(queue := if s.queue == [] then [] else s.queue[1..],
         routines := s.routines[req.id := Routine(req, s.scheduler.row, Calling)],
         scheduler := Idle)
  }

  function NextRoutine(cfg: Config, s: State, a: RoutineStep): State
    requires RoutineEnabled(s, a)
  {
    match a
    case Finish(id, response) =>
      s.(routines := s.routines[id := s.routines[id].(pc := Sending(response))])
    case Respond(id) =>
      var c := s.routines[id].req.call;
      s.(routines := s.routines[id := s.routines[id].(pc := Answered)],
         callers := s.callers[c := EndAttempt(cfg, s.callers[c], s.routines[id].pc.response)])
    case DeleteRow(id, ok) =>
      s.(routines := s.routines - {id}, rows := if ok then WithoutRequest(s.rows, id) else s.rows)
  }

  function NextFleet(cfg: Config, s: State, a: FleetStep): State
    requires FleetEnabled(s, a)
  {
    match a
    case CreateFn(func, specs, result) =>
      s.(fleet := Create(s.fleet, cfg.pools, func, specs, result))
    case ScaleFn(request, result) =>
      SetFleet(s, Scale(s.fleet, cfg.pools, request, result))
    case DeleteFn(func, readOk, metaOk) =>
      s.(fleet := Delete(s.fleet, func, readOk, metaOk))
    case Refresh(instances) => s.(fleet := s.fleet.(instances := instances))
    case Poll(service, ok) =>
      if ok && RowsOnService(s.rows, service) == []
      then s.(drains := s.drains[service := s.drains[service].(pc := Confirmed)]) else s
    case DeleteService(service) =>
      s.(drains := s.drains[service := s.drains[service].(pc := Deleted)])
  }

  ghost function Next(cfg: Config, s: State, a: Action): State
    requires Enabled(cfg, s, a)
  {
    match a
    case ByCaller(step) => NextCaller(cfg, s, step)
    case ByScheduler(step) => NextScheduler(cfg, s, step)
    case ByRoutine(step) => NextRoutine(cfg, s, step)
    case ByFleet(step) => NextFleet(cfg, s, step)
  }

  // ---------------------------------------------------------------- runs

  ghost predicate StepAt(cfg: Config, states: seq<State>, actions: seq<Action>, k: int)
    requires 0 <= k < |actions| && |states| == |actions| + 1
  {
    Enabled(cfg, states[k], actions[k]) && states[k + 1] == Next(cfg, states[k], actions[k])
  }

  /** A run from the start of the server: any interleaving of the steps of all goroutines. */
  ghost predicate IsRun(cfg: Config, states: seq<State>, actions: seq<Action>) {
    && |states| == |actions| + 1
    && Initial(cfg, states[0])
    && forall k | 0 <= k < |actions| :: StepAt(cfg, states, actions, k)
  }
}
