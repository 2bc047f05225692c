/** Runs that show why the hypotheses of the main results are there. */
module Witnesses {
  import opened Types
  import opened Tables
  import opened Placement
  import opened Fleet
  import opened FleetProofs
  import opened Protocol
  import opened Safety
  import opened Runs

  /** A run under construction, with its last state. */
  ghost predicate RunTo(cfg: Config, states: seq<State>, actions: seq<Action>, s: State) {
    IsRun(cfg, states, actions) && states[|states| - 1] == s
  }

  lemma Extend(cfg: Config, states: seq<State>, actions: seq<Action>, s: State, a: Action)
    returns (states': seq<State>, actions': seq<Action>, s': State)
    requires RunTo(cfg, states, actions, s) && Enabled(cfg, s, a)
    ensures s' == Next(cfg, s, a) && actions' == actions + [a] && states' == states + [s']
    ensures RunTo(cfg, states', actions', s')
  {
    s' := Next(cfg, s, a);
    states', actions' := states + [s'], actions + [a];
    forall k | 0 <= k < |actions'| ensures StepAt(cfg, states', actions', k) {
      if k < |actions| {
        assert StepAt(cfg, states, actions, k);
      }
    }
  }

  // ---------------------------------------------------------------- one node

  const FUNC := "f"
  const CONFIG := Config(BasePolicy, 3, Pools(Fargate, Fargate))

  function Node(shape: Shape): Instance {
    Instance(0, FUNC, shape, Fargate, "task", "10.0.0.1", RUNNING, RUNNING)
  }

  /** One running instance, which the limits allow to be removed. */
  function Start(shape: Shape): State {
    State(map[], [], Idle, map[], [],
          Fleet(map[FUNC := [Spec(shape, 0, 1)]], [Node(shape)], [Node(shape)], [], {}),
          map[], [], [])
  }

  lemma OneInstance(x: Instance)
    ensures forall pools :: Tally([x], x.func, x.shape, pools) == One(x, x.func, x.shape, pools)
    ensures Matching([x], x.func, x.shape) == [x] && WithoutService([x], x.service) == []
    ensures x.lastStatus == RUNNING ==> RunningOf([x], x.func) == [x]
  {
    assert [x][..0] == [];
  }

  lemma StartIsInitial(shape: Shape)
    ensures RunTo(CONFIG, [Start(shape)], [], Start(shape))
  {
    OneInstance(Node(shape));
    var s := Start(shape);
    assert s.fleet.meta[FUNC][0].shape == shape;
    forall func, spec | func in s.fleet.meta && ValidSpecs(s.fleet.meta[func]) && spec in s.fleet.meta[func]
      ensures SpecBounded(s.fleet, CONFIG.pools, func, spec)
    {
      assert spec == Spec(shape, 0, 1);
    }
  }

  function RowFor(id: nat, cpu: int, memory: int): Row { Row(id, "", FUNC, 0, "10.0.0.1", cpu, memory) }

  function CalledFor(id: nat, cpu: int, memory: int): Caller {
    Caller(FUNC, "", cpu, memory, AtReceive(0, id), [])
  }

  function RequestFor(id: nat, cpu: int, memory: int): Request { Request(id, id, FUNC, "", cpu, memory) }

  /** Nothing is queued, and the next request is number `id`, of a caller with that number. */
  ghost predicate Quiet(shape: Shape, s: State, id: nat) {
    && s.scheduler == Idle && s.queue == [] && |s.submitted| == id && id !in s.callers
    && s.fleet == Start(shape).fleet && s.drains == map[]
    && RowsOfFunction(s.rows, FUNC) == s.rows
  }

  /** The state after a request was submitted, up to the given phase of the scheduler. */
  function Submitted(s: State, id: nat, cpu: int, memory: int, scheduler: SchedulerPc): State {
    s.(callers := s.callers[id := CalledFor(id, cpu, memory)],
       queue := [RequestFor(id, cpu, memory)],
       submitted := s.submitted + [RequestFor(id, cpu, memory)],
       scheduler := scheduler)
  }

  lemma TriggerOne(shape: Shape, states: seq<State>, actions: seq<Action>, s: State, id: nat, cpu: int, memory: int)
    returns (states': seq<State>, actions': seq<Action>)
    requires RunTo(CONFIG, states, actions, s) && Quiet(shape, s, id)
    ensures RunTo(CONFIG, states', actions', Submitted(s, id, cpu, memory, Woken))
  {
    var s';
    states', actions', s' := Extend(CONFIG, states, actions, s, ByCaller(Call(id, FUNC, "", cpu, memory)));
    states', actions', s' := Extend(CONFIG, states', actions', s', ByCaller(Submit(id)));
    states', actions', s' := Extend(CONFIG, states', actions', s', ByScheduler(Trigger(id)));
    assert s'.callers == s.callers[id := CalledFor(id, cpu, memory)];
    assert s'.queue == [RequestFor(id, cpu, memory)];
  }

  /** Call, submit and trigger, up to the scheduler's read of the instances. */
  lemma SubmitOne(shape: Shape, states: seq<State>, actions: seq<Action>, s: State, id: nat, cpu: int, memory: int)
    returns (states': seq<State>, actions': seq<Action>, s': State)
    requires RunTo(CONFIG, states, actions, s) && Quiet(shape, s, id)
    ensures RunTo(CONFIG, states', actions', s')
    ensures s' == Submitted(s, id, cpu, memory, SawInstances(RequestFor(id, cpu, memory), [Node(shape)]))
  {
    OneInstance(Node(shape));
    states', actions' := TriggerOne(shape, states, actions, s, id, cpu, memory);
    s' := Submitted(s, id, cpu, memory, Woken);
    states', actions', s' := Extend(CONFIG, states', actions', s', ByScheduler(Peek));
    states', actions', s' := Extend(CONFIG, states', actions', s', ByScheduler(ReadInstances(true)));
  }

  // ---------------------------------------------------------------- scale-down inside Schedule

  const SHAPE := Shape(10, 10)
  const DOWN := ScaleRequest(FUNC, SHAPE, -1)

  lemma ScaleDownRemovesTheNode()
    ensures Scale(Start(SHAPE).fleet, CONFIG.pools, DOWN, Works) == Start(SHAPE).fleet.(instances := [], removed := [0])
  {
    OneInstance(Node(SHAPE));
    var fleet, specs := Start(SHAPE).fleet, [Spec(SHAPE, 0, 1)];
    assert Limits(specs, SHAPE) == (0, 1);
    assert Change(fleet, DOWN) == -1;
    assert [Node(SHAPE)][1..] == [];
    assert RemoveCold(fleet, [Node(SHAPE)], Fargate, 1) == RemoveService(fleet, 0);
  }

  /** With Schedule split around a scale-down, a request can be placed on a service after its removal
      and still be unanswered when the service is deleted. */
  lemma SplitScheduleCanLoseAService() returns (states: seq<State>, actions: seq<Action>, s: State)
    ensures RunTo(CONFIG, states, actions, s)
    ensures 0 in s.drains && s.drains[0].pc.Deleted?
    ensures 0 in s.routines && Unanswered(s.routines[0]) && s.routines[0].row.service == 0
  {
    StartIsInitial(SHAPE);
    states, actions, s := SubmitOne(SHAPE, [Start(SHAPE)], [], Start(SHAPE), 0, 1, 1);
    ghost var seen := s;
    ScaleDownRemovesTheNode();
    states, actions, s := Extend(CONFIG, states, actions, s, ByFleet(ScaleFn(DOWN, Works)));
    states, actions, s := Extend(CONFIG, states, actions, s, ByFleet(Poll(0, true)));
    states, actions, s := Extend(CONFIG, states, actions, s, ByFleet(DeleteService(0)));
    assert s.scheduler == seen.scheduler && s.rows == [] && s.drains[0].pc == Deleted;
    states, actions, s := ExtendByPlacing(states, actions, s);
  }

  lemma ExtendByPlacing(states: seq<State>, actions: seq<Action>, s: State)
    returns (states': seq<State>, actions': seq<Action>, s': State)
    requires RunTo(CONFIG, states, actions, s)
    requires s.scheduler == SawInstances(RequestFor(0, 1, 1), [Node(SHAPE)]) && s.rows == []
    requires 0 in s.drains && s.drains[0].pc == Deleted
    ensures RunTo(CONFIG, states', actions', s')
    ensures 0 in s'.drains && s'.drains[0].pc.Deleted?
    ensures 0 in s'.routines && Unanswered(s'.routines[0]) && s'.routines[0].row.service == 0
  {
    var choose := ByScheduler(ReadRows(true, Some(Node(SHAPE))));
    states', actions', s' := Extend(CONFIG, states, actions, s, choose);
    states', actions', s' := Extend(CONFIG, states', actions', s', ByScheduler(Insert(true)));
    states', actions', s' := Extend(CONFIG, states', actions', s', ByScheduler(Pop));
  }

  // ---------------------------------------------------------------- scale-down after a broken creation

  /** From any state, creating any function with valid specs may break off after it was registered;
      then every scale-down of a spec with a positive minimum creates that minimum of instances. */
  lemma BrokenCreationTurnsScaleDownUp(cfg: Config, states: seq<State>, actions: seq<Action>, s: State,
                                       func: string, specs: seq<Spec>, spec: Spec, count: int)
    returns (states': seq<State>, actions': seq<Action>, s': State)
    requires RunTo(cfg, states, actions, s) && func !in s.fleet.meta
    requires ValidSpecs(specs) && spec in specs && spec.minReplica > 0 && count < 0
    ensures actions' == actions + [ByFleet(CreateFn(func, specs, CreateFails)),
                                   ByFleet(ScaleFn(ScaleRequest(func, spec.shape, count), Works))]
    ensures RunTo(cfg, states', actions', s')
    ensures Count(s.fleet.instances, func, spec.shape) == 0 < spec.minReplica
         == Count(s'.fleet.instances, func, spec.shape)
  {
    states', actions', s' := Extend(cfg, states, actions, s, ByFleet(CreateFn(func, specs, CreateFails)));
    InvariantHolds(cfg, states, actions, |states| - 1);
    InvariantHolds(cfg, states', actions', |states'| - 1);
    assert s'.fleet == s.fleet.(meta := s.fleet.meta[func := specs]);
    var req := ScaleRequest(func, spec.shape, count);
    FirstScaleDown(s'.fleet, cfg.pools, req, spec);
    states', actions', s' := Extend(cfg, states', actions', s', ByFleet(ScaleFn(req, Works)));
  }

  lemma FirstScaleDown(fleet: Fleet, pools: Pools, req: ScaleRequest, spec: Spec)
    requires FleetOk(fleet) && req.func in fleet.meta && req.count < 0
    requires ValidSpecs(fleet.meta[req.func]) && spec in fleet.meta[req.func] && spec.shape == req.shape
    requires forall x | x in fleet.instances :: x.func != req.func
    ensures Count(fleet.instances, req.func, req.shape) == 0
    ensures Count(Scale(fleet, pools, req, Works).instances, req.func, req.shape) == spec.minReplica
  {
    TallyZero(fleet.instances, req.func, req.shape, ALL_POOLS);
    TallyZero(fleet.instances, req.func, req.shape, {pools.cold});
    ChangeOfSpec(fleet, req, spec);
    ScaleTally(fleet, pools, req, Works, req.func, req.shape, ALL_POOLS);
    AnyPool(pools.cold);
  }

  // ---------------------------------------------------------------- negative demands

  /** Place one request on the only node. */
  lemma PlaceOne(shape: Shape, states: seq<State>, actions: seq<Action>, s: State, id: nat, cpu: int, memory: int)
    returns (states': seq<State>, actions': seq<Action>, s': State)
    requires RunTo(CONFIG, states, actions, s) && Quiet(shape, s, id)
    requires Fits(RequestFor(id, cpu, memory), s.rows, Node(shape))
    ensures RunTo(CONFIG, states', actions', s')
    ensures var row, req := RowFor(id, cpu, memory), RequestFor(id, cpu, memory);
      s' == s.(callers := s.callers[id := CalledFor(id, cpu, memory)],
               routines := s.routines[id := Routine(req, row, Calling)],
               rows := s.rows + [row],
               submitted := s.submitted + [req],
               dispatched := s.dispatched + [req])
  {
    states', actions', s' := SubmitOne(shape, states, actions, s, id, cpu, memory);
    assert BestFit(RequestFor(id, cpu, memory), s.rows, [Node(shape)], Node(shape));
    var choose := ByScheduler(ReadRows(true, Some(Node(shape))));
    states', actions', s' := Extend(CONFIG, states', actions', s', choose);
    states', actions', s' := Extend(CONFIG, states', actions', s', ByScheduler(Insert(true)));
    states', actions', s' := Extend(CONFIG, states', actions', s', ByScheduler(Pop));
  }

  lemma PlaceTwo(shape: Shape, cpu1: int, memory1: int, cpu2: int, memory2: int)
    returns (states: seq<State>, actions: seq<Action>, s: State)
    requires Within(cpu1, memory1, shape) && Within(cpu1 + cpu2, memory1 + memory2, shape)
    ensures RunTo(CONFIG, states, actions, s)
    ensures s.submitted == [RequestFor(0, cpu1, memory1), RequestFor(1, cpu2, memory2)]
    ensures s.rows == [RowFor(0, cpu1, memory1), RowFor(1, cpu2, memory2)] && s.fleet == Start(shape).fleet
    ensures 0 in s.callers && s.callers[0] == CalledFor(0, cpu1, memory1)
    ensures 0 in s.routines && s.routines[0].pc.Calling? && s.routines[0].req == RequestFor(0, cpu1, memory1)
  {
    var one := RowFor(0, cpu1, memory1);
    StartIsInitial(shape);
    states, actions, s := PlaceOne(shape, [Start(shape)], [], Start(shape), 0, cpu1, memory1);
    assert s.rows == [one] && [one][..0] == [];
    states, actions, s := PlaceOne(shape, states, actions, s, 1, cpu2, memory2);
  }

  /** Two requests that fit a node together are placed on it, and the first one completes. */
  lemma FirstLeaves(shape: Shape, cpu1: int, memory1: int, cpu2: int, memory2: int)
    returns (states: seq<State>, actions: seq<Action>, s: State)
    requires Within(cpu1, memory1, shape) && Within(cpu1 + cpu2, memory1 + memory2, shape)
    ensures RunTo(CONFIG, states, actions, s)
    ensures s.submitted == [RequestFor(0, cpu1, memory1), RequestFor(1, cpu2, memory2)]
    ensures s.rows == [RowFor(1, cpu2, memory2)] && s.fleet == Start(shape).fleet
  {
    states, actions, s := PlaceTwo(shape, cpu1, memory1, cpu2, memory2);
    OneOfTwoDeleted(s.rows[0], s.rows[1]);
    states, actions, s := Extend(CONFIG, states, actions, s, ByRoutine(Finish(0, Ok(""))));
    states, actions, s := Extend(CONFIG, states, actions, s, ByRoutine(Respond(0)));
    states, actions, s := Extend(CONFIG, states, actions, s, ByRoutine(DeleteRow(0, true)));
  }

  lemma OneOfTwoDeleted(one: Row, two: Row)
    requires one.reqId != two.reqId
    ensures WithoutRequest([one, two], one.reqId) == [two]
  {
    assert [one, two][..1] == [one] && [one][..0] == [];
    assert WithoutRequest([one], one.reqId) == [];
  }

  /** A negative demand makes room that is not there: if demands may go as low as `cpu` and `memory`,
      one of them negative, there is a run of such demands that exceeds the capacity of a node. */
  lemma NegativeDemandBreaksCapacity(cpu: int, memory: int)
    returns (states: seq<State>, actions: seq<Action>, s: State, r: Resource)
    requires cpu < 0 || memory < 0
    ensures RunTo(CONFIG, states, actions, s)
    ensures DemandsAtLeast(s, cpu, memory) && RealNodes(s)
    ensures !r.Tasks? && |s.fleet.created| > 0 && Load(s.rows, 0, r) > Capacity(s.fleet.created[0], r)
  {
    var c, m := Max(cpu, 0), Max(memory, 0);
    if cpu < 0 {
      var shape := Shape(1, 2 * m);
      states, actions, s := FirstLeaves(shape, cpu, m, 1 - cpu, m);
      r := Cpu;
    } else {
      var shape := Shape(2 * c, 1);
      states, actions, s := FirstLeaves(shape, c, memory, c, 1 - memory);
      r := Memory;
    }
    assert s.rows == [] + [s.rows[0]];
    LoadOfInsert([], s.rows[0], 0, r);
  }

  ghost predicate WithinNodes(s: State) {
    WithinCapacity(s, Cpu) && WithinCapacity(s, Memory)
  }

  /** Every run with demands of at least `cpu` and `memory` respects the capacity of every node. */
  ghost predicate SafeAbove(policy: Policy, cpu: int, memory: int) {
    forall cfg: Config, states: seq<State>, actions: seq<Action> |
      cfg.policy == policy && IsRun(cfg, states, actions) ::
      var s := states[|states| - 1];
      DemandsAtLeast(s, cpu, memory) && RealNodes(s) ==> WithinNodes(s)
  }

  /** The exact demands that are safe: any under the one-task policy, the non-negative ones under the
      base policy. */
  lemma SafeDemandsAreNonNegative(policy: Policy, cpu: int, memory: int)
    ensures SafeAbove(policy, cpu, memory) <==> policy.OneTaskPolicy? || (cpu >= 0 && memory >= 0)
  {
    if policy.OneTaskPolicy? || (cpu >= 0 && memory >= 0) {
      forall cfg: Config, states: seq<State>, actions: seq<Action> | cfg.policy == policy && IsRun(cfg, states, actions)
        ensures var s := states[|states| - 1];
          DemandsAtLeast(s, cpu, memory) && RealNodes(s) ==> WithinNodes(s)
      {
        var s := states[|states| - 1];
        if DemandsAtLeast(s, cpu, memory) && RealNodes(s) {
          forall service | 0 <= service < |s.fleet.created|
            ensures Load(s.rows, service, Cpu) <= Capacity(s.fleet.created[service], Cpu)
            ensures Load(s.rows, service, Memory) <= Capacity(s.fleet.created[service], Memory)
          {
            CapacityIsNeverExceeded(cfg, states, actions, |states| - 1, service);
          }
        }
      }
    } else {
      var states, actions, s, r := NegativeDemandBreaksCapacity(cpu, memory);
      assert !WithinCapacity(s, r);
    }
  }
}
