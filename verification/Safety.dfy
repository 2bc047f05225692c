/** Capacity and drain safety: what the table of instances and the placement table know of each
    other while scheduling, completion and scaling interleave. */
module Safety {
  import opened Types
  import opened Tables
  import opened Placement
  import opened Fleet
  import opened FleetProofs
  import opened Protocol
  import opened History

  // ---------------------------------------------------------------- slots

  /** The row is placed on an instance that was created for the same function. */
  predicate Slotted(fleet: Fleet, row: Row) {
    row.service < |fleet.created| && fleet.created[row.service].func == row.func
  }

  ghost predicate Known(fleet: Fleet, x: Instance) {
    x.service < |fleet.created| && SameSlot(x, fleet.created[x.service])
  }

  ghost predicate Slots(cfg: Config, s: State) {
    && FleetOk(s.fleet) && Bounded(s.fleet, cfg.pools)
    && (forall service :: service in s.drains <==> service in s.fleet.removed)
    && (forall row | row in s.rows :: Slotted(s.fleet, row))
    && (HoldsRow(s.scheduler) ==> Slotted(s.fleet, s.scheduler.row))
    && (s.scheduler.SawInstances? ==>
          forall x | x in s.scheduler.instances :: Known(s.fleet, x) && x.func == s.scheduler.req.func)
  }

  lemma SlotsByScheduler(cfg: Config, s: State, a: SchedulerStep)
    requires SchedulerEnabled(cfg, s, a) && Slots(cfg, s) && Fifo(s)
    ensures Slots(cfg, NextScheduler(cfg, s, a))
  {
    if a.ReadRows? && a.ok && a.choice.Some? {
      assert a.choice.value in s.scheduler.instances;
    }
  }

  /** Rows and lists stay slotted while the history of creations only grows. */
  lemma SlotsOfGrown(cfg: Config, s: State, s': State)
    requires Slots(cfg, s) && s'.rows == s.rows && s'.scheduler == s.scheduler
    requires FleetOk(s'.fleet) && Bounded(s'.fleet, cfg.pools) && Remembers(s.fleet, s'.fleet)
    requires forall service :: service in s'.drains <==> service in s'.fleet.removed
    ensures Slots(cfg, s')
  {}

  lemma SlotsByScaling(cfg: Config, s: State, request: ScaleRequest, result: Result)
    requires Slots(cfg, s)
    ensures var s' := NextFleet(cfg, s, ScaleFn(request, result));
      Slots(cfg, s') && Remembers(s.fleet, s'.fleet)
  {
    var after := Scale(s.fleet, cfg.pools, request, result);
    ScaleKeepsOk(s.fleet, cfg.pools, request, result);
    ScaleKeepsBounded(s.fleet, cfg.pools, request, result);
    assert after.removed == s.fleet.removed + after.removed[|s.fleet.removed|..];
    SlotsOfGrown(cfg, s, SetFleet(s, after));
  }

  lemma SlotsByFleet(cfg: Config, s: State, a: FleetStep)
    requires FleetEnabled(s, a) && Slots(cfg, s)
    ensures Slots(cfg, NextFleet(cfg, s, a)) && Remembers(s.fleet, NextFleet(cfg, s, a).fleet)
  {
    if a.ScaleFn? {
      SlotsByScaling(cfg, s, a.request, a.result);
    } else {
      match a {
        case CreateFn(func, specs, result) =>
          CreateKeepsOk(s.fleet, cfg.pools, func, specs, result);
          CreateKeepsBounded(s.fleet, cfg.pools, func, specs, result);
        case DeleteFn(func, readOk, metaOk) =>
          DeleteKeepsOk(s.fleet, func, readOk, metaOk);
          DeleteKeepsBounded(s.fleet, cfg.pools, func, readOk, metaOk);
        case Refresh(instances) =>
          RefreshKeepsOk(s.fleet, cfg.pools, instances);
        case _ =>
      }
      SlotsOfGrown(cfg, s, NextFleet(cfg, s, a));
    }
  }

  lemma SlotsFrame(cfg: Config, s: State, s': State)
    requires Slots(cfg, s)
    requires s'.fleet == s.fleet && s'.drains == s.drains && s'.scheduler == s.scheduler
    requires forall row | row in s'.rows :: row in s.rows
    ensures Slots(cfg, s')
  {}

  lemma SlotsStep(cfg: Config, s: State, a: Action)
    requires Enabled(cfg, s, a) && Slots(cfg, s) && Fifo(s)
    ensures Slots(cfg, Next(cfg, s, a))
  {
    match a
    case ByCaller(step) => SlotsFrame(cfg, s, NextCaller(cfg, s, step));
    case ByScheduler(step) => SlotsByScheduler(cfg, s, step);
    case ByRoutine(step) => SlotsFrame(cfg, s, NextRoutine(cfg, s, step));
    case ByFleet(step) => SlotsByFleet(cfg, s, step);
  }

  // ---------------------------------------------------------------- capacity

  ghost predicate DemandsAtLeast(s: State, cpu: int, memory: int) {
    forall req | req in s.submitted :: req.cpu >= cpu && req.memory >= memory
  }

  ghost predicate RealNodes(s: State) {
    forall x | x in s.fleet.created :: x.shape.cpu >= 0 && x.shape.memory >= 0
  }

  /** What callers and operators must respect, and the program does not check. */
  ghost predicate ValidInputs(s: State) {
    DemandsAtLeast(s, 0, 0) && RealNodes(s)
  }

  /** The resources whose capacity the policy respects: both resources on valid inputs, and under
      the one-task policy the number of tasks on any input. */
  ghost predicate Guarded(cfg: Config, s: State, r: Resource) {
    if r.Tasks? then cfg.policy.OneTaskPolicy? else ValidInputs(s)
  }

  ghost predicate WithinCapacity(s: State, r: Resource) {
    forall service | 0 <= service < |s.fleet.created| ::
      Load(s.rows, service, r) <= Capacity(s.fleet.created[service], r)
  }

  /** The choice of the scheduler still has room, whatever happened since it read the tables. */
  ghost predicate ChoiceHasRoom(s: State, r: Resource) {
    s.scheduler.Chose? ==>
      var row := s.scheduler.row;
      row.service < |s.fleet.created|
      && Load(s.rows, row.service, r) + Weight(row, r) <= Capacity(s.fleet.created[row.service], r)
  }

  ghost predicate CapacityOk(cfg: Config, s: State, r: Resource) {
    Guarded(cfg, s, r) ==> WithinCapacity(s, r) && ChoiceHasRoom(s, r)
  }

  lemma GuardedBackwards(cfg: Config, s: State, s': State, r: Resource)
    requires Guarded(cfg, s', r)
    requires s.submitted <= s'.submitted && s.fleet.created <= s'.fleet.created
    ensures Guarded(cfg, s, r)
  {
    forall req | req in s.submitted ensures req in s'.submitted {}
    forall x | x in s.fleet.created ensures x in s'.fleet.created {}
  }

  lemma RowsWeighable(cfg: Config, s: State, r: Resource)
    requires Fifo(s) && Placements(s) && Guarded(cfg, s, r)
    ensures Weighable(s.rows, r)
  {
    forall row | row in s.rows && !r.Tasks? ensures Weight(row, r) >= 0 {
      assert s.dispatched[row.reqId] == s.submitted[row.reqId];
      assert s.submitted[row.reqId] in s.submitted;
    }
  }

  lemma CapacityByReadRows(cfg: Config, s: State, choice: Option<Instance>, r: Resource)
    requires SchedulerEnabled(cfg, s, ReadRows(true, choice)) && choice.Some?
    requires Slots(cfg, s) && CapacityOk(cfg, s, r) && Guarded(cfg, s, r)
    ensures ChoiceHasRoom(NextScheduler(cfg, s, ReadRows(true, choice)), r)
  {
    var req, x := s.scheduler.req, choice.value;
    var read := RowsOfFunction(s.rows, req.func);
    assert x in s.scheduler.instances && Known(s.fleet, x) && x.func == req.func;
    ChoiceRespectsCapacity(cfg.policy, req, read, s.scheduler.instances, x, r);
    LoadOfFunction(s.rows, req.func, x.service, r);
  }

  lemma CapacityByScheduler(cfg: Config, s: State, a: SchedulerStep, r: Resource)
    requires SchedulerEnabled(cfg, s, a) && Slots(cfg, s) && CapacityOk(cfg, s, r)
    ensures CapacityOk(cfg, NextScheduler(cfg, s, a), r)
  {
    var s' := NextScheduler(cfg, s, a);
    if Guarded(cfg, s', r) {
      GuardedBackwards(cfg, s, s', r);
      if a.ReadRows? && a.ok && a.choice.Some? {
        CapacityByReadRows(cfg, s, a.choice, r);
      } else if a.Insert? && a.ok {
        forall service | 0 <= service < |s.fleet.created|
          ensures Load(s'.rows, service, r) <= Capacity(s.fleet.created[service], r)
        {
          LoadOfInsert(s.rows, s.scheduler.row, service, r);
        }
      }
    }
  }

  lemma CapacityByRoutine(cfg: Config, s: State, a: RoutineStep, r: Resource)
    requires RoutineEnabled(s, a) && Fifo(s) && Placements(s) && CapacityOk(cfg, s, r)
    ensures CapacityOk(cfg, NextRoutine(cfg, s, a), r)
  {
    var s' := NextRoutine(cfg, s, a);
    if Guarded(cfg, s', r) {
      GuardedBackwards(cfg, s, s', r);
      RowsWeighable(cfg, s, r);
      forall service: nat ensures Load(s'.rows, service, r) <= Load(s.rows, service, r) {
        if a.DeleteRow? && a.ok {
          DeleteRaisesNoLoad(s.rows, a.reqId, service, r);
        }
      }
    }
  }

  lemma CapacityByFleet(cfg: Config, s: State, a: FleetStep, r: Resource)
    requires FleetEnabled(s, a) && Slots(cfg, s) && CapacityOk(cfg, s, r)
    ensures CapacityOk(cfg, NextFleet(cfg, s, a), r)
  {
    var s' := NextFleet(cfg, s, a);
    SlotsByFleet(cfg, s, a);
    if Guarded(cfg, s', r) {
      GuardedBackwards(cfg, s, s', r);
      CapacityOfGrown(cfg, s, s', r);
    }
  }

  /** A service that was just created has no rows, since every row is on an older service. */
  lemma CapacityOfGrown(cfg: Config, s: State, s': State, r: Resource)
    requires s'.rows == s.rows && s'.scheduler == s.scheduler && s.fleet.created <= s'.fleet.created
    requires Slots(cfg, s) && Guarded(cfg, s', r) && WithinCapacity(s, r) && ChoiceHasRoom(s, r)
    ensures WithinCapacity(s', r) && ChoiceHasRoom(s', r)
  {
    forall service | 0 <= service < |s'.fleet.created|
      ensures Load(s'.rows, service, r) <= Capacity(s'.fleet.created[service], r)
    {
      if service >= |s.fleet.created| {
        EmptyLoad(s.rows, service, r);
        assert s'.fleet.created[service] in s'.fleet.created;
      }
    }
  }

  lemma CapacityByCaller(cfg: Config, s: State, a: CallerStep, r: Resource)
    requires CallerEnabled(cfg, s, a) && CapacityOk(cfg, s, r)
    ensures CapacityOk(cfg, NextCaller(cfg, s, a), r)
  {
    if Guarded(cfg, NextCaller(cfg, s, a), r) {
      GuardedBackwards(cfg, s, NextCaller(cfg, s, a), r);
    }
  }

  lemma CapacityStep(cfg: Config, s: State, a: Action, r: Resource)
    requires Enabled(cfg, s, a) && Fifo(s) && Placements(s) && Slots(cfg, s) && CapacityOk(cfg, s, r)
    ensures CapacityOk(cfg, Next(cfg, s, a), r)
  {
    match a
    case ByCaller(step) => CapacityByCaller(cfg, s, step, r);
    case ByScheduler(step) => CapacityByScheduler(cfg, s, step, r);
    case ByRoutine(step) => CapacityByRoutine(cfg, s, step, r);
    case ByFleet(step) => CapacityByFleet(cfg, s, step, r);
  }

  // ---------------------------------------------------------------- one task per node

  predicate FitsAlone(fleet: Fleet, row: Row) {
    row.service < |fleet.created| && Within(row.cpu, row.memory, fleet.created[row.service].shape)
  }

  /** Under the one-task policy each request fits its instance on its own, on any input. */
  ghost predicate Solo(cfg: Config, s: State) {
    cfg.policy.OneTaskPolicy? ==>
      && (forall row | row in s.rows :: FitsAlone(s.fleet, row))
      && (HoldsRow(s.scheduler) ==> FitsAlone(s.fleet, s.scheduler.row))
  }

  lemma SoloByScheduler(cfg: Config, s: State, a: SchedulerStep)
    requires SchedulerEnabled(cfg, s, a) && Slots(cfg, s) && Solo(cfg, s)
    ensures Solo(cfg, NextScheduler(cfg, s, a))
  {
    if a.ReadRows? && a.ok && a.choice.Some? {
      assert a.choice.value in s.scheduler.instances ==> Known(s.fleet, a.choice.value);
    }
  }

  lemma SoloStep(cfg: Config, s: State, a: Action)
    requires Enabled(cfg, s, a) && Slots(cfg, s) && Solo(cfg, s)
    ensures Solo(cfg, Next(cfg, s, a))
  {
    match a
    case ByCaller(step) => assert Solo(cfg, NextCaller(cfg, s, step));
    case ByScheduler(step) => SoloByScheduler(cfg, s, step);
    case ByRoutine(step) => assert Solo(cfg, NextRoutine(cfg, s, step));
    case ByFleet(step) =>
      SlotsByFleet(cfg, s, step);
      assert Solo(cfg, NextFleet(cfg, s, step));
  }

  /** The only row on a service is its whole load. */
  lemma {:induction false} LoadOfOnlyRow(rows: seq<Row>, row: Row, r: Resource)
    requires row in rows && Load(rows, row.service, Tasks) <= 1
    ensures Load(rows, row.service, r) == Weight(row, r)
  {
    var front, last := rows[..|rows| - 1], rows[|rows| - 1];
    if row in front {
      LoadCoversRow(front, row, Tasks);
      LoadOfOnlyRow(front, row, r);
    } else {
      NoRowsNoTasks(front, row.service);
      NonNegativeLoad(front, row.service, Tasks);
      forall x | x in front ensures x.service != row.service {
        assert x !in RowsOnService(front, row.service);
      }
      EmptyLoad(front, row.service, r);
    }
  }

  // ---------------------------------------------------------------- drain

  ghost predicate DrainOk(s: State, service: nat)
    requires service in s.drains
  {
    var drain := s.drains[service];
    && drain.late + Flight(s.scheduler, service) <= drain.exposed <= 1
    && (!drain.pc.Polling? ==> Load(s.rows, service, Tasks) <= drain.late)
  }

  ghost predicate Drains(s: State) {
    forall service | service in s.drains :: DrainOk(s, service)
  }

  lemma FlightOfSeen(req: Request, instances: seq<Instance>, x: Instance)
    requires x in instances
    ensures Flight(SawInstances(req, instances), x.service) == 1
  {
    var i :| 0 <= i < |instances| && instances[i] == x;
    assert instances[i].service == x.service;
  }

  lemma DrainsByInsert(s: State)
    requires s.scheduler.Chose? && Drains(s)
    ensures Drains(InsertRow(s, s.scheduler.req, s.scheduler.row))
  {
    var s' := InsertRow(s, s.scheduler.req, s.scheduler.row);
    forall service | service in s'.drains ensures DrainOk(s', service) {
      assert DrainOk(s, service);
      LoadOfInsert(s.rows, s.scheduler.row, service, Tasks);
    }
  }

  /** Steps of the scheduler that insert nothing; they do not get hold of another service that was
      removed. */
  lemma FlightOnlyFalls(cfg: Config, s: State, a: SchedulerStep, service: nat)
    requires SchedulerEnabled(cfg, s, a) && Slots(cfg, s) && !(a.Insert? && a.ok) && service in s.fleet.removed
    ensures Flight(NextScheduler(cfg, s, a).scheduler, service) <= Flight(s.scheduler, service)
  {
    if a.ReadRows? && a.ok && a.choice.Some? {
      FlightOfSeen(s.scheduler.req, s.scheduler.instances, a.choice.value);
    }
  }

  lemma DrainsByScheduler(cfg: Config, s: State, a: SchedulerStep)
    requires SchedulerEnabled(cfg, s, a) && Slots(cfg, s) && Drains(s)
    ensures Drains(NextScheduler(cfg, s, a))
  {
    if a.Insert? && a.ok {
      DrainsByInsert(s);
    } else {
      var s' := NextScheduler(cfg, s, a);
      forall service | service in s'.drains ensures DrainOk(s', service) {
        assert DrainOk(s, service);
        FlightOnlyFalls(cfg, s, a, service);
      }
    }
  }

  lemma DrainsByRoutine(cfg: Config, s: State, a: RoutineStep)
    requires RoutineEnabled(s, a) && Placements(s) && Drains(s)
    ensures Drains(NextRoutine(cfg, s, a))
  {
    var s' := NextRoutine(cfg, s, a);
    forall service | service in s'.drains ensures DrainOk(s', service) {
      assert DrainOk(s, service);
      if a.DeleteRow? && a.ok {
        DeleteRaisesNoLoad(s.rows, a.reqId, service, Tasks);
      }
    }
  }

  lemma DrainsByFleet(cfg: Config, s: State, a: FleetStep)
    requires FleetEnabled(s, a) && Slots(cfg, s) && Drains(s)
    ensures Drains(NextFleet(cfg, s, a))
  {
    var s' := NextFleet(cfg, s, a);
    forall service | service in s'.drains ensures DrainOk(s', service) {
      if service in s.drains {
        assert DrainOk(s, service);
      }
      if a.Poll? {
        NoRowsNoTasks(s.rows, service);
      }
    }
  }

  lemma DrainsStep(cfg: Config, s: State, a: Action)
    requires Enabled(cfg, s, a) && Slots(cfg, s) && Placements(s) && Drains(s)
    ensures Drains(Next(cfg, s, a))
  {
    match a
    case ByCaller(step) =>
      assert forall service | service in s.drains :: DrainOk(s, service) ==> DrainOk(NextCaller(cfg, s, step), service);
    case ByScheduler(step) => DrainsByScheduler(cfg, s, step);
    case ByRoutine(step) => DrainsByRoutine(cfg, s, step);
    case ByFleet(step) => DrainsByFleet(cfg, s, step);
  }

  /** Each removed service gets one drain: a scaling never hands over a service twice. */
  lemma ScalingStartsFreshDrains(cfg: Config, s: State, request: ScaleRequest, result: Result)
    requires Slots(cfg, s)
    ensures var s' := NextFleet(cfg, s, ScaleFn(request, result));
      && (forall service | service in s.drains :: service in s'.drains && s'.drains[service] == s.drains[service])
      && (forall service | service in s'.drains && service !in s.drains ::
            s'.drains[service] == Drain(Polling, Flight(s.scheduler, service), 0))
  {
    ScaleKeepsOk(s.fleet, cfg.pools, request, result);
    var after := Scale(s.fleet, cfg.pools, request, result);
    var n := |s.fleet.removed|;
    forall service | service in s.fleet.removed ensures service !in after.removed[n..] {
      var i :| 0 <= i < n && s.fleet.removed[i] == service;
      assert after.removed[i] == service;
      assert forall j | n <= j < |after.removed| :: after.removed[j] != service;
    }
  }

  /** What a drained service may still carry.  An unanswered request there was placed after the
      removal, by a scheduler that already held the service when it was removed; there is at most
      one such request, and none if the scheduler did not hold the service. */
  lemma DeletedServiceCarriesAtMostOne(cfg: Config, s: State, service: nat, a: nat, b: nat)
    requires Fifo(s) && Placements(s) && Drains(s)
    requires service in s.drains && s.drains[service].pc.Deleted?
    requires a in s.routines && Unanswered(s.routines[a]) && s.routines[a].row.service == service
    requires b in s.routines && Unanswered(s.routines[b]) && s.routines[b].row.service == service
    ensures a == b && s.drains[service].exposed == 1 && s.drains[service].late == 1
  {
    assert DrainOk(s, service) && RoutineOk(s, a) && RoutineOk(s, b);
    LoadCoversRow(s.rows, s.routines[a].row, Tasks);
    if a != b {
      TwoRowsTwoTasks(s.rows, s.routines[a].row, s.routines[b].row);
    }
  }

  lemma {:induction false} TwoRowsTwoTasks(rows: seq<Row>, x: Row, y: Row)
    requires x in rows && y in rows && x != y && x.service == y.service
    ensures Load(rows, x.service, Tasks) >= 2
  {
    var front, last := rows[..|rows| - 1], rows[|rows| - 1];
    if last == x {
      assert y in front;
      LoadCoversRow(front, y, Tasks);
    } else if last == y {
      assert x in front;
      LoadCoversRow(front, x, Tasks);
    } else {
      assert x in front && y in front;
      TwoRowsTwoTasks(front, x, y);
    }
  }
}
