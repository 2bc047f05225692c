/** The main results about the protocol: what holds in every state of every run. */
module Runs {
  import opened Types
  import opened Tables
  import opened Placement
  import opened Fleet
  import opened FleetProofs
  import opened Protocol
  import opened History
  import opened Pairing
  import opened Safety
  import opened Sampling

  ghost predicate Invariant(cfg: Config, s: State) {
    && Fifo(s) && Placements(s) && Paired(s) && Retrying(cfg, s) && Counted(s)
    && Slots(cfg, s) && (forall r :: CapacityOk(cfg, s, r)) && Solo(cfg, s) && Drains(s)
  }

  lemma InvariantAtStart(cfg: Config, s: State)
    requires Initial(cfg, s)
    ensures Invariant(cfg, s)
  {
    forall r ensures CapacityOk(cfg, s, r) {
      if Guarded(cfg, s, r) {
        forall x | x in s.fleet.created ensures Capacity(x, r) >= 0 {}
      }
    }
  }

  lemma InvariantStep(cfg: Config, s: State, a: Action)
    requires Enabled(cfg, s, a) && Invariant(cfg, s)
    ensures Invariant(cfg, Next(cfg, s, a))
  {
    FifoStep(cfg, s, a);
    PlacementsStep(cfg, s, a);
    PairedStep(cfg, s, a);
    RetryingStep(cfg, s, a);
    CountedStep(cfg, s, a);
    SlotsStep(cfg, s, a);
    SoloStep(cfg, s, a);
    DrainsStep(cfg, s, a);
    forall r ensures CapacityOk(cfg, Next(cfg, s, a), r) {
      CapacityStep(cfg, s, a, r);
    }
  }

  lemma {:induction false} InvariantHolds(cfg: Config, states: seq<State>, actions: seq<Action>, k: nat)
    requires IsRun(cfg, states, actions) && k < |states|
    ensures Invariant(cfg, states[k])
    decreases k
  {
    if k == 0 {
      InvariantAtStart(cfg, states[0]);
    } else {
      InvariantHolds(cfg, states, actions, k - 1);
      assert StepAt(cfg, states, actions, k - 1);
      InvariantStep(cfg, states[k - 1], actions[k - 1]);
    }
  }

  // ---------------------------------------------------------------- placement

  lemma {:induction false} TasksAreRows(rows: seq<Row>, service: nat)
    ensures Load(rows, service, Tasks) == |RowsOnService(rows, service)|
  {
    if rows != [] {
      TasksAreRows(rows[..|rows| - 1], service);
    }
  }

  /** Under the one-task policy no instance ever has two rows, on any input. */
  lemma OneRowPerService(cfg: Config, states: seq<State>, actions: seq<Action>, k: nat, service: nat)
    requires IsRun(cfg, states, actions) && k < |states| && cfg.policy.OneTaskPolicy?
    ensures |RowsOnService(states[k].rows, service)| <= 1
  {
    InvariantHolds(cfg, states, actions, k);
    assert CapacityOk(cfg, states[k], Tasks);
    TasksAreRows(states[k].rows, service);
    if service >= |states[k].fleet.created| {
      EmptyLoad(states[k].rows, service, Tasks);
    }
  }

  /** Whatever the interleaving, the rows placed on an instance never exceed its cpu and memory: under
      the base policy if no request has a negative demand, under the one-task policy on any demands. */
  lemma CapacityIsNeverExceeded(cfg: Config, states: seq<State>, actions: seq<Action>, k: nat, service: nat)
    requires IsRun(cfg, states, actions) && k < |states| && service < |states[k].fleet.created|
    requires RealNodes(states[k]) && (cfg.policy.OneTaskPolicy? || DemandsAtLeast(states[k], 0, 0))
    ensures var s := states[k];
      && Load(s.rows, service, Cpu) <= s.fleet.created[service].shape.cpu
      && Load(s.rows, service, Memory) <= s.fleet.created[service].shape.memory
  {
    InvariantHolds(cfg, states, actions, k);
    var s := states[k];
    if DemandsAtLeast(s, 0, 0) {
      assert CapacityOk(cfg, s, Cpu) && CapacityOk(cfg, s, Memory);
    } else if row :| row in s.rows && row.service == service {
      OneRowPerService(cfg, states, actions, k, service);
      TasksAreRows(s.rows, service);
      LoadOfOnlyRow(s.rows, row, Cpu);
      LoadOfOnlyRow(s.rows, row, Memory);
    } else {
      EmptyLoad(s.rows, service, Cpu);
      EmptyLoad(s.rows, service, Memory);
      assert s.fleet.created[service] in s.fleet.created;
    }
  }

  // ---------------------------------------------------------------- queue

  /** Nothing is lost, duplicated or reordered between submission and dispatch, and the request the
      scheduler works on is the head of the queue until it pops it. */
  lemma FirstInFirstOut(cfg: Config, states: seq<State>, actions: seq<Action>, k: nat)
    requires IsRun(cfg, states, actions) && k < |states|
    ensures var s := states[k];
      && (forall i, j | 0 <= i < j < |s.submitted| :: s.submitted[i].id != s.submitted[j].id)
      && (!s.scheduler.Inserted? ==> s.submitted == s.dispatched + s.queue)
      && (s.scheduler.Inserted? ==>
            && s.dispatched != [] && s.queue != [] && s.dispatched[|s.dispatched| - 1] == s.queue[0]
            && s.submitted == s.dispatched + s.queue[1..])
      && (HoldsRequest(s.scheduler) ==> s.queue != [] && s.queue[0] == s.scheduler.req)
  {
    InvariantHolds(cfg, states, actions, k);
    SubmittedIsDispatchedThenQueued(states[k]);
  }

  /** An operation that fails changes no table, no queue and no caller: the scheduler goes back to sleep and
      keeps the request, a drain polls again, and a routine ends without deleting its row. */
  lemma FailuresChangeNothing(cfg: Config, s: State, a: Action)
    requires Enabled(cfg, s, a)
    ensures a.ByScheduler? && (a.scheduler == ReadInstances(false) || a.scheduler == Insert(false)) ==>
      Next(cfg, s, a) == s.(scheduler := Idle)
    ensures a.ByScheduler? && a.scheduler.ReadRows? && !a.scheduler.ok ==> Next(cfg, s, a) == s.(scheduler := Idle)
    ensures a.ByRoutine? && a.routine.DeleteRow? && !a.routine.ok ==>
      Next(cfg, s, a) == s.(routines := s.routines - {a.routine.reqId})
    ensures a.ByFleet? && a.fleet.Poll? && !a.fleet.ok ==> Next(cfg, s, a) == s
    ensures a.ByFleet? && a.fleet.DeleteFn? && !a.fleet.readOk ==> Next(cfg, s, a) == s
    ensures a.ByFleet? && a.fleet.CreateFn? && a.fleet.result.ReadFails? ==> Next(cfg, s, a) == s
    ensures a.ByFleet? && a.fleet.ScaleFn? && a.fleet.result.ReadFails? ==> Next(cfg, s, a) == s
  {
    if a.ByFleet? && a.fleet.ScaleFn? && a.fleet.result.ReadFails? {
      assert s.fleet.removed[|s.fleet.removed|..] == [];
      assert SetFleet(s, s.fleet).drains == s.drains;
    }
  }

  // ---------------------------------------------------------------- retries

  /** A call has one unanswered attempt while it waits and none otherwise; and a routine that is
      calling or sending always has its own caller waiting for that very attempt. */
  lemma ResponsesReachTheirAttempt(cfg: Config, states: seq<State>, actions: seq<Action>, k: nat)
    requires IsRun(cfg, states, actions) && k < |states|
    ensures var s := states[k];
      && (forall c | c in s.callers ::
            UnansweredOf(s, c) == if Waiting(s.callers[c].pc) then {s.callers[c].pc.reqId} else {})
      && (forall id | id in s.routines && Unanswered(s.routines[id]) ::
            s.routines[id].req.id == id && AwaitedBy(s, s.routines[id].req))
  {
    InvariantHolds(cfg, states, actions, k);
    var s := states[k];
    forall c | c in s.callers
      ensures UnansweredOf(s, c) == if Waiting(s.callers[c].pc) then {s.callers[c].pc.reqId} else {}
    {
      OneUnansweredAttempt(s, c);
    }
    forall id | id in s.routines ensures s.routines[id].req.id == id {
      assert RoutineOk(s, id);
    }
  }

  /** Whatever state a call is in, no more requests were pushed for it than attempts are allowed.  A
      call that returned gave the first success, or the last error after using all attempts. */
  lemma CallsReturnFirstSuccessOrLastError(cfg: Config, states: seq<State>, actions: seq<Action>, k: nat, c: nat)
    requires IsRun(cfg, states, actions) && k < |states|
    ensures Pushed(states[k].submitted, c) <= Attempts(states[k], c) <= Max(cfg.maxRetry, 0)
    ensures c in states[k].callers ==>
      var caller := states[k].callers[c];
      && (caller.pc.Returned? ==> FinalResult(cfg.maxRetry, caller.outcomes, caller.pc.result))
      && (!caller.pc.Returned? ==> AllErrors(caller.outcomes))
  {
    InvariantHolds(cfg, states, actions, k);
    assert c in states[k].callers ==> CallerOk(cfg, states[k].callers[c]);
  }

  // ---------------------------------------------------------------- drain

  /** Once a drained service is deleted, at most one unanswered request can be on it, and only if the
      scheduler already held the service when ScaleFunction removed it. */
  lemma DrainedServices(cfg: Config, states: seq<State>, actions: seq<Action>, k: nat, service: nat)
    requires IsRun(cfg, states, actions) && k < |states|
    requires service in states[k].drains && states[k].drains[service].pc.Deleted?
    ensures var s := states[k];
      && (forall x | x in s.fleet.instances :: x.service != service)
      && s.drains[service].late <= s.drains[service].exposed <= 1
      && (forall a, b | a in s.routines && b in s.routines && Unanswered(s.routines[a]) && Unanswered(s.routines[b])
                        && s.routines[a].row.service == service == s.routines[b].row.service ::
            a == b && s.drains[service].exposed == 1)
  {
    InvariantHolds(cfg, states, actions, k);
    var s := states[k];
    assert DrainOk(s, service);
    forall a, b | a in s.routines && b in s.routines && Unanswered(s.routines[a]) && Unanswered(s.routines[b])
                  && s.routines[a].row.service == service == s.routines[b].row.service
      ensures a == b && s.drains[service].exposed == 1
    {
      DeletedServiceCarriesAtMostOne(cfg, s, service, a, b);
    }
  }

  predicate MidSchedule(pc: SchedulerPc) {
    pc.SawInstances? || pc.Chose?
  }

  /** No scaling happens between the moment Schedule reads the instances and its insert. */
  ghost predicate SchedulesWhole(states: seq<State>, actions: seq<Action>) {
    |states| == |actions| + 1
    && forall k | 0 <= k < |actions| && actions[k].ByFleet? && actions[k].fleet.ScaleFn? ::
         !MidSchedule(states[k].scheduler)
  }

  lemma {:induction false} WholeSchedulesExposeNothing(cfg: Config, states: seq<State>, actions: seq<Action>, k: nat)
    requires IsRun(cfg, states, actions) && k < |states| && SchedulesWhole(states, actions)
    ensures forall service | service in states[k].drains :: states[k].drains[service].exposed == 0
    decreases k
  {
    if k > 0 {
      WholeSchedulesExposeNothing(cfg, states, actions, k - 1);
      assert StepAt(cfg, states, actions, k - 1);
      var s, a := states[k - 1], actions[k - 1];
      if a.ByFleet? && a.fleet.ScaleFn? {
        InvariantHolds(cfg, states, actions, k - 1);
        ScalingStartsFreshDrains(cfg, s, a.fleet.request, a.fleet.result);
        assert states[k] == NextFleet(cfg, s, a.fleet);
      }
    }
  }

  /** When Schedule is one step with respect to scaling, a removed service gets no new request, and
      it is deleted only when no request on it is unanswered. */
  lemma WholeSchedulesDrainSafely(cfg: Config, states: seq<State>, actions: seq<Action>, k: nat, service: nat)
    requires IsRun(cfg, states, actions) && k < |states| && SchedulesWhole(states, actions)
    requires service in states[k].drains
    ensures states[k].drains[service].late == 0
    ensures states[k].drains[service].pc.Deleted? ==>
      forall id | id in states[k].routines && Unanswered(states[k].routines[id]) ::
        states[k].routines[id].row.service != service
  {
    InvariantHolds(cfg, states, actions, k);
    WholeSchedulesExposeNothing(cfg, states, actions, k);
    assert DrainOk(states[k], service);
    if states[k].drains[service].pc.Deleted? {
      DrainedServices(cfg, states, actions, k, service);
    }
  }

  // ---------------------------------------------------------------- replicas

  /** Every spec of every function stays within its replica limits, and with different hot and cold
      pools its hot instances are exactly the minimum created at the start. */
  lemma ReplicasStayWithinLimits(cfg: Config, states: seq<State>, actions: seq<Action>, k: nat, func: string,
                                 spec: Spec)
    requires IsRun(cfg, states, actions) && k < |states|
    requires func in states[k].fleet.meta
    requires ValidSpecs(states[k].fleet.meta[func]) && spec in states[k].fleet.meta[func]
    ensures var fleet := states[k].fleet;
      && Count(fleet.instances, func, spec.shape) <= spec.maxReplica
      && (func in fleet.complete ==> spec.minReplica <= Count(fleet.instances, func, spec.shape))
      && (func in fleet.complete && cfg.pools.hot != cfg.pools.cold ==>
            Tally(fleet.instances, func, spec.shape, {cfg.pools.hot}) == spec.minReplica)
  {
    InvariantHolds(cfg, states, actions, k);
    assert SpecBounded(states[k].fleet, cfg.pools, func, spec);
  }

  /** How far a scaling moves the count of instances it is about. */
  function Applied(fleet: Fleet, pools: Pools, req: ScaleRequest, result: Result): int {
    Count(Scale(fleet, pools, req, result).instances, req.func, req.shape)
    - Count(fleet.instances, req.func, req.shape)
  }

  predicate InDirection(moved: int, count: int) {
    0 <= moved <= count || count <= moved <= 0
  }

  ghost predicate BelowMinimum(fleet: Fleet, req: ScaleRequest) {
    req.func in fleet.meta
    && exists spec :: spec in fleet.meta[req.func] && spec.shape == req.shape
                      && Count(fleet.instances, req.func, req.shape) < spec.minReplica
  }

  /** A scaling moves the count in the direction asked for, and by no more than asked for, unless it is
      a scale-down of a function that is still below its minimum; that one creates instances.  Only
      functions whose creation or deletion broke off can be below their minimum. */
  lemma ScalingKeepsDirection(cfg: Config, states: seq<State>, actions: seq<Action>, k: nat,
                              req: ScaleRequest, result: Result)
    requires IsRun(cfg, states, actions) && k < |states|
    requires req.func in states[k].fleet.meta ==> ValidSpecs(states[k].fleet.meta[req.func])
    ensures var fleet := states[k].fleet;
      && (InDirection(Applied(fleet, cfg.pools, req, result), req.count)
          <==> !(req.count < 0 && result.Works? && BelowMinimum(fleet, req)))
      && (BelowMinimum(fleet, req) ==> req.func !in fleet.complete)
  {
    InvariantHolds(cfg, states, actions, k);
    var fleet := states[k].fleet;
    if req.func in fleet.meta {
      LimitsOfSpec(fleet.meta[req.func], req.shape);
    }
    if spec :| req.func in fleet.meta && spec in fleet.meta[req.func] && spec.shape == req.shape {
      DirectionOfSpec(fleet, cfg.pools, req, result, spec);
    } else {
      assert Change(fleet, req) == 0;
    }
  }

  lemma DirectionOfSpec(fleet: Fleet, pools: Pools, req: ScaleRequest, result: Result, spec: Spec)
    requires FleetOk(fleet) && Bounded(fleet, pools) && req.func in fleet.meta && ValidSpecs(fleet.meta[req.func])
    requires spec in fleet.meta[req.func] && spec.shape == req.shape
    ensures BelowMinimum(fleet, req) <==> Count(fleet.instances, req.func, req.shape) < spec.minReplica
    ensures InDirection(Applied(fleet, pools, req, result), req.count)
      <==> !(req.count < 0 && result.Works? && BelowMinimum(fleet, req))
    ensures BelowMinimum(fleet, req) ==> req.func !in fleet.complete
  {
    assert SpecBounded(fleet, pools, req.func, spec);
    ScaleTally(fleet, pools, req, result, req.func, req.shape, ALL_POOLS);
    AnyPool(pools.cold);
    ChangeOfSpec(fleet, req, spec);
    assert forall other | other in fleet.meta[req.func] && other.shape == req.shape :: other == spec;
  }

  /** How far a working scaling goes: up to the maximum; down to the minimum, or to the instances outside
      the cold pool if they are more; and up to the minimum from below it.  It moves no instance outside
      the cold pool. */
  lemma ScalingStopsAtTheLimits(cfg: Config, states: seq<State>, actions: seq<Action>, k: nat,
                                req: ScaleRequest, spec: Spec)
    requires IsRun(cfg, states, actions) && k < |states| && req.func in states[k].fleet.meta
    requires ValidSpecs(states[k].fleet.meta[req.func])
    requires spec in states[k].fleet.meta[req.func] && spec.shape == req.shape
    ensures var fleet := states[k].fleet;
      var before := Count(fleet.instances, req.func, req.shape);
      var fixed := Tally(fleet.instances, req.func, req.shape, ALL_POOLS - {cfg.pools.cold});
      var after := Scale(fleet, cfg.pools, req, Works).instances;
      && Count(after, req.func, req.shape)
         == (if req.count > 0 then Min(before + req.count, spec.maxReplica)
             else if req.count == 0 then before
             else if before < spec.minReplica then spec.minReplica
             else Max(Max(before + req.count, spec.minReplica), fixed))
      && Tally(after, req.func, req.shape, ALL_POOLS - {cfg.pools.cold}) == fixed
  {
    InvariantHolds(cfg, states, actions, k);
    assert SpecBounded(states[k].fleet, cfg.pools, req.func, spec);
    StopsAtTheLimits(states[k].fleet, cfg.pools, req, spec);
  }

  lemma StopsAtTheLimits(fleet: Fleet, pools: Pools, req: ScaleRequest, spec: Spec)
    requires FleetOk(fleet) && req.func in fleet.meta && ValidSpecs(fleet.meta[req.func])
    requires spec in fleet.meta[req.func] && spec.shape == req.shape
    requires Count(fleet.instances, req.func, req.shape) <= spec.maxReplica
    ensures var before := Count(fleet.instances, req.func, req.shape);
      var fixed := Tally(fleet.instances, req.func, req.shape, ALL_POOLS - {pools.cold});
      var after := Scale(fleet, pools, req, Works).instances;
      && Count(after, req.func, req.shape)
         == (if req.count > 0 then Min(before + req.count, spec.maxReplica)
             else if req.count == 0 then before
             else if before < spec.minReplica then spec.minReplica
             else Max(Max(before + req.count, spec.minReplica), fixed))
      && Tally(after, req.func, req.shape, ALL_POOLS - {pools.cold}) == fixed
  {
    ScaleTally(fleet, pools, req, Works, req.func, req.shape, ALL_POOLS);
    ScaleTally(fleet, pools, req, Works, req.func, req.shape, ALL_POOLS - {pools.cold});
    TallySplit(fleet.instances, req.func, req.shape, pools.cold);
    AnyPool(pools.cold);
    ChangeOfSpec(fleet, req, spec);
  }

  // ---------------------------------------------------------------- demand snapshots

  ghost predicate Queued(s: State, id: nat) {
    exists i :: 0 <= i < |s.queue| && s.queue[i].id == id
  }

  ghost predicate HasRow(s: State, id: nat) {
    exists i :: 0 <= i < |s.rows| && s.rows[i].reqId == id
  }

  ghost predicate Live(s: State, id: nat) {
    Queued(s, id) || HasRow(s, id)
  }

  lemma QueuedIsNotPopped(s: State, id: nat)
    requires Fifo(s)
    ensures Queued(s, id) <==> Popped(s) <= id < |s.submitted|
  {
    forall i | 0 <= i < |s.queue| ensures s.queue[i].id == Popped(s) + i {
      assert s.queue[i] == s.submitted[Popped(s) + i];
    }
    if Popped(s) <= id < |s.submitted| {
      assert s.queue[id - Popped(s)].id == id;
    }
  }

  lemma StepAdvances(cfg: Config, s: State, a: Action)
    requires Enabled(cfg, s, a)
    ensures var s' := Next(cfg, s, a);
      Popped(s) <= Popped(s') && s.submitted <= s'.submitted
  {
    match a
    case ByCaller(step) => assert s.submitted <= NextCaller(cfg, s, step).submitted;
    case ByScheduler(step) => assert s.submitted <= NextScheduler(cfg, s, step).submitted;
    case ByRoutine(step) => assert s.submitted <= NextRoutine(cfg, s, step).submitted;
    case ByFleet(step) => assert s.submitted <= NextFleet(cfg, s, step).submitted;
  }

  lemma RunAdvances(cfg: Config, states: seq<State>, actions: seq<Action>, k: nat)
    requires IsRun(cfg, states, actions) && k < |actions|
    ensures Popped(states[k]) <= Popped(states[k + 1]) && states[k].submitted <= states[k + 1].submitted
  {
    assert StepAt(cfg, states, actions, k);
    StepAdvances(cfg, states[k], actions[k]);
  }

  lemma {:induction false} QueueOnlyAdvances(cfg: Config, states: seq<State>, actions: seq<Action>, a: nat, b: nat)
    requires IsRun(cfg, states, actions) && a <= b < |states|
    ensures Popped(states[a]) <= Popped(states[b])
    ensures states[a].submitted <= states[b].submitted
    decreases b
  {
    if a < b {
      QueueOnlyAdvances(cfg, states, actions, a, b - 1);
      RunAdvances(cfg, states, actions, b - 1);
    }
  }

  /** The sample has the id, the function and the demands of the request. */
  predicate Samples(x: Sampled, req: Request) {
    x.id == req.id && x.func == req.func && x.cpu == req.cpu && x.memory == req.memory
  }

  /** The sample is taken in two reads with any steps in between: the queue in state `a`, the table
      in state `b`.  A request that is live throughout is in it; no request is in it more than twice;
      what is in it was live at one of the two reads, and carries the demands it was submitted with. */
  lemma SnapshotsNeverUndercount(cfg: Config, states: seq<State>, actions: seq<Action>, a: nat, b: nat, id: nat)
    requires IsRun(cfg, states, actions) && a <= b < |states|
    ensures var sample := Sample(states[a].queue, states[b].rows);
      && Occurrences(sample, id) == (if Queued(states[a], id) then 1 else 0) + (if HasRow(states[b], id) then 1 else 0)
      && ((forall k | a <= k <= b :: Live(states[k], id)) ==> Occurrences(sample, id) >= 1)
      && (forall x | x in sample :: x.id < |states[b].submitted| && Samples(x, states[b].submitted[x.id]))
  {
    InvariantHolds(cfg, states, actions, a);
    InvariantHolds(cfg, states, actions, b);
    QueueOnlyAdvances(cfg, states, actions, a, b);
    var sa, sb := states[a], states[b];
    SampledOccurrences(sa, sb, id);
    if forall k | a <= k <= b :: Live(states[k], id) {
      assert Live(sa, id) && Live(sb, id);
      LiveUntilTheTableIsRead(sa, sb, id);
    }
    SampledDemands(sa, sb);
  }

  lemma SampledQueue(s: State)
    requires Fifo(s)
    ensures var queued := FromQueue(s.queue);
      forall i, j | 0 <= i < j < |queued| :: queued[i].id != queued[j].id
  {
    forall i | 0 <= i < |s.queue| ensures s.queue[i].id == Popped(s) + i {
      assert s.queue[i] == s.submitted[Popped(s) + i];
    }
  }

  lemma QueuedOnce(s: State, id: nat)
    requires Fifo(s)
    ensures Occurrences(FromQueue(s.queue), id) == if Queued(s, id) then 1 else 0
  {
    var queued := FromQueue(s.queue);
    SampledQueue(s);
    OccursOnce(queued, id);
    if i :| 0 <= i < |queued| && queued[i].id == id {
      assert s.queue[i].id == id;
    }
    if i :| 0 <= i < |s.queue| && s.queue[i].id == id {
      assert queued[i].id == id;
    }
  }

  lemma PlacedOnce(s: State, id: nat)
    requires Placements(s)
    ensures Occurrences(FromTable(s.rows), id) == if HasRow(s, id) then 1 else 0
  {
    var placed := FromTable(s.rows);
    assert forall i, j | 0 <= i < j < |placed| :: placed[i].id != placed[j].id by {
      assert DistinctIds(s.rows);
    }
    OccursOnce(placed, id);
    if i :| 0 <= i < |placed| && placed[i].id == id {
      assert s.rows[i].reqId == id;
    }
    if i :| 0 <= i < |s.rows| && s.rows[i].reqId == id {
      assert placed[i].id == id;
    }
  }

  lemma SampledOccurrences(sa: State, sb: State, id: nat)
    requires Fifo(sa) && Placements(sb)
    ensures Occurrences(Sample(sa.queue, sb.rows), id)
         == (if Queued(sa, id) then 1 else 0) + (if HasRow(sb, id) then 1 else 0)
  {
    OccurrencesAppend(FromQueue(sa.queue), FromTable(sb.rows), id);
    QueuedOnce(sa, id);
    PlacedOnce(sb, id);
  }

  /** A request that left the queue before the first read cannot come back, so if it is still live at
      the second read it has its row. */
  lemma LiveUntilTheTableIsRead(sa: State, sb: State, id: nat)
    requires Fifo(sa) && Placements(sa) && Fifo(sb)
    requires Popped(sa) <= Popped(sb) && sa.submitted <= sb.submitted
    requires Live(sa, id) && Live(sb, id)
    ensures Queued(sa, id) || HasRow(sb, id)
  {
    QueuedIsNotPopped(sa, id);
    QueuedIsNotPopped(sb, id);
    if !Queued(sa, id) {
      var i :| 0 <= i < |sa.rows| && sa.rows[i].reqId == id;
      assert sa.rows[i] in sa.rows;
    }
  }

  lemma QueuedDemands(sa: State, sb: State, x: Sampled)
    requires Fifo(sa) && sa.submitted <= sb.submitted && x in FromQueue(sa.queue)
    requires Fifo(sb)
    ensures x.id < |sb.submitted| && x == FromRequest(sb.submitted[x.id])
  {
    var queued := FromQueue(sa.queue);
    var i :| 0 <= i < |queued| && queued[i] == x;
    var req := sa.queue[i];
    assert req == sa.submitted[Popped(sa) + i] && req == sb.submitted[Popped(sa) + i];
  }

  lemma PlacedDemands(s: State, x: Sampled)
    requires Fifo(s) && Placements(s) && x in FromTable(s.rows)
    ensures x.id < |s.submitted| && x == FromRequest(s.submitted[x.id])
  {
    var placed := FromTable(s.rows);
    var i :| 0 <= i < |placed| && placed[i] == x;
    assert s.rows[i] in s.rows;
  }

  lemma SampledDemands(sa: State, sb: State)
    requires Fifo(sa) && Fifo(sb) && Placements(sb) && sa.submitted <= sb.submitted
    ensures forall x | x in Sample(sa.queue, sb.rows) ::
      x.id < |sb.submitted| && x == FromRequest(sb.submitted[x.id])
  {
    forall x | x in Sample(sa.queue, sb.rows) ensures x.id < |sb.submitted| && x == FromRequest(sb.submitted[x.id]) {
      if x in FromQueue(sa.queue) {
        QueuedDemands(sa, sb, x);
      } else {
        PlacedDemands(sb, x);
      }
    }
  }
}
