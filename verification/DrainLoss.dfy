/** Exactly when a request is lost to a scale-down: the drain deletes its service before it is answered. */
module DrainLoss {
  import opened Types
  import opened Tables
  import opened Placement
  import opened Fleet
  import opened Protocol
  import opened History
  import opened Pairing
  import opened Safety
  import opened Runs
  import opened Witnesses

  /** The service was deleted under a request that no one answered yet. */
  ghost predicate Lost(s: State, service: nat) {
    service in s.drains && s.drains[service].pc.Deleted? && RunsOn(s, service)
  }

  ghost predicate RunsOn(s: State, service: nat) {
    exists id :: id in s.routines && Unanswered(s.routines[id]) && s.routines[id].row.service == service
  }

  /** The run can go on in such a way. */
  ghost predicate CanLose(cfg: Config, states: seq<State>, actions: seq<Action>, service: nat) {
    exists states', actions' :: Continues(cfg, states, actions, states', actions', service)
  }

  ghost predicate Continues(cfg: Config, states: seq<State>, actions: seq<Action>,
                            states': seq<State>, actions': seq<Action>, service: nat) {
    && states <= states' && actions <= actions'
    && IsRun(cfg, states', actions') && Lost(states'[|states'| - 1], service)
  }

  // ---------------------------------------------------------------- the condition

  /** The row of the request can go without any step of the scheduler: its caller was answered, or can
      be answered. */
  predicate Deletable(s: State, id: nat) {
    && id in s.routines
    && (s.routines[id].pc.Answered?
        || (s.routines[id].req.call in s.callers && s.callers[s.routines[id].req.call].pc.AtReceive?))
  }

  ghost predicate Gone(s: State, ids: set<nat>) {
    forall id | id in ids :: Deletable(s, id)
  }

  /** The drain can come to see no rows. */
  ghost predicate Emptiable(s: State, service: nat) {
    forall row | row in s.rows && row.service == service :: Deletable(s, row.reqId)
  }

  /** The policy may choose the service once some of the requests are gone. */
  ghost predicate MayChoose(cfg: Config, s: State, service: nat)
    requires s.scheduler.SawInstances?
  {
    exists ids: set<nat>, x: Instance :: Gone(s, ids) && x.service == service && ChosenWithout(cfg, s, ids, x)
  }

  ghost predicate ChosenWithout(cfg: Config, s: State, ids: set<nat>, x: Instance)
    requires s.scheduler.SawInstances?
  {
    var req := s.scheduler.req;
    Chooses(cfg.policy, req, RowsOfFunction(WithoutAll(s.rows, ids), req.func), s.scheduler.instances, Some(x))
  }

  /** The scheduler may still insert a row on the service without reading the instances again. */
  ghost predicate MayInsert(cfg: Config, s: State, service: nat) {
    match s.scheduler
    case SawInstances(_, _) => MayChoose(cfg, s, service)
    case Chose(_, row) => row.service == service
    case _ => false
  }

  /** A request is on the service, answered by no one, or is about to start there. */
  ghost predicate Busy(s: State, service: nat) {
    RunsOn(s, service) || (s.scheduler.Inserted? && s.scheduler.row.service == service)
  }

  /** A drain past its last poll endangers what is on the service and what may still come; a drain that
      polls endangers only what comes after it saw no rows. */
  ghost predicate Losable(cfg: Config, s: State, service: nat)
    requires service in s.drains
  {
    if s.drains[service].pc.Polling? then MayInsert(cfg, s, service) && Emptiable(s, service)
    else MayInsert(cfg, s, service) || Busy(s, service)
  }

  // ---------------------------------------------------------------- no step makes a service losable

  /** Steps that free no further row and leave the scheduler alone. */
  lemma MayInsertFrame(cfg: Config, s: State, s': State, service: nat)
    requires s'.scheduler == s.scheduler && s'.rows == s.rows
    requires forall id | Deletable(s', id) :: Deletable(s, id)
    ensures MayInsert(cfg, s', service) ==> MayInsert(cfg, s, service)
    ensures Emptiable(s', service) ==> Emptiable(s, service)
  {
    if s.scheduler.SawInstances? && MayChoose(cfg, s', service) {
      var ids: set<nat>, x: Instance :| Gone(s', ids) && x.service == service && ChosenWithout(cfg, s', ids, x);
      assert Gone(s, ids) && ChosenWithout(cfg, s, ids, x);
    }
  }

  lemma LosableByCaller(cfg: Config, s: State, a: CallerStep, service: nat)
    requires CallerEnabled(cfg, s, a) && service in s.drains && Losable(cfg, NextCaller(cfg, s, a), service)
    ensures Losable(cfg, s, service)
  {
    MayInsertFrame(cfg, s, NextCaller(cfg, s, a), service);
  }

  lemma DeletableByDelete(cfg: Config, s: State, id: nat)
    requires RoutineEnabled(s, DeleteRow(id, true))
    ensures Deletable(s, id) && !Deletable(NextRoutine(cfg, s, DeleteRow(id, true)), id)
    ensures forall other | Deletable(NextRoutine(cfg, s, DeleteRow(id, true)), other) :: Deletable(s, other)
  {}

  lemma EmptiableByDelete(cfg: Config, s: State, id: nat, service: nat)
    requires RoutineEnabled(s, DeleteRow(id, true))
    requires Emptiable(NextRoutine(cfg, s, DeleteRow(id, true)), service)
    ensures Emptiable(s, service)
  {
    DeletableByDelete(cfg, s, id);
    forall row | row in s.rows && row.service == service ensures Deletable(s, row.reqId) {
      assert row.reqId != id ==> row in WithoutRequest(s.rows, id);
    }
  }

  lemma MayInsertByDelete(cfg: Config, s: State, id: nat, service: nat)
    requires RoutineEnabled(s, DeleteRow(id, true))
    requires MayInsert(cfg, NextRoutine(cfg, s, DeleteRow(id, true)), service)
    ensures MayInsert(cfg, s, service)
  {
    var s' := NextRoutine(cfg, s, DeleteRow(id, true));
    DeletableByDelete(cfg, s, id);
    if s.scheduler.SawInstances? {
      var ids: set<nat>, x: Instance :| Gone(s', ids) && x.service == service && ChosenWithout(cfg, s', ids, x);
      WithoutOneAndOthers(s.rows, id, ids);
      assert Gone(s, ids + {id}) && ChosenWithout(cfg, s, ids + {id}, x);
    }
  }

  lemma LosableByRoutine(cfg: Config, s: State, a: RoutineStep, service: nat)
    requires RoutineEnabled(s, a) && service in s.drains && Losable(cfg, NextRoutine(cfg, s, a), service)
    ensures Losable(cfg, s, service)
  {
    if a.DeleteRow? && a.ok {
      if MayInsert(cfg, NextRoutine(cfg, s, a), service) {
        MayInsertByDelete(cfg, s, a.reqId, service);
      }
      if Emptiable(NextRoutine(cfg, s, a), service) {
        EmptiableByDelete(cfg, s, a.reqId, service);
      }
    } else {
      MayInsertFrame(cfg, s, NextRoutine(cfg, s, a), service);
    }
    assert RunsOn(NextRoutine(cfg, s, a), service) ==> RunsOn(s, service);
  }

  lemma NoRowsNotBusy(s: State, service: nat)
    requires Placements(s) && RowsOnService(s.rows, service) == []
    ensures !Busy(s, service) && Emptiable(s, service)
  {
    forall row | row in s.rows ensures row.service != service {
      assert row !in RowsOnService(s.rows, service);
    }
    forall id | id in s.routines && Unanswered(s.routines[id]) ensures s.routines[id].row.service != service {
      assert RoutineOk(s, id);
    }
  }

  lemma LosableByPoll(cfg: Config, s: State, polled: nat, ok: bool, service: nat)
    requires FleetEnabled(s, Poll(polled, ok)) && Placements(s) && service in s.drains
    requires Losable(cfg, NextFleet(cfg, s, Poll(polled, ok)), service)
    ensures Losable(cfg, s, service)
  {
    MayInsertFrame(cfg, s, NextFleet(cfg, s, Poll(polled, ok)), service);
    if RowsOnService(s.rows, service) == [] {
      NoRowsNotBusy(s, service);
    }
  }

  lemma LosableFrame(cfg: Config, s: State, s': State, service: nat)
    requires s'.scheduler == s.scheduler && s'.rows == s.rows && s'.routines == s.routines && s'.callers == s.callers
    requires service in s.drains && service in s'.drains
    requires s'.drains[service].pc.Polling? <==> s.drains[service].pc.Polling?
    requires Losable(cfg, s', service)
    ensures Losable(cfg, s, service)
  {
    MayInsertFrame(cfg, s, s', service);
  }

  lemma LosableByFleet(cfg: Config, s: State, a: FleetStep, service: nat)
    requires FleetEnabled(s, a) && Slots(cfg, s) && Placements(s) && service in s.drains
    requires service in NextFleet(cfg, s, a).drains && Losable(cfg, NextFleet(cfg, s, a), service)
    ensures Losable(cfg, s, service)
  {
    if a.Poll? {
      LosableByPoll(cfg, s, a.service, a.ok, service);
    } else {
      if a.ScaleFn? {
        ScalingStartsFreshDrains(cfg, s, a.request, a.result);
      }
      LosableFrame(cfg, s, NextFleet(cfg, s, a), service);
    }
  }

  /** The scheduler gets hold of no removed service, and what it holds it held as a list before. */
  lemma MayInsertByScheduler(cfg: Config, s: State, a: SchedulerStep, service: nat)
    requires SchedulerEnabled(cfg, s, a) && Slots(cfg, s) && service in s.drains
    requires MayInsert(cfg, NextScheduler(cfg, s, a), service)
    ensures MayInsert(cfg, s, service) && NextScheduler(cfg, s, a).rows == s.rows
    ensures NextScheduler(cfg, s, a).routines == s.routines && NextScheduler(cfg, s, a).callers == s.callers
  {
    if a.ReadInstances? {
      FreshListHoldsNone(cfg, s, a.ok, service);
    } else if a.ReadRows? {
      WithoutNone(s.rows);
      assert Gone(s, {}) && ChosenWithout(cfg, s, {}, a.choice.value);
    }
  }

  lemma FreshListHoldsNone(cfg: Config, s: State, ok: bool, service: nat)
    requires s.scheduler.Peeked? && Slots(cfg, s) && service in s.drains
    ensures !MayInsert(cfg, NextScheduler(cfg, s, ReadInstances(ok)), service)
  {
    var s' := NextScheduler(cfg, s, ReadInstances(ok));
    if ok {
      forall ids: set<nat>, x: Instance | ChosenWithout(cfg, s', ids, x) ensures x.service != service {}
    }
  }

  lemma BusyByScheduler(cfg: Config, s: State, a: SchedulerStep, service: nat)
    requires SchedulerEnabled(cfg, s, a) && Busy(NextScheduler(cfg, s, a), service)
    ensures Busy(s, service) || MayInsert(cfg, s, service)
  {
    var s' := NextScheduler(cfg, s, a);
    if id :| id in s'.routines && Unanswered(s'.routines[id]) && s'.routines[id].row.service == service {
      assert a.Pop? || s'.routines == s.routines;
      assert id in s.routines && s.routines[id] == s'.routines[id] ==> RunsOn(s, service);
    }
  }

  lemma LosableByScheduler(cfg: Config, s: State, a: SchedulerStep, service: nat)
    requires SchedulerEnabled(cfg, s, a) && Slots(cfg, s) && service in s.drains
    requires service in NextScheduler(cfg, s, a).drains && Losable(cfg, NextScheduler(cfg, s, a), service)
    ensures Losable(cfg, s, service)
  {
    var s' := NextScheduler(cfg, s, a);
    if MayInsert(cfg, s', service) {
      MayInsertByScheduler(cfg, s, a, service);
      assert forall id :: Deletable(s', id) == Deletable(s, id);
    } else {
      BusyByScheduler(cfg, s, a, service);
    }
  }

  /** If a service is losable after a step, it was losable before. */
  lemma LosableBackwards(cfg: Config, s: State, a: Action, service: nat)
    requires Enabled(cfg, s, a) && Slots(cfg, s) && Placements(s) && service in s.drains
    ensures service in Next(cfg, s, a).drains
    ensures Losable(cfg, Next(cfg, s, a), service) ==> Losable(cfg, s, service)
  {
    assert service in Next(cfg, s, a).drains by {
      if a.ByFleet? && a.fleet.ScaleFn? {
        ScalingStartsFreshDrains(cfg, s, a.fleet.request, a.fleet.result);
      }
    }
    if Losable(cfg, Next(cfg, s, a), service) {
      match a
      case ByCaller(step) => LosableByCaller(cfg, s, step, service);
      case ByScheduler(step) => LosableByScheduler(cfg, s, step, service);
      case ByRoutine(step) => LosableByRoutine(cfg, s, step, service);
      case ByFleet(step) => LosableByFleet(cfg, s, step, service);
    }
  }

  lemma {:induction false} LostWasLosable(cfg: Config, states: seq<State>, actions: seq<Action>, a: nat, b: nat,
                                          service: nat)
    requires IsRun(cfg, states, actions) && a <= b < |states| && service in states[a].drains
    ensures service in states[b].drains
    ensures Losable(cfg, states[b], service) ==> Losable(cfg, states[a], service)
    decreases b
  {
    if a < b {
      LostWasLosable(cfg, states, actions, a, b - 1, service);
      InvariantHolds(cfg, states, actions, b - 1);
      assert StepAt(cfg, states, actions, b - 1);
      LosableBackwards(cfg, states[b - 1], actions[b - 1], service);
    }
  }

  /** Necessity: only a losable service can be lost. */
  lemma OnlyLosableIsLost(cfg: Config, states: seq<State>, actions: seq<Action>, s: State,
                          states': seq<State>, actions': seq<Action>, service: nat)
    requires RunTo(cfg, states, actions, s) && service in s.drains
    requires Continues(cfg, states, actions, states', actions', service)
    ensures Losable(cfg, s, service)
  {
    assert states'[|states| - 1] == s;
    LostWasLosable(cfg, states', actions', |states| - 1, |states'| - 1, service);
  }

  // ---------------------------------------------------------------- a losable service can be lost

  /** A run that goes on, without any step of the scheduler, the fleet or the drains. */
  ghost predicate Meanwhile(cfg: Config, states: seq<State>, actions: seq<Action>, s: State,
                            states': seq<State>, actions': seq<Action>, s': State) {
    && RunTo(cfg, states', actions', s') && states <= states' && actions <= actions'
    && s'.scheduler == s.scheduler && s'.drains == s.drains && s'.fleet == s.fleet
  }

  lemma FinishOne(cfg: Config, states: seq<State>, actions: seq<Action>, s: State, id: nat)
    returns (states': seq<State>, actions': seq<Action>, s': State)
    requires RunTo(cfg, states, actions, s) && Deletable(s, id)
    ensures Meanwhile(cfg, states, actions, s, states', actions', s') && s'.rows == s.rows
    ensures Deletable(s', id) && !s'.routines[id].pc.Calling?
    ensures forall other | Deletable(s, other) :: Deletable(s', other)
  {
    states', actions', s' := states, actions, s;
    if s.routines[id].pc.Calling? {
      states', actions', s' := Extend(cfg, states, actions, s, ByRoutine(Finish(id, Ok(""))));
    }
  }

  /** The routine of one request answers its caller; nothing else stops being deletable. */
  lemma AnswerOne(cfg: Config, states: seq<State>, actions: seq<Action>, s: State, id: nat)
    returns (states': seq<State>, actions': seq<Action>, s': State)
    requires RunTo(cfg, states, actions, s) && Deletable(s, id)
    ensures Meanwhile(cfg, states, actions, s, states', actions', s') && s'.rows == s.rows
    ensures id in s'.routines && s'.routines[id].pc.Answered?
    ensures forall other | Deletable(s, other) :: Deletable(s', other)
  {
    var states1, actions1, s1 := FinishOne(cfg, states, actions, s, id);
    states', actions', s' := states1, actions1, s1;
    if s1.routines[id].pc.Sending? {
      InvariantHolds(cfg, states1, actions1, |states1| - 1);
      RespondKeepsDeletable(cfg, s1, id);
      states', actions', s' := Extend(cfg, states1, actions1, s1, ByRoutine(Respond(id)));
    }
  }

  lemma RespondKeepsDeletable(cfg: Config, s: State, id: nat)
    requires RoutineEnabled(s, Respond(id)) && Fifo(s) && Placements(s) && Paired(s)
    ensures forall other | Deletable(s, other) :: Deletable(NextRoutine(cfg, s, Respond(id)), other)
  {
    RespondEndsOneWait(cfg, s, id);
    forall other | Deletable(s, other) ensures Deletable(NextRoutine(cfg, s, Respond(id)), other) {
      assert RoutineOk(s, other) && s.routines[other].req.id == other;
      assert Unanswered(s.routines[other]) ==> AwaitedBy(s, s.routines[other].req);
    }
  }

  lemma DeleteOne(cfg: Config, states: seq<State>, actions: seq<Action>, s: State, id: nat)
    returns (states': seq<State>, actions': seq<Action>, s': State)
    requires RunTo(cfg, states, actions, s) && Deletable(s, id)
    ensures Meanwhile(cfg, states, actions, s, states', actions', s') && s'.rows == WithoutRequest(s.rows, id)
    ensures forall other | Deletable(s, other) && other != id :: Deletable(s', other)
  {
    states', actions', s' := AnswerOne(cfg, states, actions, s, id);
    states', actions', s' := Extend(cfg, states', actions', s', ByRoutine(DeleteRow(id, true)));
  }

  lemma {:induction false} DeleteAll(cfg: Config, states: seq<State>, actions: seq<Action>, s: State, ids: set<nat>)
    returns (states': seq<State>, actions': seq<Action>, s': State)
    requires RunTo(cfg, states, actions, s) && Gone(s, ids)
    ensures Meanwhile(cfg, states, actions, s, states', actions', s') && s'.rows == WithoutAll(s.rows, ids)
    ensures forall other | Deletable(s, other) && other !in ids :: Deletable(s', other)
    decreases |ids|
  {
    if ids == {} {
      WithoutNone(s.rows);
      states', actions', s' := states, actions, s;
    } else {
      var id :| id in ids;
      var states1, actions1, s1 := DeleteOne(cfg, states, actions, s, id);
      states', actions', s' := DeleteAll(cfg, states1, actions1, s1, ids - {id});
      WithoutOneAndOthers(s.rows, id, ids - {id});
      assert ids - {id} + {id} == ids;
    }
  }

  /** The rows of the service go, so that the drain sees none. */
  lemma Empty(cfg: Config, states: seq<State>, actions: seq<Action>, s: State, service: nat)
    returns (states': seq<State>, actions': seq<Action>, s': State)
    requires RunTo(cfg, states, actions, s) && Emptiable(s, service)
    ensures Meanwhile(cfg, states, actions, s, states', actions', s') && RowsOnService(s'.rows, service) == []
  {
    var ids := set row | row in s.rows && row.service == service :: row.reqId;
    states', actions', s' := DeleteAll(cfg, states, actions, s, ids);
    WithoutAllMembers(s.rows, ids);
    EmptyLoad(s'.rows, service, Tasks);
    NoRowsNoTasks(s'.rows, service);
  }

  /** The drain finishes before the scheduler takes another step. */
  lemma DrainFirst(cfg: Config, states: seq<State>, actions: seq<Action>, s: State, service: nat)
    returns (states': seq<State>, actions': seq<Action>, s': State)
    requires RunTo(cfg, states, actions, s) && service in s.drains
    requires s.drains[service].pc.Polling? ==> RowsOnService(s.rows, service) == []
    ensures RunTo(cfg, states', actions', s') && states <= states' && actions <= actions'
    ensures service in s'.drains && s'.drains[service].pc.Deleted?
    ensures s'.scheduler == s.scheduler && s'.routines == s.routines
  {
    states', actions', s' := states, actions, s;
    if s'.drains[service].pc.Polling? {
      states', actions', s' := Extend(cfg, states', actions', s', ByFleet(Poll(service, true)));
    }
    if s'.drains[service].pc.Confirmed? {
      states', actions', s' := Extend(cfg, states', actions', s', ByFleet(DeleteService(service)));
    }
  }

  lemma PopLate(cfg: Config, states: seq<State>, actions: seq<Action>, s: State, service: nat)
    returns (states': seq<State>, actions': seq<Action>, s': State)
    requires RunTo(cfg, states, actions, s) && s.scheduler.Inserted? && s.scheduler.row.service == service
    requires service in s.drains && s.drains[service].pc.Deleted?
    ensures RunTo(cfg, states', actions', s') && states <= states' && actions <= actions' && Lost(s', service)
  {
    var id := s.scheduler.req.id;
    states', actions', s' := Extend(cfg, states, actions, s, ByScheduler(Pop));
    assert id in s'.routines && Unanswered(s'.routines[id]);
  }

  lemma BusyCanBeLost(cfg: Config, states: seq<State>, actions: seq<Action>, s: State, service: nat)
    requires RunTo(cfg, states, actions, s) && service in s.drains && !s.drains[service].pc.Polling?
    requires Busy(s, service)
    ensures CanLose(cfg, states, actions, service)
  {
    var states', actions', s' := DrainFirst(cfg, states, actions, s, service);
    if !RunsOn(s', service) {
      states', actions', s' := PopLate(cfg, states', actions', s', service);
    }
    assert Continues(cfg, states, actions, states', actions', service);
  }

  lemma ChosenCanBeLost(cfg: Config, states: seq<State>, actions: seq<Action>, s: State, service: nat)
    requires RunTo(cfg, states, actions, s) && s.scheduler.Chose? && s.scheduler.row.service == service
    requires service in s.drains && (s.drains[service].pc.Polling? ==> Emptiable(s, service))
    ensures CanLose(cfg, states, actions, service)
  {
    var states', actions', s' := states, actions, s;
    if s.drains[service].pc.Polling? {
      states', actions', s' := Empty(cfg, states', actions', s', service);
    }
    states', actions', s' := DrainFirst(cfg, states', actions', s', service);
    states', actions', s' := Extend(cfg, states', actions', s', ByScheduler(Insert(true)));
    states', actions', s' := PopLate(cfg, states', actions', s', service);
    assert Continues(cfg, states, actions, states', actions', service);
  }

  lemma ListedCanBeLost(cfg: Config, states: seq<State>, actions: seq<Action>, s: State, service: nat)
    requires RunTo(cfg, states, actions, s) && s.scheduler.SawInstances? && MayChoose(cfg, s, service)
    requires service in s.drains && (s.drains[service].pc.Polling? ==> Emptiable(s, service))
    ensures CanLose(cfg, states, actions, service)
  {
    var ids: set<nat>, x: Instance :| Gone(s, ids) && x.service == service && ChosenWithout(cfg, s, ids, x);
    var states1, actions1, s1 := DeleteAll(cfg, states, actions, s, ids);
    var states2, actions2, s2 := Extend(cfg, states1, actions1, s1, ByScheduler(ReadRows(true, Some(x))));
    if Emptiable(s, service) {
      forall row | row in s2.rows && row.service == service ensures Deletable(s2, row.reqId) {
        WithoutAllMembers(s.rows, ids);
        assert row in s.rows && Deletable(s1, row.reqId);
      }
    }
    ChosenCanBeLost(cfg, states2, actions2, s2, service);
    var states', actions' :| Continues(cfg, states2, actions2, states', actions', service);
    assert Continues(cfg, states, actions, states', actions', service);
  }

  // ---------------------------------------------------------------- the exact condition

  /** In any reachable state, a removed service can still be deleted under an unanswered request if and
      only if it is losable. */
  lemma LossIsExact(cfg: Config, states: seq<State>, actions: seq<Action>, s: State, service: nat)
    requires RunTo(cfg, states, actions, s) && service in s.drains
    ensures CanLose(cfg, states, actions, service) <==> Losable(cfg, s, service)
  {
    if CanLose(cfg, states, actions, service) {
      var states', actions' :| Continues(cfg, states, actions, states', actions', service);
      OnlyLosableIsLost(cfg, states, actions, s, states', actions', service);
    } else if Losable(cfg, s, service) {
      if MayInsert(cfg, s, service) {
        if s.scheduler.Chose? {
          ChosenCanBeLost(cfg, states, actions, s, service);
        } else {
          ListedCanBeLost(cfg, states, actions, s, service);
        }
      } else {
        BusyCanBeLost(cfg, states, actions, s, service);
      }
    }
  }

  /** The scale-down itself: a service it removes in a reachable state can be lost if and only if, in that
      state, the scheduler may still insert on it and all its rows can go. */
  lemma ScaleDownIsExact(cfg: Config, states: seq<State>, actions: seq<Action>, s: State,
                         request: ScaleRequest, result: Result, service: nat)
    requires RunTo(cfg, states, actions, s)
    requires service !in s.drains && service in Scale(s.fleet, cfg.pools, request, result).removed
    ensures var a := ByFleet(ScaleFn(request, result));
      && Enabled(cfg, s, a)
      && (CanLose(cfg, states + [Next(cfg, s, a)], actions + [a], service)
          <==> MayInsert(cfg, s, service) && Emptiable(s, service))
  {
    var a := ByFleet(ScaleFn(request, result));
    InvariantHolds(cfg, states, actions, |states| - 1);
    ScalingStartsFreshDrains(cfg, s, request, result);
    var states', actions', s' := Extend(cfg, states, actions, s, a);
    InvariantHolds(cfg, states', actions', |states'| - 1);
    LossIsExact(cfg, states', actions', s', service);
    MayInsertFrame(cfg, s, s', service);
    MayInsertFrame(cfg, s', s, service);
  }

  /** A polling drain whose service the scheduler does not hold deletes it under no request, whatever
      rows it still has. */
  lemma NoLossWithoutTheScheduler(cfg: Config, states: seq<State>, actions: seq<Action>, s: State, service: nat)
    requires RunTo(cfg, states, actions, s)
    requires service in s.drains && s.drains[service].pc.Polling? && Flight(s.scheduler, service) == 0
    ensures !CanLose(cfg, states, actions, service)
  {
    LossIsExact(cfg, states, actions, s, service);
    OnlyHeldIsInserted(cfg, s, service);
  }

  lemma OnlyHeldIsInserted(cfg: Config, s: State, service: nat)
    ensures MayInsert(cfg, s, service) ==> Flight(s.scheduler, service) == 1
  {
    if s.scheduler.SawInstances? && MayChoose(cfg, s, service) {
      var ids: set<nat>, x: Instance :| Gone(s, ids) && x.service == service && ChosenWithout(cfg, s, ids, x);
      FlightOfSeen(s.scheduler.req, s.scheduler.instances, x);
    }
  }
}
