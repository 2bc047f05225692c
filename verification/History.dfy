/** First in, first out, and what the placement table and the call routines know of a request. */
module History {
  import opened Tables
  import opened Placement
  import opened Protocol

  predicate HoldsRequest(pc: SchedulerPc) {
    !pc.Idle? && !pc.Woken?
  }

  predicate HoldsRow(pc: SchedulerPc) {
    pc.Chose? || pc.Inserted?
  }

  /** How many requests have left the queue. */
  function Popped(s: State): int {
    |s.dispatched| - if s.scheduler.Inserted? then 1 else 0
  }

  ghost predicate Fifo(s: State) {
    && (forall i | 0 <= i < |s.submitted| :: s.submitted[i].id == i)
    && s.dispatched <= s.submitted
    && 0 <= Popped(s)
    && s.queue == s.submitted[Popped(s)..]
    && (HoldsRequest(s.scheduler) ==> s.queue != [] && s.scheduler.req == s.queue[0])
    && (HoldsRow(s.scheduler) ==> Describes(s.scheduler.row, s.scheduler.req))
  }

  lemma FifoByCaller(cfg: Config, s: State, a: CallerStep)
    requires CallerEnabled(cfg, s, a) && Fifo(s)
    ensures Fifo(NextCaller(cfg, s, a))
  {
    if a.Submit? {
      var s' := NextCaller(cfg, s, a);
      assert s'.queue == s'.submitted[Popped(s')..];
    }
  }

  lemma FifoPop(cfg: Config, s: State)
    requires s.scheduler.Inserted? && Fifo(s)
    ensures Fifo(NextScheduler(cfg, s, Pop))
  {
    var s' := NextScheduler(cfg, s, Pop);
    assert s.queue[1..] == s.submitted[Popped(s)..][1..] == s.submitted[Popped(s')..];
  }

  lemma FifoInsert(s: State)
    requires s.scheduler.Chose? && Fifo(s)
    ensures Fifo(InsertRow(s, s.scheduler.req, s.scheduler.row))
  {
    assert s.scheduler.req == s.submitted[|s.dispatched|];
    assert s.dispatched + [s.scheduler.req] == s.submitted[..|s.dispatched| + 1];
  }

  lemma FifoByScheduler(cfg: Config, s: State, a: SchedulerStep)
    requires SchedulerEnabled(cfg, s, a) && Fifo(s)
    ensures Fifo(NextScheduler(cfg, s, a))
  {
    if a.Pop? {
      FifoPop(cfg, s);
    } else if a.Insert? && a.ok {
      FifoInsert(s);
    }
  }

  lemma FifoByRoutine(cfg: Config, s: State, a: RoutineStep)
    requires RoutineEnabled(s, a) && Fifo(s)
    ensures Fifo(NextRoutine(cfg, s, a))
  {}

  lemma FifoByFleet(cfg: Config, s: State, a: FleetStep)
    requires FleetEnabled(s, a) && Fifo(s)
    ensures Fifo(NextFleet(cfg, s, a))
  {}

  lemma FifoStep(cfg: Config, s: State, a: Action)
    requires Enabled(cfg, s, a) && Fifo(s)
    ensures Fifo(Next(cfg, s, a))
  {
    match a
    case ByCaller(step) => FifoByCaller(cfg, s, step);
    case ByScheduler(step) => FifoByScheduler(cfg, s, step);
    case ByRoutine(step) => FifoByRoutine(cfg, s, step);
    case ByFleet(step) => FifoByFleet(cfg, s, step);
  }

  /** The placement table holds dispatched requests, each at most once and with its own demands, and
      every routine whose caller was not answered yet still has its row. */
  ghost predicate Placements(s: State) {
    && (forall row | row in s.rows :: row.reqId < |s.dispatched| && Describes(row, s.dispatched[row.reqId]))
    && DistinctIds(s.rows)
    && (s.scheduler.Inserted? ==> s.scheduler.row in s.rows)
    && (forall id | id in s.routines :: RoutineOk(s, id))
  }

  ghost predicate RoutineOk(s: State, id: nat)
    requires id in s.routines
  {
    var routine := s.routines[id];
    && id < Popped(s) <= |s.dispatched|
    && routine.req == s.dispatched[id]
    && Describes(routine.row, routine.req)
    && (Unanswered(routine) ==> routine.row in s.rows)
  }

  lemma InsertKeepsPlacements(cfg: Config, s: State)
    requires s.scheduler.Chose? && Fifo(s) && Placements(s)
    ensures Placements(InsertRow(s, s.scheduler.req, s.scheduler.row))
  {
    var row := s.scheduler.row;
    var s' := InsertRow(s, s.scheduler.req, row);
    assert s.scheduler.req == s.submitted[|s.dispatched|];
    assert row.reqId == |s.dispatched|;
    forall id | id in s'.routines ensures RoutineOk(s', id) {
      assert RoutineOk(s, id);
    }
    forall i, j | 0 <= i < j < |s'.rows| ensures s'.rows[i].reqId != s'.rows[j].reqId {
      assert s'.rows[i] in s.rows;
    }
  }

  lemma PlacementsByScheduler(cfg: Config, s: State, a: SchedulerStep)
    requires SchedulerEnabled(cfg, s, a) && Fifo(s) && Placements(s)
    ensures Placements(NextScheduler(cfg, s, a))
  {
    if a.Insert? && a.ok {
      InsertKeepsPlacements(cfg, s);
    } else {
      var s' := NextScheduler(cfg, s, a);
      assert a.Pop? ==> s.scheduler.req == s.dispatched[|s.dispatched| - 1];
      forall id | id in s'.routines ensures RoutineOk(s', id) {
        assert id in s.routines ==> RoutineOk(s, id);
      }
    }
  }

  lemma PlacementsByDelete(cfg: Config, s: State, reqId: nat)
    requires RoutineEnabled(s, DeleteRow(reqId, true)) && Fifo(s) && Placements(s)
    ensures Placements(NextRoutine(cfg, s, DeleteRow(reqId, true)))
  {
    var s' := NextRoutine(cfg, s, DeleteRow(reqId, true));
    assert RoutineOk(s, reqId);
    DeleteKeepsDistinct(s.rows, reqId);
    forall id | id in s'.routines ensures RoutineOk(s', id) {
      assert RoutineOk(s, id);
    }
  }

  lemma PlacementsByRoutine(cfg: Config, s: State, a: RoutineStep)
    requires RoutineEnabled(s, a) && Fifo(s) && Placements(s)
    ensures Placements(NextRoutine(cfg, s, a))
  {
    if a.DeleteRow? && a.ok {
      PlacementsByDelete(cfg, s, a.reqId);
    } else {
      var s' := NextRoutine(cfg, s, a);
      forall id | id in s'.routines ensures RoutineOk(s', id) {
        assert RoutineOk(s, id);
      }
    }
  }

  lemma PlacementsFrame(s: State, s': State)
    requires Placements(s)
    requires s'.rows == s.rows && s'.dispatched == s.dispatched
    requires s'.scheduler == s.scheduler || (!s.scheduler.Inserted? && !s'.scheduler.Inserted?)
    requires s'.routines == s.routines
    ensures Placements(s')
  {
    forall id | id in s'.routines ensures RoutineOk(s', id) {
      assert RoutineOk(s, id);
    }
  }

  lemma PlacementsStep(cfg: Config, s: State, a: Action)
    requires Enabled(cfg, s, a) && Fifo(s) && Placements(s)
    ensures Placements(Next(cfg, s, a))
  {
    match a
    case ByCaller(step) => PlacementsFrame(s, NextCaller(cfg, s, step));
    case ByScheduler(step) => PlacementsByScheduler(cfg, s, step);
    case ByRoutine(step) => PlacementsByRoutine(cfg, s, step);
    case ByFleet(step) => PlacementsFrame(s, NextFleet(cfg, s, step));
  }

  /** The conservation law: what was submitted is what was dispatched followed by what is queued,
      except between insert and pop, when the head of the queue is the last request dispatched. */
  lemma SubmittedIsDispatchedThenQueued(s: State)
    requires Fifo(s)
    ensures !s.scheduler.Inserted? ==> s.submitted == s.dispatched + s.queue
    ensures s.scheduler.Inserted? ==>
      && s.dispatched != [] && s.queue != [] && s.dispatched[|s.dispatched| - 1] == s.queue[0]
      && s.submitted == s.dispatched + s.queue[1..]
  {
    assert s.submitted == s.submitted[..Popped(s)] + s.submitted[Popped(s)..];
  }
}
