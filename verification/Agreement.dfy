/** The scheduler and the auto-scaler size a request in the same way. */
module Agreement {
  import opened Types
  import opened Tables
  import opened Placement
  import opened Sampling
  import opened DemandSpec
  import opened Protocol
  import opened Runs

  ghost predicate ShapeRunning(shape: Shape, instances: seq<Instance>) {
    exists i :: 0 <= i < |instances| && instances[i].shape == shape
  }

  /** Running instances of every spec and of no other shape, all of them idle. */
  ghost predicate IdleFleet(rows: seq<Row>, instances: seq<Instance>, specs: seq<Spec>) {
    && (forall x | x in instances :: ShapeListed(x.shape, specs))
    && (forall s | s in specs :: ShapeRunning(s.shape, instances))
    && (forall x | x in instances :: RowsOnService(rows, x.service) == [])
  }

  lemma IdleInstanceFits(req: Request, rows: seq<Row>, x: Instance)
    requires RowsOnService(rows, x.service) == []
    ensures Fits(req, rows, x) <==> Within(req.cpu, req.memory, x.shape)
  {
    forall row | row in rows ensures row.service != x.service {
      assert row !in RowsOnService(rows, x.service);
    }
    EmptyLoad(rows, x.service, Cpu);
    EmptyLoad(rows, x.service, Memory);
  }

  /** On an idle fleet the base policy places a request on an instance of exactly the shape that the
      auto-scaler charges it to; if no spec holds the request, the policy places it nowhere and the
      auto-scaler charges it to the largest spec. */
  lemma SchedulerAndScalerAgree(req: Request, rows: seq<Row>, instances: seq<Instance>, specs: seq<Spec>,
                                choice: Option<Instance>)
    requires Usable(specs) && IdleFleet(rows, instances, specs)
    requires Chooses(BasePolicy, req, rows, instances, choice)
    ensures var k := Bucket(FromRequest(req), specs);
      if exists s :: s in specs && FitsSpec(FromRequest(req), s)
      then choice.Some? && choice.value.shape == specs[k].shape
      else choice.None? && k == |specs| - 1
  {
    var sampled := FromRequest(req);
    BucketIsLeastFit(sampled, specs);
    BucketFromIsFirst(sampled, specs, 0);
    if exists s :: s in specs && FitsSpec(sampled, s) {
      var spec := specs[Bucket(sampled, specs)];
      assert ShapeRunning(spec.shape, instances);
      var i :| 0 <= i < |instances| && instances[i].shape == spec.shape;
      IdleInstanceFits(req, rows, instances[i]);
      ChosenShapeIsLeast(req, rows, instances, specs, choice.value, instances[i], spec);
    } else {
      forall x | x in instances ensures !Fits(req, rows, x) {
        IdleInstanceFits(req, rows, x);
        assert ShapeListed(x.shape, specs);
        var j :| 0 <= j < |specs| && specs[j].shape == x.shape;
        assert specs[j] in specs;
      }
    }
  }

  /** What Schedule reads for a function is such a fleet: in every reachable state, scheduling a
      request of a valid function whose specs all have running instances, all of them idle, agrees with
      how the auto-scaler sorts and charges. */
  lemma ReachableFleetsAgree(cfg: Config, states: seq<State>, actions: seq<Action>, k: nat,
                             req: Request, sorted: seq<Spec>, choice: Option<Instance>)
    requires IsRun(cfg, states, actions) && k < |states| && req.func in states[k].fleet.meta
    requires multiset(sorted) == multiset(states[k].fleet.meta[req.func]) && Usable(sorted)
    requires var s := states[k];
      var running := RunningOf(s.fleet.instances, req.func);
      && (forall spec | spec in sorted :: ShapeRunning(spec.shape, running))
      && (forall x | x in running :: RowsOnService(s.rows, x.service) == [])
      && Chooses(BasePolicy, req, RowsOfFunction(s.rows, req.func), running, choice)
    ensures var k := Bucket(FromRequest(req), sorted);
      if exists s :: s in sorted && FitsSpec(FromRequest(req), s)
      then choice.Some? && choice.value.shape == sorted[k].shape
      else choice.None? && k == |sorted| - 1
  {
    InvariantHolds(cfg, states, actions, k);
    var s := states[k];
    var specs := s.fleet.meta[req.func];
    var running, read := RunningOf(s.fleet.instances, req.func), RowsOfFunction(s.rows, req.func);
    forall x | x in running ensures ShapeListed(x.shape, sorted) && RowsOnService(read, x.service) == [] {
      assert ShapeListed(x.shape, specs);
      var i :| 0 <= i < |specs| && specs[i].shape == x.shape;
      assert specs[i] in multiset(specs);
      assert specs[i] in sorted;
      forall row | row in read ensures row.service != x.service {
        assert row !in RowsOnService(s.rows, x.service);
      }
      EmptyLoad(read, x.service, Tasks);
      NoRowsNoTasks(read, x.service);
    }
    SchedulerAndScalerAgree(req, read, running, sorted, choice);
  }

  lemma ChosenShapeIsLeast(req: Request, rows: seq<Row>, instances: seq<Instance>, specs: seq<Spec>, x: Instance,
                           y: Instance, spec: Spec)
    requires IdleFleet(rows, instances, specs) && BestFit(req, rows, instances, x)
    requires y in instances && Fits(req, rows, y) && y.shape == spec.shape
    requires forall s | s in specs && FitsSpec(FromRequest(req), s) && s != spec :: ShapeBefore(spec.shape, s.shape)
    ensures x.shape == spec.shape
  {
    assert NoWorse(rows, x, y);
    IdleInstanceFits(req, rows, x);
    assert ShapeListed(x.shape, specs);
    var j :| 0 <= j < |specs| && specs[j].shape == x.shape;
    assert specs[j] in specs && FitsSpec(FromRequest(req), specs[j]);
  }
}
