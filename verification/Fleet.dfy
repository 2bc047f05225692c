/** What creating, scaling and deleting a function do to the instance table, as functions of the table.

    The class FuncManager implements them step by step; the scheduling protocol takes them as
    steps; this module proves what they keep. */
module Fleet {
  import opened Types

  /** `instances` is the instance table.  The other fields are history: `created` lists every
      instance ever entered in the table, in order of service name; `removed` lists the services
      handed to the asynchronous drain, in order; `complete` holds the functions whose creation
      ran to its end, and that were not deleted since. */
  datatype Fleet = Fleet(
    meta: map<string, seq<Spec>>, instances: seq<Instance>,
    created: seq<Instance>, removed: seq<nat>, complete: set<string>)

  datatype ScaleRequest = ScaleRequest(func: string, shape: Shape, count: int)

  /** The calls to the outside that a creation or a scaling makes either all work, or one fails:
      before anything is written, or when the instances are created and entered. */
  datatype Result = Works | ReadFails | CreateFails

  // ---------------------------------------------------------------- queries

  function Matching(instances: seq<Instance>, func: string, shape: Shape): (r: seq<Instance>)
  {
    if instances == [] then []
    else
      var last := instances[|instances| - 1];
      Matching(instances[..|instances| - 1], func, shape)
      + if last.func == func && last.shape == shape then [last] else []
  }

  function One(x: Instance, func: string, shape: Shape, pools: set<Pool>): nat {
    if x.func == func && x.shape == shape && x.launch in pools then 1 else 0
  }

  /** How many instances of the function and shape run in one of the given pools. */
  function Tally(instances: seq<Instance>, func: string, shape: Shape, pools: set<Pool>): nat {
    if instances == [] then 0
    else Tally(instances[..|instances| - 1], func, shape, pools) + One(instances[|instances| - 1], func, shape, pools)
  }

  function Count(instances: seq<Instance>, func: string, shape: Shape): nat {
    Tally(instances, func, shape, ALL_POOLS)
  }

  function WithoutService(instances: seq<Instance>, service: nat): seq<Instance> {
    if instances == [] then []
    else
      var last := instances[|instances| - 1];
      WithoutService(instances[..|instances| - 1], service)
      + if last.service != service then [last] else []
  }

  function WithoutFunction(instances: seq<Instance>, func: string): (r: seq<Instance>)
    ensures forall x :: x in r <==> x in instances && x.func != func
  {
    if instances == [] then []
    else
      var last := instances[|instances| - 1];
      WithoutFunction(instances[..|instances| - 1], func) + if last.func != func then [last] else []
  }

  // ---------------------------------------------------------------- creation

  /** `count` instances of one spec, named from `first` on. */
  function NewInstances(func: string, shape: Shape, launch: Pool, first: nat, count: nat): (r: seq<Instance>)
    ensures |r| == count
    ensures forall k | 0 <= k < count :: r[k] == Instance(first + k, func, shape, launch, "", "", "NOT_CREATE", "")
  {
    if count == 0 then []
    else NewInstances(func, shape, launch, first, count - 1)
         + [Instance(first + count - 1, func, shape, launch, "", "", "NOT_CREATE", "")]
  }

  /** The minimum number of hot instances for each of the specs, in order. */
  function HotInstances(func: string, specs: seq<Spec>, hot: Pool, first: nat): (r: seq<Instance>)
    requires forall s | s in specs :: s.minReplica >= 0
    ensures forall k | 0 <= k < |r| :: r[k].service == first + k
  {
    if specs == [] then []
    else
      var front := HotInstances(func, specs[..|specs| - 1], hot, first);
      var last := specs[|specs| - 1];
      front + NewInstances(func, last.shape, hot, first + |front|, last.minReplica)
  }

  function Enter(fleet: Fleet, news: seq<Instance>): Fleet {
    fleet.(instances := fleet.instances + news, created := fleet.created + news)
  }

  function Create(fleet: Fleet, pools: Pools, func: string, specs: seq<Spec>, result: Result): Fleet
    requires forall s | s in specs :: s.minReplica >= 0
  {
    if func in fleet.meta || result.ReadFails? then fleet
    else
      var registered := fleet.(meta := fleet.meta[func := specs]);
      if result.CreateFails? then registered
      else
        Enter(registered, HotInstances(func, specs, pools.hot, |fleet.created|))
        .(complete := fleet.complete + {func})
  }

  // ---------------------------------------------------------------- deletion

  /** Delete all instance rows of a function and then its metadata, which may fail.  The services are
      deleted without a drain. */
  function Delete(fleet: Fleet, func: string, readOk: bool, metaOk: bool): Fleet {
    if !readOk || func !in fleet.meta then fleet
    else
      fleet.(instances := WithoutFunction(fleet.instances, func),
             meta := if metaOk then fleet.meta - {func} else fleet.meta,
             complete := fleet.complete - {func})
  }

  // ---------------------------------------------------------------- scaling

  /** The limits of the last spec with the given shape, or a pair of -1. */
  function Limits(specs: seq<Spec>, shape: Shape): (int, int) {
    if specs == [] then (-1, -1)
    else
      var last := specs[|specs| - 1];
      if last.shape == shape then (last.minReplica, last.maxReplica)
      else Limits(specs[..|specs| - 1], shape)
  }

  /** The change that is applied to `current` replicas when `count` is asked for. */
  function Clamped(current: nat, count: int, minReplica: int, maxReplica: int): int {
    if count > 0 then
      if current + count > maxReplica then maxReplica - current else count
    else if count < 0 then
      if current + count < minReplica then minReplica - current else count
    else 0
  }

  function RemoveService(fleet: Fleet, service: nat): Fleet {
    fleet.(instances := WithoutService(fleet.instances, service), removed := fleet.removed + [service])
  }

  /** Remove the first `quota` cold instances of the list, one by one. */
  function RemoveCold(fleet: Fleet, list: seq<Instance>, cold: Pool, quota: nat): (r: Fleet)
    ensures fleet.removed <= r.removed
    decreases |list|
  {
    if list == [] || quota == 0 then fleet
    else if list[0].launch == cold then
      RemoveCold(RemoveService(fleet, list[0].service), list[1..], cold, quota - 1)
    else RemoveCold(fleet, list[1..], cold, quota)
  }

  /** The change a scale request amounts to: none for an unknown function or shape. */
  function Change(fleet: Fleet, req: ScaleRequest): int {
    if req.func !in fleet.meta then 0
    else
      var limits := Limits(fleet.meta[req.func], req.shape);
      if limits.1 == -1 then 0
      else Clamped(Count(fleet.instances, req.func, req.shape), req.count, limits.0, limits.1)
  }

  function Apply(fleet: Fleet, cold: Pool, func: string, shape: Shape, change: int, result: Result): (r: Fleet)
    ensures fleet.removed <= r.removed
  {
    if result.ReadFails? || change == 0 then fleet
    else if change > 0 then
      if result.CreateFails? then fleet
      else Enter(fleet, NewInstances(func, shape, cold, |fleet.created|, change))
    else RemoveCold(fleet, Matching(fleet.instances, func, shape), cold, -change)
  }

  function Scale(fleet: Fleet, pools: Pools, req: ScaleRequest, result: Result): (r: Fleet)
    ensures fleet.removed <= r.removed
  {
    Apply(fleet, pools.cold, req.func, req.shape, Change(fleet, req), result)
  }
}
