/** What the two placement policies promise about the instance they choose, as relations on the
    tables they are given: the running instances of the function and its placement rows. */
module Placement {
  import opened Types
  import opened Tables

  datatype Policy = BasePolicy | OneTaskPolicy

  // ---------------------------------------------------------------- best fit

  predicate Fits(req: Request, rows: seq<Row>, x: Instance) {
    && Load(rows, x.service, Cpu) + req.cpu <= x.shape.cpu
    && Load(rows, x.service, Memory) + req.memory <= x.shape.memory
  }

  /** `x` is at most as large as `y` and, between equal shapes, at least as loaded. */
  predicate NoWorse(rows: seq<Row>, x: Instance, y: Instance) {
    || ShapeBefore(x.shape, y.shape)
    || (x.shape == y.shape && Load(rows, x.service, Cpu) >= Load(rows, y.service, Cpu))
  }

  ghost predicate BestFit(req: Request, rows: seq<Row>, instances: seq<Instance>, x: Instance) {
    && x in instances && Fits(req, rows, x)
    && forall y | y in instances && Fits(req, rows, y) :: NoWorse(rows, x, y)
  }

  // ---------------------------------------------------------------- one task per node

  ghost predicate Vacant(req: Request, rows: seq<Row>, x: Instance) {
    && (forall row | row in rows :: row.service != x.service)
    && Within(req.cpu, req.memory, x.shape)
  }

  // ---------------------------------------------------------------- both

  /** The outcomes a policy may have: an instance it may choose, or none when it must choose none. */
  ghost predicate Chooses(policy: Policy, req: Request, rows: seq<Row>, instances: seq<Instance>,
                          choice: Option<Instance>) {
    match (policy, choice)
    case (BasePolicy, None) => forall x | x in instances :: !Fits(req, rows, x)
    case (BasePolicy, Some(x)) => BestFit(req, rows, instances, x)
    case (OneTaskPolicy, None) => forall x | x in instances :: !Vacant(req, rows, x)
    case (OneTaskPolicy, Some(x)) => x in instances && Vacant(req, rows, x)
  }

  /** The row that places the request on the instance. */
  function Placed(req: Request, x: Instance): Row {
    Row(req.id, req.payload, req.func, x.service, x.ipv4, req.cpu, req.memory)
  }

  predicate Describes(row: Row, req: Request) {
    row.reqId == req.id && row.payload == req.payload && row.func == req.func
    && row.cpu == req.cpu && row.memory == req.memory
  }

  /** How much of a resource one instance may give away; both policies respect cpu and memory,
      only one of them limits tasks. */
  function Capacity(x: Instance, r: Resource): int {
    match r
    case Cpu => x.shape.cpu
    case Memory => x.shape.memory
    case Tasks => 1
  }

  /** Whatever either policy chooses leaves the load within capacity, in every resource that the
      policy limits. */
  lemma ChoiceRespectsCapacity(policy: Policy, req: Request, rows: seq<Row>, instances: seq<Instance>, x: Instance,
                               r: Resource)
    requires Chooses(policy, req, rows, instances, Some(x))
    requires r.Tasks? ==> policy.OneTaskPolicy?
    ensures Load(rows, x.service, r) + Weight(Placed(req, x), r) <= Capacity(x, r)
  {
    if policy.OneTaskPolicy? {
      EmptyLoad(rows, x.service, r);
    }
  }

  /** Each policy turns an instance down only if it must: under the base policy exactly when one of the
      two loads would exceed the capacity, under the one-task policy exactly when a row is there already,
      or the request is too large for the instance alone. */
  lemma SuitableMeans(req: Request, rows: seq<Row>, x: Instance)
    ensures Fits(req, rows, x)
      <==> Load(rows, x.service, Cpu) + req.cpu <= x.shape.cpu
           && Load(rows, x.service, Memory) + req.memory <= x.shape.memory
    ensures Vacant(req, rows, x)
      <==> RowsOnService(rows, x.service) == [] && req.cpu <= x.shape.cpu && req.memory <= x.shape.memory
  {
    var on := RowsOnService(rows, x.service);
    if on == [] {
      forall row | row in rows ensures row.service != x.service {
        assert row !in on;
      }
    } else {
      assert on[0] in on;
    }
  }

  /** Any other instance with room has more cpu; or as much cpu and more memory; or the same shape and at
      most the cpu load. */
  lemma BestFitIsSmallestThenBusiest(req: Request, rows: seq<Row>, instances: seq<Instance>, x: Instance, y: Instance)
    requires BestFit(req, rows, instances, x) && y in instances && Fits(req, rows, y)
    ensures x.shape.cpu <= y.shape.cpu
    ensures x.shape.cpu == y.shape.cpu ==> x.shape.memory <= y.shape.memory
    ensures x.shape == y.shape ==> Load(rows, x.service, Cpu) >= Load(rows, y.service, Cpu)
  {}

  /** Two best fits have the same shape and the same load, so the outcome of the policy does not
      depend on the order in which the instances are visited. */
  lemma BestFitIsUnique(req: Request, rows: seq<Row>, instances: seq<Instance>, x: Instance, y: Instance)
    requires BestFit(req, rows, instances, x) && BestFit(req, rows, instances, y)
    ensures x.shape == y.shape && Load(rows, x.service, Cpu) == Load(rows, y.service, Cpu)
  {
    assert NoWorse(rows, x, y) && NoWorse(rows, y, x);
  }
}
