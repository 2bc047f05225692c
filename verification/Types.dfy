/** The records that the scheduler, the fleet manager and the database tables share.

    Names that the program only ever compares for equality are numbers: a request id is the
    value of an id generator that never repeats, and a service name is the position of the
    instance in the history of creations.  `call` in a request stands for the response channel,
    since every caller makes exactly one channel. */
module Types {

  datatype Option<+T> = None | Some(value: T)

  /** The result of one attempt to call a function: a payload, or an error. */
  datatype Outcome = Ok(payload: string) | Err(error: string)

  datatype Request = Request(id: nat, call: nat, func: string, payload: string, cpu: int, memory: int)

  /** A row of the placement table: request `reqId` occupies `cpu` and `memory` on `service`. */
  datatype Row = Row(reqId: nat, payload: string, func: string, service: nat, ipv4: string, cpu: int, memory: int)

  datatype Pool = EC2 | Fargate | FargateSpot

  datatype Pools = Pools(hot: Pool, cold: Pool)

  /** The pair that keys every demand and replica count. */
  datatype Shape = Shape(cpu: int, memory: int)

  /** A row of the instance table. */
  datatype Instance = Instance(
    service: nat, func: string, shape: Shape, launch: Pool,
    taskArn: string, ipv4: string, lastStatus: string, desiredStatus: string)

  datatype Spec = Spec(shape: Shape, minReplica: int, maxReplica: int)

  /** What the auto-scaler keeps of a queued or placed request. */
  datatype Sampled = Sampled(id: nat, func: string, cpu: int, memory: int)

  const ALL_POOLS: set<Pool> := {EC2, Fargate, FargateSpot}
  const RUNNING := "RUNNING"

  predicate ShapeBefore(a: Shape, b: Shape) {
    a.cpu < b.cpu || (a.cpu == b.cpu && a.memory < b.memory)
  }

  predicate Within(cpu: int, memory: int, shape: Shape) {
    cpu <= shape.cpu && memory <= shape.memory
  }

  ghost predicate ShapeListed(shape: Shape, specs: seq<Spec>) {
    exists k :: 0 <= k < |specs| && specs[k].shape == shape
  }

  predicate PositiveShape(shape: Shape) {
    shape.cpu > 0 && shape.memory > 0
  }

  /** What an operator must write in a creation request for the replica limits to make sense. */
  ghost predicate ValidSpecs(specs: seq<Spec>) {
    && specs != []
    && (forall s | s in specs :: PositiveShape(s.shape) && 0 <= s.minReplica <= s.maxReplica)
    && (forall i, j | 0 <= i < j < |specs| :: specs[i].shape != specs[j].shape)
  }
}
