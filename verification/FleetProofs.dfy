/** What creation and scaling keep, over every sequence of requests. */
module FleetProofs {
  import opened Types
  import opened Fleet

  // ---------------------------------------------------------------- well-formed fleets

  ghost predicate DistinctServices(instances: seq<Instance>) {
    forall i, j | 0 <= i < j < |instances| :: instances[i].service != instances[j].service
  }

  /** The status monitor rewrites status, task and address, never these. */
  predicate SameSlot(a: Instance, b: Instance) {
    a.service == b.service && a.func == b.func && a.shape == b.shape && a.launch == b.launch
  }

  ghost predicate FleetOk(fleet: Fleet) {
    && (forall k | 0 <= k < |fleet.created| :: fleet.created[k].service == k)
    && (forall x | x in fleet.instances ::
          x.service < |fleet.created| && SameSlot(x, fleet.created[x.service]))
    && (forall x | x in fleet.instances :: x.func in fleet.meta && ShapeListed(x.shape, fleet.meta[x.func]))
    && DistinctServices(fleet.instances)
    && (forall service | service in fleet.removed ::
          service < |fleet.created| && forall x | x in fleet.instances :: x.service != service)
    && (forall i, j | 0 <= i < j < |fleet.removed| :: fleet.removed[i] != fleet.removed[j])
    && fleet.complete <= fleet.meta.Keys
  }

  // ---------------------------------------------------------------- counting

  lemma {:induction false} TallyAppend(a: seq<Instance>, b: seq<Instance>, func: string, shape: Shape, pools: set<Pool>)
    ensures Tally(a + b, func, shape, pools) == Tally(a, func, shape, pools) + Tally(b, func, shape, pools)
  {
    if b == [] {
      assert a + b == a;
    } else {
      var front := b[..|b| - 1];
      assert (a + b)[..|a + b| - 1] == a + front;
      TallyAppend(a, front, func, shape, pools);
    }
  }

  lemma TallyHead(list: seq<Instance>, func: string, shape: Shape, pools: set<Pool>)
    requires list != []
    ensures Tally(list, func, shape, pools) == One(list[0], func, shape, pools) + Tally(list[1..], func, shape, pools)
  {
    assert [list[0]] + list[1..] == list;
    TallyAppend([list[0]], list[1..], func, shape, pools);
    assert [list[0]][..0] == [];
  }

  lemma {:induction false} TallyZero(instances: seq<Instance>, func: string, shape: Shape, pools: set<Pool>)
    requires forall x | x in instances :: One(x, func, shape, pools) == 0
    ensures Tally(instances, func, shape, pools) == 0
  {
    if instances != [] {
      var front, last := instances[..|instances| - 1], instances[|instances| - 1];
      assert last in instances && forall x | x in front :: x in instances;
      TallyZero(front, func, shape, pools);
    }
  }

  /** Pools partition a count: the cold ones and the others. */
  lemma {:induction false} TallySplit(instances: seq<Instance>, func: string, shape: Shape, pool: Pool)
    ensures Count(instances, func, shape)
         == Tally(instances, func, shape, {pool}) + Tally(instances, func, shape, ALL_POOLS - {pool})
  {
    if instances != [] {
      TallySplit(instances[..|instances| - 1], func, shape, pool);
    }
  }

  lemma {:induction false} MatchingMembers(instances: seq<Instance>, func: string, shape: Shape)
    ensures forall x :: x in Matching(instances, func, shape) <==> x in instances && x.func == func && x.shape == shape
    ensures DistinctServices(instances) ==> DistinctServices(Matching(instances, func, shape))
  {
    if instances != [] {
      var front, last := instances[..|instances| - 1], instances[|instances| - 1];
      MatchingMembers(front, func, shape);
      if last.func == func && last.shape == shape {
        assert Matching(instances, func, shape) == Matching(front, func, shape) + [last];
      } else {
        assert Matching(instances, func, shape) == Matching(front, func, shape);
      }
      assert forall x :: x in instances <==> x in front || x == last;
    }
  }

  lemma TallySnoc(front: seq<Instance>, last: Instance, func: string, shape: Shape, pools: set<Pool>)
    ensures Tally(front + [last], func, shape, pools)
      == Tally(front, func, shape, pools) + One(last, func, shape, pools)
  {
    assert (front + [last])[..|front|] == front;
  }

  lemma AnyPool(pool: Pool)
    ensures pool in ALL_POOLS
  {
    match pool
    case EC2 => case Fargate => case FargateSpot =>
  }

  lemma {:induction false} MatchingTally(instances: seq<Instance>, func: string, shape: Shape, pools: set<Pool>)
    ensures Tally(Matching(instances, func, shape), func, shape, pools) == Tally(instances, func, shape, pools)
  {
    if instances != [] {
      var front, last := instances[..|instances| - 1], instances[|instances| - 1];
      MatchingTally(front, func, shape, pools);
      if last.func == func && last.shape == shape {
        assert Matching(instances, func, shape) == Matching(front, func, shape) + [last];
        TallySnoc(Matching(front, func, shape), last, func, shape, pools);
      } else {
        assert Matching(instances, func, shape) == Matching(front, func, shape);
      }
    }
  }

  lemma {:induction false} MatchingCount(instances: seq<Instance>, func: string, shape: Shape)
    ensures |Matching(instances, func, shape)| == Count(instances, func, shape)
  {
    if instances != [] {
      MatchingCount(instances[..|instances| - 1], func, shape);
      AnyPool(instances[|instances| - 1].launch);
    }
  }

  lemma {:induction false} WithoutServiceIsFilter(instances: seq<Instance>, service: nat)
    ensures forall x :: x in WithoutService(instances, service) <==> x in instances && x.service != service
    ensures DistinctServices(instances) ==> DistinctServices(WithoutService(instances, service))
  {
    if instances != [] {
      var front, last := instances[..|instances| - 1], instances[|instances| - 1];
      WithoutServiceIsFilter(front, service);
      if last.service != service {
        assert WithoutService(instances, service) == WithoutService(front, service) + [last];
      } else {
        assert WithoutService(instances, service) == WithoutService(front, service);
      }
      assert forall x :: x in instances <==> x in front || x == last;
    }
  }

  lemma {:induction false} NothingToRemove(instances: seq<Instance>, service: nat)
    requires forall i | 0 <= i < |instances| :: instances[i].service != service
    ensures WithoutService(instances, service) == instances
  {
    if instances != [] {
      var n := |instances| - 1;
      NothingToRemove(instances[..n], service);
      assert instances[..n] + [instances[n]] == instances;
    }
  }

  /** Removing a service takes exactly its one instance out of every count. */
  lemma {:induction false} TallyWithout(instances: seq<Instance>, victim: Instance, func: string, shape: Shape,
                                        pools: set<Pool>)
    requires DistinctServices(instances) && victim in instances
    ensures Tally(WithoutService(instances, victim.service), func, shape, pools)
         == Tally(instances, func, shape, pools) - One(victim, func, shape, pools)
  {
    var front, last := instances[..|instances| - 1], instances[|instances| - 1];
    if last == victim {
      NothingToRemove(front, victim.service);
      assert WithoutService(instances, victim.service) == WithoutService(front, victim.service) == front;
    } else {
      assert victim in front;
      TallyWithout(front, victim, func, shape, pools);
      assert WithoutService(instances, victim.service) == WithoutService(front, victim.service) + [last];
      TallySnoc(WithoutService(front, victim.service), last, func, shape, pools);
    }
  }

  // ---------------------------------------------------------------- removal

  lemma RemoveKeepsOk(fleet: Fleet, victim: Instance)
    requires FleetOk(fleet) && victim in fleet.instances
    ensures FleetOk(RemoveService(fleet, victim.service))
  {
    WithoutServiceIsFilter(fleet.instances, victim.service);
    assert victim.service !in fleet.removed;
  }

  lemma RemoveKeepsDistinct(fleet: Fleet, service: nat)
    requires DistinctServices(fleet.instances)
    ensures DistinctServices(RemoveService(fleet, service).instances)
  {
    WithoutServiceIsFilter(fleet.instances, service);
  }

  ghost predicate Victims(fleet: Fleet, list: seq<Instance>, func: string, shape: Shape) {
    DistinctServices(list) && forall x | x in list :: x in fleet.instances && x.func == func && x.shape == shape
  }

  lemma VictimsAfterOne(fleet: Fleet, list: seq<Instance>, func: string, shape: Shape)
    requires list != [] && Victims(fleet, list, func, shape)
    ensures Victims(RemoveService(fleet, list[0].service), list[1..], func, shape)
    ensures Victims(fleet, list[1..], func, shape)
  {
    WithoutServiceIsFilter(fleet.instances, list[0].service);
    forall x | x in list[1..] ensures x in list && x.service != list[0].service {
      var i :| 0 <= i < |list[1..]| && list[1..][i] == x;
      assert list[i + 1] == x;
    }
  }

  function Min(a: int, b: int): int { if a <= b then a else b }
  function Max(a: int, b: int): int { if a >= b then a else b }

  /** What scale-down leaves alone, and which instances it may take. */
  ghost predicate RemovedOnly(fleet: Fleet, after: Fleet, cold: Pool, func: string, shape: Shape) {
    && after.meta == fleet.meta && after.created == fleet.created && after.complete == fleet.complete
    && fleet.removed <= after.removed
    && (forall x | x in after.instances :: x in fleet.instances)
    && (forall x | x in fleet.instances ::
          x in after.instances
          || (x.launch == cold && x.func == func && x.shape == shape && x.service in after.removed[|fleet.removed|..]))
    && (forall service | service in after.removed[|fleet.removed|..] ::
          && (exists i :: 0 <= i < |fleet.instances| && fleet.instances[i].service == service)
          && (forall x | x in after.instances :: x.service != service))
  }

  lemma RemovedOnlyOne(fleet: Fleet, victim: Instance, cold: Pool, func: string, shape: Shape)
    requires DistinctServices(fleet.instances) && victim in fleet.instances
    requires victim.launch == cold && victim.func == func && victim.shape == shape
    ensures RemovedOnly(fleet, RemoveService(fleet, victim.service), cold, func, shape)
    ensures DistinctServices(RemoveService(fleet, victim.service).instances)
  {
    WithoutServiceIsFilter(fleet.instances, victim.service);
    var after := RemoveService(fleet, victim.service);
    assert after.removed[|fleet.removed|..] == [victim.service];
    forall x | x in fleet.instances && x.service == victim.service ensures x == victim {}
  }

  lemma RemovedOnlyTrans(a: Fleet, b: Fleet, c: Fleet, cold: Pool, func: string, shape: Shape)
    requires RemovedOnly(a, b, cold, func, shape) && RemovedOnly(b, c, cold, func, shape)
    ensures RemovedOnly(a, c, cold, func, shape)
  {
    assert c.removed[|a.removed|..] == b.removed[|a.removed|..] + c.removed[|b.removed|..];
  }

  /** Scale-down removes cold instances of the requested kind only, and hands exactly the removed
      services to the drain. */
  lemma {:induction false} RemoveColdOnly(
      fleet: Fleet, list: seq<Instance>, cold: Pool, quota: nat, func: string, shape: Shape)
    requires DistinctServices(fleet.instances) && Victims(fleet, list, func, shape)
    ensures RemovedOnly(fleet, RemoveCold(fleet, list, cold, quota), cold, func, shape)
    decreases |list|
  {
    if list == [] || quota == 0 {
      assert fleet.removed[|fleet.removed|..] == [];
    } else {
      VictimsAfterOne(fleet, list, func, shape);
      var first, rest := list[0], list[1..];
      assert first in list;
      if first.launch == cold {
        var next := RemoveService(fleet, first.service);
        RemovedOnlyOne(fleet, first, cold, func, shape);
        RemoveColdOnly(next, rest, cold, quota - 1, func, shape);
        RemovedOnlyTrans(fleet, next, RemoveCold(next, rest, cold, quota - 1), cold, func, shape);
      } else {
        RemoveColdOnly(fleet, rest, cold, quota, func, shape);
      }
    }
  }

  lemma {:induction false} RemoveColdKeepsOk(
      fleet: Fleet, list: seq<Instance>, cold: Pool, quota: nat, func: string, shape: Shape)
    requires FleetOk(fleet) && Victims(fleet, list, func, shape)
    ensures FleetOk(RemoveCold(fleet, list, cold, quota))
    decreases |list|
  {
    if list != [] && quota > 0 {
      VictimsAfterOne(fleet, list, func, shape);
      var first, rest := list[0], list[1..];
      assert first in list;
      if first.launch == cold {
        RemoveKeepsOk(fleet, first);
        RemoveColdKeepsOk(RemoveService(fleet, first.service), rest, cold, quota - 1, func, shape);
      } else {
        RemoveColdKeepsOk(fleet, rest, cold, quota, func, shape);
      }
    }
  }

  function ColdIn(list: seq<Instance>, cold: Pool): nat {
    if list == [] then 0 else (if list[0].launch == cold then 1 else 0) + ColdIn(list[1..], cold)
  }

  lemma {:induction false} ColdInIsTally(list: seq<Instance>, cold: Pool, func: string, shape: Shape)
    requires forall x | x in list :: x.func == func && x.shape == shape
    ensures ColdIn(list, cold) == Tally(list, func, shape, {cold})
  {
    if list != [] {
      TallyHead(list, func, shape, {cold});
      ColdInIsTally(list[1..], cold, func, shape);
    }
  }

  lemma FirstColdGoes(fleet: Fleet, list: seq<Instance>, cold: Pool, func: string, shape: Shape, pools: set<Pool>)
    requires DistinctServices(fleet.instances) && Victims(fleet, list, func, shape) && cold in pools
    requires list != [] && list[0].launch == cold
    ensures var next := RemoveService(fleet, list[0].service);
      && DistinctServices(next.instances) && Victims(next, list[1..], func, shape)
      && Tally(next.instances, func, shape, pools) == Tally(fleet.instances, func, shape, pools) - 1
  {
    assert list[0] in list;
    VictimsAfterOne(fleet, list, func, shape);
    RemoveKeepsDistinct(fleet, list[0].service);
    TallyWithout(fleet.instances, list[0], func, shape, pools);
  }

  /** ... as many as asked for, or all the cold ones there are ... */
  lemma {:induction false} RemoveColdTally(
      fleet: Fleet, list: seq<Instance>, cold: Pool, quota: nat, func: string, shape: Shape, pools: set<Pool>)
    requires DistinctServices(fleet.instances) && Victims(fleet, list, func, shape) && cold in pools
    ensures Tally(RemoveCold(fleet, list, cold, quota).instances, func, shape, pools)
         == Tally(fleet.instances, func, shape, pools) - Min(quota, ColdIn(list, cold))
    decreases |list|
  {
    if list != [] && quota > 0 {
      var first, rest := list[0], list[1..];
      if first.launch == cold {
        FirstColdGoes(fleet, list, cold, func, shape, pools);
        RemoveColdTally(RemoveService(fleet, first.service), rest, cold, quota - 1, func, shape, pools);
      } else {
        VictimsAfterOne(fleet, list, func, shape);
        RemoveColdTally(fleet, rest, cold, quota, func, shape, pools);
      }
    }
  }

  /** ... and counts of anything else stay. */
  lemma {:induction false} RemoveColdKeepsOthers(
      fleet: Fleet, list: seq<Instance>, cold: Pool, quota: nat, func: string, shape: Shape,
      func': string, shape': Shape, pools: set<Pool>)
    requires DistinctServices(fleet.instances) && Victims(fleet, list, func, shape)
    requires !(func' == func && shape' == shape && cold in pools)
    ensures Tally(RemoveCold(fleet, list, cold, quota).instances, func', shape', pools)
         == Tally(fleet.instances, func', shape', pools)
    decreases |list|
  {
    if list != [] && quota > 0 {
      VictimsAfterOne(fleet, list, func, shape);
      assert list[0] in list;
      if list[0].launch == cold {
        RemoveKeepsDistinct(fleet, list[0].service);
        TallyWithout(fleet.instances, list[0], func', shape', pools);
        RemoveColdKeepsOthers(
          RemoveService(fleet, list[0].service), list[1..], cold, quota - 1, func, shape, func', shape', pools);
      } else {
        RemoveColdKeepsOthers(fleet, list[1..], cold, quota, func, shape, func', shape', pools);
      }
    }
  }

  // ---------------------------------------------------------------- entering new instances

  lemma {:induction false} NewTally(func: string, shape: Shape, launch: Pool, first: nat, count: nat,
                                    func': string, shape': Shape, pools: set<Pool>)
    ensures Tally(NewInstances(func, shape, launch, first, count), func', shape', pools)
         == if func' == func && shape' == shape && launch in pools then count else 0
  {
    if count > 0 {
      NewTally(func, shape, launch, first, count - 1, func', shape', pools);
      var front := NewInstances(func, shape, launch, first, count - 1);
      assert NewInstances(func, shape, launch, first, count)[..count - 1] == front;
    }
  }

  lemma HotInstancesLast(func: string, specs: seq<Spec>, hot: Pool, first: nat)
    requires specs != [] && forall s | s in specs :: s.minReplica >= 0
    ensures forall s | s in specs[..|specs| - 1] :: s in specs
    ensures var a, last := HotInstances(func, specs[..|specs| - 1], hot, first), specs[|specs| - 1];
      HotInstances(func, specs, hot, first)
      == a + NewInstances(func, last.shape, hot, first + |a|, last.minReplica)
  {}

  lemma HotTallyLast(func: string, specs: seq<Spec>, hot: Pool, first: nat, shape: Shape, pools: set<Pool>)
    requires specs != [] && forall s | s in specs :: s.minReplica >= 0
    ensures forall s | s in specs[..|specs| - 1] :: s in specs
    ensures var last := specs[|specs| - 1];
      Tally(HotInstances(func, specs, hot, first), func, shape, pools)
      == Tally(HotInstances(func, specs[..|specs| - 1], hot, first), func, shape, pools)
         + if shape == last.shape && hot in pools then last.minReplica else 0
  {
    HotInstancesLast(func, specs, hot, first);
    var last := specs[|specs| - 1];
    TallyWithNews(HotInstances(func, specs[..|specs| - 1], hot, first), func, last.shape, hot, first,
                  last.minReplica, shape, pools);
  }

  lemma TallyWithNews(a: seq<Instance>, func: string, shape: Shape, launch: Pool, first: nat, count: nat,
                      shape': Shape, pools: set<Pool>)
    ensures Tally(a + NewInstances(func, shape, launch, first + |a|, count), func, shape', pools)
         == Tally(a, func, shape', pools) + if shape' == shape && launch in pools then count else 0
  {
    TallyAppend(a, NewInstances(func, shape, launch, first + |a|, count), func, shape', pools);
    NewTally(func, shape, launch, first + |a|, count, func, shape', pools);
  }

  lemma {:induction false} HotTallyElsewhere(func: string, specs: seq<Spec>, hot: Pool, first: nat,
                                             shape: Shape, pools: set<Pool>)
    requires forall s | s in specs :: s.minReplica >= 0 && s.shape != shape
    ensures Tally(HotInstances(func, specs, hot, first), func, shape, pools) == 0
  {
    if specs != [] {
      HotTallyLast(func, specs, hot, first, shape, pools);
      HotTallyElsewhere(func, specs[..|specs| - 1], hot, first, shape, pools);
    }
  }

  /** After creation each spec has exactly its minimum of hot instances. */
  lemma {:induction false} HotTally(func: string, specs: seq<Spec>, hot: Pool, first: nat, k: nat, pools: set<Pool>)
    requires forall s | s in specs :: s.minReplica >= 0
    requires forall i, j | 0 <= i < j < |specs| :: specs[i].shape != specs[j].shape
    requires k < |specs| && hot in pools
    ensures Tally(HotInstances(func, specs, hot, first), func, specs[k].shape, pools) == specs[k].minReplica
  {
    var n := |specs| - 1;
    HotTallyLast(func, specs, hot, first, specs[k].shape, pools);
    if k < n {
      HotTally(func, specs[..n], hot, first, k, pools);
    } else {
      HotTallyElsewhere(func, specs[..n], hot, first, specs[n].shape, pools);
    }
  }

  lemma {:induction false} HotInstancesOf(func: string, specs: seq<Spec>, hot: Pool, first: nat)
    requires forall s | s in specs :: s.minReplica >= 0
    ensures forall x | x in HotInstances(func, specs, hot, first) ::
      x.func == func && x.launch == hot && ShapeListed(x.shape, specs)
  {
    if specs != [] {
      var n := |specs| - 1;
      HotInstancesOf(func, specs[..n], hot, first);
      forall x | x in HotInstances(func, specs, hot, first) ensures ShapeListed(x.shape, specs) {
        if x in HotInstances(func, specs[..n], hot, first) {
          var k :| 0 <= k < n && specs[..n][k].shape == x.shape;
          assert specs[k].shape == x.shape;
        } else {
          assert specs[n].shape == x.shape;
        }
      }
    }
  }

  lemma EnterKeepsOk(fleet: Fleet, news: seq<Instance>, func: string)
    requires FleetOk(fleet) && func in fleet.meta
    requires forall k | 0 <= k < |news| ::
      news[k].service == |fleet.created| + k && news[k].func == func && ShapeListed(news[k].shape, fleet.meta[func])
    ensures FleetOk(Enter(fleet, news))
  {
    var after := Enter(fleet, news);
    forall x | x in after.instances
      ensures x.service < |after.created| && SameSlot(x, after.created[x.service])
      ensures x.func in after.meta && ShapeListed(x.shape, after.meta[x.func])
    {
      if x !in fleet.instances {
        var k :| 0 <= k < |news| && news[k] == x;
        assert after.created[|fleet.created| + k] == x;
      }
    }
    forall i, j | 0 <= i < j < |after.instances| ensures after.instances[i].service != after.instances[j].service {
      if i < |fleet.instances| <= j {
        assert after.instances[i] in fleet.instances;
      }
    }
  }

  // ---------------------------------------------------------------- replica limits

  /** The limits one spec must meet.  A function whose creation broke off after it was registered,
      or whose deletion kept its metadata, has no instances at first, so only the upper limit holds of it. */
  ghost predicate SpecBounded(fleet: Fleet, pools: Pools, func: string, spec: Spec) {
    && Count(fleet.instances, func, spec.shape) <= spec.maxReplica
    && (func in fleet.complete ==> spec.minReplica <= Count(fleet.instances, func, spec.shape))
    && (func in fleet.complete && pools.hot != pools.cold ==>
          Tally(fleet.instances, func, spec.shape, {pools.hot}) == spec.minReplica)
  }

  ghost predicate Bounded(fleet: Fleet, pools: Pools) {
    forall func, spec | func in fleet.meta && ValidSpecs(fleet.meta[func]) && spec in fleet.meta[func] ::
      SpecBounded(fleet, pools, func, spec)
  }

  /** The limits that ScaleFunction finds are those of the one spec with the requested shape. */
  lemma {:induction false} LimitsOfSpec(specs: seq<Spec>, shape: Shape)
    requires forall i, j | 0 <= i < j < |specs| :: specs[i].shape != specs[j].shape
    ensures forall k | 0 <= k < |specs| && specs[k].shape == shape ::
      Limits(specs, shape) == (specs[k].minReplica, specs[k].maxReplica)
    ensures (forall s | s in specs :: s.shape != shape) ==> Limits(specs, shape) == (-1, -1)
  {
    if specs != [] {
      var front := specs[..|specs| - 1];
      assert specs[|specs| - 1] in specs && forall s | s in front :: s in specs;
      LimitsOfSpec(front, shape);
    }
  }

  lemma {:induction false} LimitsAreListed(specs: seq<Spec>, shape: Shape)
    ensures Limits(specs, shape) == (-1, -1) || ShapeListed(shape, specs)
  {
    if specs != [] {
      var n := |specs| - 1;
      LimitsAreListed(specs[..n], shape);
      if specs[n].shape == shape {
        assert ShapeListed(shape, specs);
      } else if ShapeListed(shape, specs[..n]) {
        var k :| 0 <= k < n && specs[..n][k].shape == shape;
        assert specs[k].shape == shape;
      }
    }
  }

  /** The clamp keeps the direction of a request and never enlarges it exactly when the current
      count is on the right side of the limit it is compared with. */
  lemma ClampedKeepsDirection(current: nat, count: int, minReplica: int, maxReplica: int)
    ensures var change := Clamped(current, count, minReplica, maxReplica);
      (0 <= change <= count || count <= change <= 0)
      <==> (count > 0 ==> current <= maxReplica) && (count < 0 ==> minReplica <= current)
  {}

  lemma {:induction false} TallyMonotone(instances: seq<Instance>, func: string, shape: Shape, a: set<Pool>,
                                         b: set<Pool>)
    requires a <= b
    ensures Tally(instances, func, shape, a) <= Tally(instances, func, shape, b)
  {
    if instances != [] {
      TallyMonotone(instances[..|instances| - 1], func, shape, a, b);
    }
  }

  /** How far a change moves the count of the pools in `counted`, given the cold count. */
  function Moved(change: int, cold: nat, coldCounted: bool): int {
    if !coldCounted then 0 else if change >= 0 then change else -Min(-change, cold)
  }

  lemma RemovalTally(fleet: Fleet, cold: Pool, func: string, shape: Shape, quota: nat,
                     func': string, shape': Shape, counted: set<Pool>)
    requires FleetOk(fleet)
    ensures var after := RemoveCold(fleet, Matching(fleet.instances, func, shape), cold, quota);
      Tally(after.instances, func', shape', counted)
         == Tally(fleet.instances, func', shape', counted)
            - if func' == func && shape' == shape && cold in counted
              then Min(quota, Tally(fleet.instances, func, shape, {cold})) else 0
  {
    var list := Matching(fleet.instances, func, shape);
    MatchingMembers(fleet.instances, func, shape);
    if func' == func && shape' == shape && cold in counted {
      MatchingTally(fleet.instances, func, shape, {cold});
      ColdInIsTally(list, cold, func, shape);
      RemoveColdTally(fleet, list, cold, quota, func, shape, counted);
    } else {
      RemoveColdKeepsOthers(fleet, list, cold, quota, func, shape, func', shape', counted);
    }
  }

  lemma EnterTally(fleet: Fleet, cold: Pool, func: string, shape: Shape, count: nat,
                   func': string, shape': Shape, counted: set<Pool>)
    ensures var news := NewInstances(func, shape, cold, |fleet.created|, count);
      Tally(Enter(fleet, news).instances, func', shape', counted)
         == Tally(fleet.instances, func', shape', counted)
            + if func' == func && shape' == shape && cold in counted then count else 0
  {
    TallyAppend(fleet.instances, NewInstances(func, shape, cold, |fleet.created|, count), func', shape', counted);
    NewTally(func, shape, cold, |fleet.created|, count, func', shape', counted);
  }

  /** A change that is applied moves the count of its own function and shape (downward only as far
      as there are cold instances) and no other count. */
  lemma ApplyTally(fleet: Fleet, cold: Pool, func: string, shape: Shape, change: int,
                   func': string, shape': Shape, counted: set<Pool>)
    requires FleetOk(fleet)
    ensures Tally(Apply(fleet, cold, func, shape, change, Works).instances, func', shape', counted)
         == Tally(fleet.instances, func', shape', counted)
            + if func' == func && shape' == shape
              then Moved(change, Tally(fleet.instances, func, shape, {cold}), cold in counted) else 0
  {
    if change > 0 {
      EnterTally(fleet, cold, func, shape, change, func', shape', counted);
    } else if change < 0 {
      RemovalTally(fleet, cold, func, shape, -change, func', shape', counted);
    }
  }

  /** The part of a change that takes place when some calls to the outside fail. */
  function Effective(change: int, result: Result): int {
    if result.ReadFails? || (result.CreateFails? && change > 0) then 0 else change
  }

  lemma ScaleTally(fleet: Fleet, pools: Pools, req: ScaleRequest, result: Result, func: string, shape: Shape,
                   counted: set<Pool>)
    requires FleetOk(fleet)
    ensures Tally(Scale(fleet, pools, req, result).instances, func, shape, counted)
         == Tally(fleet.instances, func, shape, counted)
            + if func == req.func && shape == req.shape
              then Moved(Effective(Change(fleet, req), result), Tally(fleet.instances, func, shape, {pools.cold}),
                         pools.cold in counted)
              else 0
  {
    if Effective(Change(fleet, req), result) != 0 {
      ApplyTally(fleet, pools.cold, req.func, req.shape, Change(fleet, req), func, shape, counted);
    }
  }

  /** No creation and no removal is forgotten. */
  ghost predicate Remembers(fleet: Fleet, after: Fleet) {
    fleet.created <= after.created && fleet.removed <= after.removed
  }

  ghost predicate Grows(fleet: Fleet, after: Fleet) {
    && (forall f | f in fleet.meta :: f in after.meta && after.meta[f] == fleet.meta[f])
    && Remembers(fleet, after) && fleet.complete <= after.complete
  }

  lemma RemovalKeepsOk(fleet: Fleet, cold: Pool, func: string, shape: Shape, quota: nat)
    requires FleetOk(fleet)
    ensures var after := RemoveCold(fleet, Matching(fleet.instances, func, shape), cold, quota);
      FleetOk(after) && Grows(fleet, after) && after.meta == fleet.meta && after.complete == fleet.complete
  {
    var list := Matching(fleet.instances, func, shape);
    MatchingMembers(fleet.instances, func, shape);
    RemoveColdKeepsOk(fleet, list, cold, quota, func, shape);
    RemoveColdOnly(fleet, list, cold, quota, func, shape);
  }

  lemma ApplyKeepsOk(fleet: Fleet, cold: Pool, func: string, shape: Shape, change: int, result: Result)
    requires FleetOk(fleet) && func in fleet.meta && (change > 0 ==> ShapeListed(shape, fleet.meta[func]))
    ensures var after := Apply(fleet, cold, func, shape, change, result);
      FleetOk(after) && Grows(fleet, after) && after.meta == fleet.meta && after.complete == fleet.complete
  {
    if change > 0 {
      EnterKeepsOk(fleet, NewInstances(func, shape, cold, |fleet.created|, change), func);
    } else if change < 0 {
      RemovalKeepsOk(fleet, cold, func, shape, -change);
    }
  }

  lemma ScaleKeepsOk(fleet: Fleet, pools: Pools, req: ScaleRequest, result: Result)
    requires FleetOk(fleet)
    ensures var after := Scale(fleet, pools, req, result);
      FleetOk(after) && Grows(fleet, after) && after.meta == fleet.meta && after.complete == fleet.complete
  {
    if req.func in fleet.meta {
      LimitsAreListed(fleet.meta[req.func], req.shape);
      ApplyKeepsOk(fleet, pools.cold, req.func, req.shape, Change(fleet, req), result);
    }
  }

  lemma ChangeOfSpec(fleet: Fleet, req: ScaleRequest, spec: Spec)
    requires req.func in fleet.meta && ValidSpecs(fleet.meta[req.func])
    requires spec in fleet.meta[req.func] && spec.shape == req.shape
    ensures Change(fleet, req)
         == Clamped(Count(fleet.instances, req.func, req.shape), req.count, spec.minReplica, spec.maxReplica)
  {
    LimitsOfSpec(fleet.meta[req.func], req.shape);
  }

  lemma SpecBoundedAfter(fleet: Fleet, after: Fleet, pools: Pools, func: string, spec: Spec, count: int)
    requires SpecBounded(fleet, pools, func, spec) && after.complete == fleet.complete
    requires 0 <= spec.minReplica <= spec.maxReplica
    requires var cold := Tally(fleet.instances, func, spec.shape, {pools.cold});
      var change := Clamped(Count(fleet.instances, func, spec.shape), count, spec.minReplica, spec.maxReplica);
      && Count(after.instances, func, spec.shape)
         == Count(fleet.instances, func, spec.shape) + Moved(change, cold, true)
      && Tally(after.instances, func, spec.shape, {pools.hot})
         == Tally(fleet.instances, func, spec.shape, {pools.hot}) + Moved(change, cold, pools.cold == pools.hot)
    ensures SpecBounded(after, pools, func, spec)
  {}

  lemma ScaleKeepsSpecBounded(fleet: Fleet, pools: Pools, req: ScaleRequest, func: string, spec: Spec)
    requires FleetOk(fleet) && func in fleet.meta && ValidSpecs(fleet.meta[func]) && spec in fleet.meta[func]
    requires SpecBounded(fleet, pools, func, spec)
    ensures SpecBounded(Scale(fleet, pools, req, Works), pools, func, spec)
  {
    var after := Scale(fleet, pools, req, Works);
    ScaleKeepsOk(fleet, pools, req, Works);
    ScaleTally(fleet, pools, req, Works, func, spec.shape, ALL_POOLS);
    ScaleTally(fleet, pools, req, Works, func, spec.shape, {pools.hot});
    AnyPool(pools.cold);
    if func == req.func && spec.shape == req.shape {
      ChangeOfSpec(fleet, req, spec);
      SpecBoundedAfter(fleet, after, pools, func, spec, req.count);
    } else {
      SpecBoundedAfter(fleet, after, pools, func, spec, 0);
    }
  }

  lemma ScaleKeepsBounded(fleet: Fleet, pools: Pools, req: ScaleRequest, result: Result)
    requires FleetOk(fleet) && Bounded(fleet, pools)
    ensures Bounded(Scale(fleet, pools, req, result), pools)
  {
    var after := Scale(fleet, pools, req, result);
    assert after == fleet || after == Scale(fleet, pools, req, Works);
    ScaleKeepsOk(fleet, pools, req, result);
    if after != fleet {
      forall func, spec | func in after.meta && ValidSpecs(after.meta[func]) && spec in after.meta[func]
        ensures SpecBounded(after, pools, func, spec)
      {
        ScaleKeepsSpecBounded(fleet, pools, req, func, spec);
      }
    }
  }

  /** Rewriting status, task and address changes no count. */
  ghost predicate Refreshed(before: seq<Instance>, after: seq<Instance>) {
    |after| == |before| && forall i | 0 <= i < |before| :: SameSlot(before[i], after[i])
  }

  lemma {:induction false} RefreshKeepsTally(before: seq<Instance>, after: seq<Instance>, func: string, shape: Shape,
                                             pools: set<Pool>)
    requires Refreshed(before, after)
    ensures Tally(after, func, shape, pools) == Tally(before, func, shape, pools)
  {
    if before != [] {
      RefreshKeepsTally(before[..|before| - 1], after[..|before| - 1], func, shape, pools);
    }
  }

  lemma RefreshKeepsOk(fleet: Fleet, pools: Pools, instances: seq<Instance>)
    requires FleetOk(fleet) && Refreshed(fleet.instances, instances)
    ensures FleetOk(fleet.(instances := instances))
    ensures Bounded(fleet, pools) ==> Bounded(fleet.(instances := instances), pools)
  {
    var after := fleet.(instances := instances);
    forall x | x in instances
      ensures x.service < |fleet.created| && SameSlot(x, fleet.created[x.service]) && x.func in fleet.meta
      ensures x.service !in fleet.removed
    {
      var i :| 0 <= i < |instances| && instances[i] == x;
      assert fleet.instances[i] in fleet.instances && SameSlot(fleet.instances[i], x);
    }
    if Bounded(fleet, pools) {
      forall func, spec | func in fleet.meta && ValidSpecs(fleet.meta[func]) && spec in fleet.meta[func]
        ensures SpecBounded(after, pools, func, spec)
      {
        RefreshKeepsTally(fleet.instances, instances, func, spec.shape, ALL_POOLS);
        RefreshKeepsTally(fleet.instances, instances, func, spec.shape, {pools.hot});
        assert SpecBounded(fleet, pools, func, spec);
      }
    }
  }

  lemma CreateKeepsOk(fleet: Fleet, pools: Pools, func: string, specs: seq<Spec>, result: Result)
    requires FleetOk(fleet) && forall s | s in specs :: s.minReplica >= 0
    ensures var after := Create(fleet, pools, func, specs, result);
      FleetOk(after) && Grows(fleet, after) && after.removed == fleet.removed
  {
    if func !in fleet.meta && result.Works? {
      HotInstancesOf(func, specs, pools.hot, |fleet.created|);
      var registered := fleet.(meta := fleet.meta[func := specs]);
      EnterKeepsOk(registered, HotInstances(func, specs, pools.hot, |fleet.created|), func);
    }
  }

  lemma CreateBoundsOther(fleet: Fleet, pools: Pools, func: string, specs: seq<Spec>, result: Result, f: string,
                          spec: Spec)
    requires FleetOk(fleet) && forall s | s in specs :: s.minReplica >= 0
    requires f != func && SpecBounded(fleet, pools, f, spec)
    ensures SpecBounded(Create(fleet, pools, func, specs, result), pools, f, spec)
  {
    if func !in fleet.meta && result.Works? {
      var news := HotInstances(func, specs, pools.hot, |fleet.created|);
      HotInstancesOf(func, specs, pools.hot, |fleet.created|);
      TallyZero(news, f, spec.shape, ALL_POOLS);
      TallyZero(news, f, spec.shape, {pools.hot});
      TallyAppend(fleet.instances, news, f, spec.shape, ALL_POOLS);
      TallyAppend(fleet.instances, news, f, spec.shape, {pools.hot});
    }
  }

  lemma CreateBoundsNew(fleet: Fleet, pools: Pools, func: string, specs: seq<Spec>, result: Result, spec: Spec)
    requires FleetOk(fleet) && ValidSpecs(specs) && spec in specs && func !in fleet.meta && !result.ReadFails?
    ensures SpecBounded(Create(fleet, pools, func, specs, result), pools, func, spec)
  {
    TallyZero(fleet.instances, func, spec.shape, ALL_POOLS);
    TallyZero(fleet.instances, func, spec.shape, {pools.hot});
    assert func !in fleet.complete;
    if result.Works? {
      var news := HotInstances(func, specs, pools.hot, |fleet.created|);
      var k :| 0 <= k < |specs| && specs[k] == spec;
      AnyPool(pools.hot);
      HotTally(func, specs, pools.hot, |fleet.created|, k, ALL_POOLS);
      HotTally(func, specs, pools.hot, |fleet.created|, k, {pools.hot});
      TallyAppend(fleet.instances, news, func, spec.shape, ALL_POOLS);
      TallyAppend(fleet.instances, news, func, spec.shape, {pools.hot});
    }
  }

  lemma CreateKeepsBounded(fleet: Fleet, pools: Pools, func: string, specs: seq<Spec>, result: Result)
    requires FleetOk(fleet) && Bounded(fleet, pools) && forall s | s in specs :: s.minReplica >= 0
    ensures Bounded(Create(fleet, pools, func, specs, result), pools)
  {
    var after := Create(fleet, pools, func, specs, result);
    if after != fleet {
      forall f, spec | f in after.meta && ValidSpecs(after.meta[f]) && spec in after.meta[f]
        ensures SpecBounded(after, pools, f, spec)
      {
        if f == func {
          CreateBoundsNew(fleet, pools, func, specs, result, spec);
        } else {
          CreateBoundsOther(fleet, pools, func, specs, result, f, spec);
        }
      }
    }
  }

  // ---------------------------------------------------------------- deletion

  lemma {:induction false} WithoutFunctionIsDistinct(instances: seq<Instance>, func: string)
    requires DistinctServices(instances)
    ensures DistinctServices(WithoutFunction(instances, func))
  {
    if instances != [] {
      var front, last := instances[..|instances| - 1], instances[|instances| - 1];
      WithoutFunctionIsDistinct(front, func);
      assert forall x | x in WithoutFunction(front, func) :: x in front && x.service != last.service;
    }
  }

  lemma {:induction false} TallyWithoutFunction(instances: seq<Instance>, gone: string, func: string, shape: Shape,
                                                pools: set<Pool>)
    ensures Tally(WithoutFunction(instances, gone), func, shape, pools)
      == if func == gone then 0 else Tally(instances, func, shape, pools)
  {
    if instances != [] {
      var front, last := instances[..|instances| - 1], instances[|instances| - 1];
      TallyWithoutFunction(front, gone, func, shape, pools);
      if last.func != gone {
        TallySnoc(WithoutFunction(front, gone), last, func, shape, pools);
        assert WithoutFunction(instances, gone) == WithoutFunction(front, gone) + [last];
      } else {
        assert WithoutFunction(instances, gone) == WithoutFunction(front, gone);
      }
    }
  }

  lemma DeleteKeepsOk(fleet: Fleet, func: string, readOk: bool, metaOk: bool)
    requires FleetOk(fleet)
    ensures FleetOk(Delete(fleet, func, readOk, metaOk)) && Remembers(fleet, Delete(fleet, func, readOk, metaOk))
  {
    WithoutFunctionIsDistinct(fleet.instances, func);
  }

  /** Deletion keeps the limits of every other function; the deleted one counts as never completed. */
  lemma DeleteKeepsBounded(fleet: Fleet, pools: Pools, func: string, readOk: bool, metaOk: bool)
    requires FleetOk(fleet) && Bounded(fleet, pools)
    ensures Bounded(Delete(fleet, func, readOk, metaOk), pools)
  {
    var after := Delete(fleet, func, readOk, metaOk);
    if after != fleet {
      forall f, spec | f in after.meta && ValidSpecs(after.meta[f]) && spec in after.meta[f]
        ensures SpecBounded(after, pools, f, spec)
      {
        assert SpecBounded(fleet, pools, f, spec);
        TallyWithoutFunction(fleet.instances, func, f, spec.shape, ALL_POOLS);
        TallyWithoutFunction(fleet.instances, func, f, spec.shape, {pools.hot});
      }
    }
  }

  // ---------------------------------------------------------------- what works

  /** A request for an unknown function or shape does nothing, nor does one whose reads fail, nor a
      scale-up whose creation fails. */
  lemma NothingIsScaled(fleet: Fleet, pools: Pools, req: ScaleRequest, result: Result)
    requires FleetOk(fleet)
    requires || result.ReadFails? || req.func !in fleet.meta || !ShapeListed(req.shape, fleet.meta[req.func])
             || (result.CreateFails? && req.count > 0 && ValidSpecs(fleet.meta[req.func])
                 && forall spec | spec in fleet.meta[req.func] && spec.shape == req.shape ::
                      Count(fleet.instances, req.func, req.shape) <= spec.maxReplica)
    ensures Scale(fleet, pools, req, result) == fleet
  {
    if !result.ReadFails? && req.func in fleet.meta {
      var specs := fleet.meta[req.func];
      LimitsAreListed(specs, req.shape);
      if ShapeListed(req.shape, specs) {
        var k :| 0 <= k < |specs| && specs[k].shape == req.shape;
        assert specs[k] in specs;
        ChangeOfSpec(fleet, req, specs[k]);
      }
    }
  }

  /** A working creation of an unknown function registers it, with exactly the minimum of instances of
      each spec, all hot; it leaves the present instances alone, and none of the new ones runs yet. */
  lemma CreationWorks(fleet: Fleet, pools: Pools, func: string, specs: seq<Spec>)
    requires FleetOk(fleet) && func !in fleet.meta && ValidSpecs(specs)
    ensures var after := Create(fleet, pools, func, specs, Works);
      && after.meta == fleet.meta[func := specs] && after.complete == fleet.complete + {func}
      && fleet.instances <= after.instances && fleet.created <= after.created
      && (forall x | x in after.instances[|fleet.instances|..] ::
            x.func == func && x.launch == pools.hot && x.lastStatus == "NOT_CREATE")
      && (forall spec | spec in specs ::
            Count(after.instances, func, spec.shape) == spec.minReplica
            == Tally(after.instances, func, spec.shape, {pools.hot}))
  {
    var after := Create(fleet, pools, func, specs, Works);
    var news := HotInstances(func, specs, pools.hot, |fleet.created|);
    HotInstancesOf(func, specs, pools.hot, |fleet.created|);
    HotInstancesWait(func, specs, pools.hot, |fleet.created|);
    assert after.instances[|fleet.instances|..] == news;
    forall spec | spec in specs
      ensures Count(after.instances, func, spec.shape) == spec.minReplica
      ensures Tally(after.instances, func, spec.shape, {pools.hot}) == spec.minReplica
    {
      var k :| 0 <= k < |specs| && specs[k] == spec;
      AnyPool(pools.hot);
      CreatedTally(fleet, pools, func, specs, k, ALL_POOLS);
      CreatedTally(fleet, pools, func, specs, k, {pools.hot});
    }
  }

  lemma CreatedTally(fleet: Fleet, pools: Pools, func: string, specs: seq<Spec>, k: nat, counted: set<Pool>)
    requires FleetOk(fleet) && func !in fleet.meta && ValidSpecs(specs) && k < |specs| && pools.hot in counted
    ensures Tally(Create(fleet, pools, func, specs, Works).instances, func, specs[k].shape, counted)
         == specs[k].minReplica
  {
    var news := HotInstances(func, specs, pools.hot, |fleet.created|);
    TallyZero(fleet.instances, func, specs[k].shape, counted);
    HotTally(func, specs, pools.hot, |fleet.created|, k, counted);
    TallyAppend(fleet.instances, news, func, specs[k].shape, counted);
  }

  lemma {:induction false} HotInstancesWait(func: string, specs: seq<Spec>, hot: Pool, first: nat)
    requires forall s | s in specs :: s.minReplica >= 0
    ensures forall x | x in HotInstances(func, specs, hot, first) :: x.lastStatus == "NOT_CREATE"
  {
    if specs != [] {
      HotInstancesWait(func, specs[..|specs| - 1], hot, first);
    }
  }

  /** A working deletion makes the function unknown and takes exactly its instances out of the table, so
      that it can be created again. */
  lemma DeletionWorks(fleet: Fleet, pools: Pools, func: string, specs: seq<Spec>)
    requires FleetOk(fleet) && func in fleet.meta && ValidSpecs(specs)
    ensures var after := Delete(fleet, func, true, true);
      && after.meta == fleet.meta - {func} && after.complete == fleet.complete - {func}
      && (forall x :: x in after.instances <==> x in fleet.instances && x.func != func)
      && after.created == fleet.created && after.removed == fleet.removed
      && func in Create(after, pools, func, specs, Works).complete
      && Create(after, pools, func, specs, Works).meta == fleet.meta[func := specs]
  {
    var after := Delete(fleet, func, true, true);
    DeleteKeepsOk(fleet, func, true, true);
    CreationWorks(after, pools, func, specs);
    assert (fleet.meta - {func})[func := specs] == fleet.meta[func := specs];
  }

  /** Rows that scaling enters do not run yet either, so no request is placed on them before a refresh. */
  lemma ScaledInstancesWait(fleet: Fleet, pools: Pools, req: ScaleRequest, result: Result)
    requires FleetOk(fleet)
    ensures forall x | x in Scale(fleet, pools, req, result).instances ::
      x in fleet.instances
      || (x.func == req.func && x.shape == req.shape && x.launch == pools.cold && x.lastStatus == "NOT_CREATE")
  {
    var change := Change(fleet, req);
    if change < 0 {
      MatchingMembers(fleet.instances, req.func, req.shape);
      RemoveColdOnly(fleet, Matching(fleet.instances, req.func, req.shape), pools.cold, -change, req.func, req.shape);
    }
  }

  /** The list that scaling reads keeps the order of the table. */
  lemma {:induction false} MatchingKeepsOrder(a: seq<Instance>, b: seq<Instance>, func: string, shape: Shape)
    ensures Matching(a + b, func, shape) == Matching(a, func, shape) + Matching(b, func, shape)
  {
    if b == [] {
      assert a + b == a;
    } else {
      var front, last := b[..|b| - 1], b[|b| - 1];
      MatchingKeepsOrder(a, front, func, shape);
      assert (a + b)[..|a + b| - 1] == a + front;
    }
  }

  function ColdServices(list: seq<Instance>, cold: Pool): seq<nat> {
    if list == [] then []
    else (if list[0].launch == cold then [list[0].service] else []) + ColdServices(list[1..], cold)
  }

  /** Scale-down takes the first cold instances of the list, in the order of the list. */
  lemma {:induction false} RemoveColdTakesTheFirst(fleet: Fleet, list: seq<Instance>, cold: Pool, quota: nat)
    ensures var services := ColdServices(list, cold);
      RemoveCold(fleet, list, cold, quota).removed
      == fleet.removed + if |services| <= quota then services else services[..quota]
    decreases |list|
  {
    if list != [] && quota > 0 {
      var first, rest := list[0], list[1..];
      if first.launch == cold {
        RemoveColdTakesTheFirst(RemoveService(fleet, first.service), rest, cold, quota - 1);
      } else {
        RemoveColdTakesTheFirst(fleet, rest, cold, quota);
        assert ColdServices(list, cold) == ColdServices(rest, cold);
      }
    }
  }
}
