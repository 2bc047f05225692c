/** The two scheduling policies, on the statistics that Schedule prepares for them. */
module Policies {
  import opened Types
  import opened Tables
  import opened Placement
  import opened Sorting

  datatype InstanceStat = InstanceStat(
    service: nat, ipv4: string, cpu: int, memory: int, cpuUsed: int, memoryUsed: int,
    cpuUsageRate: real, memoryUsageRate: real, avgUsageRate: real)

  function FreshStat(x: Instance): InstanceStat {
    InstanceStat(x.service, x.ipv4, x.shape.cpu, x.shape.memory, 0, 0, 0.0, 0.0, 0.0)
  }

  /** The map that Schedule hands to a policy: one fresh entry for each running instance. */
  ghost predicate StatsOf(stats: map<nat, InstanceStat>, instances: seq<Instance>) {
    && (forall x | x in instances :: x.service in stats && stats[x.service] == FreshStat(x) && PositiveShape(x.shape))
    && (forall service | service in stats :: exists i :: 0 <= i < |instances| && instances[i].service == service)
  }

  function PlacedOn(req: Request, stat: InstanceStat): Row {
    Row(req.id, req.payload, req.func, stat.service, stat.ipv4, req.cpu, req.memory)
  }

  /** The row a policy returns is the one that places the request on the chosen instance. */
  predicate Returns(req: Request, choice: Option<Instance>, r: Option<Row>) {
    match choice
    case None => r == None
    case Some(x) => r == Some(Placed(req, x))
  }

  // ---------------------------------------------------------------- best fit

  /** The statistics of an instance once all rows are added up and the rates are set. */
  function Measured(x: Instance, rows: seq<Row>): InstanceStat
    requires PositiveShape(x.shape)
  {
    WithRates(FreshStat(x).(cpuUsed := Load(rows, x.service, Cpu), memoryUsed := Load(rows, x.service, Memory)))
  }

  function WithRates(stat: InstanceStat): InstanceStat
    requires stat.cpu > 0 && stat.memory > 0
  {
    var cpuRate := stat.cpuUsed as real / stat.cpu as real;
    stat.(cpuUsageRate := cpuRate, memoryUsageRate := stat.memoryUsed as real / stat.memory as real,
          avgUsageRate := cpuRate)
  }

  function StatKey(stat: InstanceStat): Key {
    Key(stat.cpu, stat.memory, stat.avgUsageRate)
  }

  predicate HasRoom(req: Request, stat: InstanceStat) {
    stat.cpuUsed + req.cpu <= stat.cpu && stat.memoryUsed + req.memory <= stat.memory
  }

  ghost predicate IsMeasured(stat: InstanceStat, instances: seq<Instance>, rows: seq<Row>) {
    exists i :: 0 <= i < |instances| && PositiveShape(instances[i].shape) && stat == Measured(instances[i], rows)
  }

  /** The list holds the measured statistics of all the instances, in some order. */
  ghost predicate ListOf(list: seq<InstanceStat>, instances: seq<Instance>, rows: seq<Row>) {
    && (forall x | x in instances :: PositiveShape(x.shape) && Measured(x, rows) in list)
    && (forall stat | stat in list :: IsMeasured(stat, instances, rows))
  }

  /** For equal positive cpu the order of usage rates is the order of usage. */
  lemma RateOrder(a: int, b: int, cpu: int)
    requires cpu > 0 && !(b as real / cpu as real > a as real / cpu as real)
    ensures a >= b
  {
    var ra, rb := a as real / cpu as real, b as real / cpu as real;
    assert ra * cpu as real == a as real && rb * cpu as real == b as real;
    assert (ra - rb) * cpu as real >= 0.0;
  }

  lemma LaterIsNoBetter(rows: seq<Row>, x: Instance, y: Instance)
    requires PositiveShape(x.shape) && PositiveShape(y.shape)
    requires !Before(StatKey(Measured(y, rows)), StatKey(Measured(x, rows)))
    ensures NoWorse(rows, x, y)
  {
    if x.shape == y.shape {
      RateOrder(Load(rows, x.service, Cpu), Load(rows, y.service, Cpu), x.shape.cpu);
    }
  }

  /** In whatever order the list is sorted among equals, the first entry with room is a best fit. */
  lemma FirstWithRoomIsBestFit(req: Request, rows: seq<Row>, instances: seq<Instance>, list: seq<InstanceStat>, k: nat)
    returns (x: Instance)
    requires ListOf(list, instances, rows) && SortedBy(list, StatKey)
    requires k < |list| && HasRoom(req, list[k]) && forall i | 0 <= i < k :: !HasRoom(req, list[i])
    ensures BestFit(req, rows, instances, x) && Placed(req, x) == PlacedOn(req, list[k])
  {
    assert IsMeasured(list[k], instances, rows);
    var i :| 0 <= i < |instances| && PositiveShape(instances[i].shape) && list[k] == Measured(instances[i], rows);
    x := instances[i];
    forall y | y in instances && Fits(req, rows, y) ensures NoWorse(rows, x, y) {
      var j :| 0 <= j < |list| && list[j] == Measured(y, rows);
      if j == k {
        assert StatKey(list[j]) == StatKey(list[k]);
      }
      assert j >= k;
      LaterIsNoBetter(rows, x, y);
    }
  }

  /** Add every row to the statistics of its instance; rows on unknown instances are skipped. */
  method AddUsage(rows: seq<Row>, insStatMap: map<nat, InstanceStat>, ghost instances: seq<Instance>)
    returns (stats: map<nat, InstanceStat>)
    requires StatsOf(insStatMap, instances)
    ensures Added(stats, insStatMap, rows)
  {
    stats := insStatMap;
    for i := 0 to |rows|
      invariant Added(stats, insStatMap, rows[..i])
    {
      var row := rows[i];
      assert rows[..i + 1] == rows[..i] + [row];
      forall service: nat, r ensures Load(rows[..i + 1], service, r)
        == Load(rows[..i], service, r) + if row.service == service then Weight(row, r) else 0
      {
        LoadOfInsert(rows[..i], row, service, r);
      }
      if row.service in stats {
        var stat := stats[row.service];
        var more := stat.(cpuUsed := stat.cpuUsed + row.cpu, memoryUsed := stat.memoryUsed + row.memory);
        stats := stats[row.service := more];
      }
    }
    assert rows[..|rows|] == rows;
  }

  ghost predicate Keyed(stats: map<nat, InstanceStat>) {
    forall service | service in stats ::
      stats[service].service == service && stats[service].cpu > 0 && stats[service].memory > 0
  }

  /** Set the rates and list the statistics, in the arbitrary order in which a map is visited. */
  method ListStats(stats: map<nat, InstanceStat>) returns (list: seq<InstanceStat>)
    requires Keyed(stats)
    ensures forall service | service in stats :: WithRates(stats[service]) in list
    ensures forall stat | stat in list :: stat.service in stats && stat == WithRates(stats[stat.service])
  {
    list := [];
    var rest := stats.Keys;
    while rest != {}
      invariant rest <= stats.Keys
      invariant forall service | service in stats && service !in rest :: WithRates(stats[service]) in list
      invariant forall stat | stat in list :: stat.service in stats && stat == WithRates(stats[stat.service])
      decreases rest
    {
      var service :| service in rest;
      list := list + [WithRates(stats[service])];
      rest := rest - {service};
    }
  }

  /** The statistics after the rows were added up. */
  ghost predicate Added(stats: map<nat, InstanceStat>, insStatMap: map<nat, InstanceStat>, rows: seq<Row>) {
    && stats.Keys == insStatMap.Keys
    && forall service | service in stats :: stats[service] ==
         insStatMap[service].(cpuUsed := Load(rows, service, Cpu), memoryUsed := Load(rows, service, Memory))
  }

  lemma AddedIsMeasured(stats: map<nat, InstanceStat>, insStatMap: map<nat, InstanceStat>, rows: seq<Row>, x: Instance)
    requires Added(stats, insStatMap, rows) && x.service in insStatMap
    requires insStatMap[x.service] == FreshStat(x) && PositiveShape(x.shape)
    ensures stats[x.service].service == x.service
    ensures stats[x.service].cpu > 0 && stats[x.service].memory > 0
    ensures WithRates(stats[x.service]) == Measured(x, rows)
  {}

  lemma ServiceIsMeasured(stats: map<nat, InstanceStat>, insStatMap: map<nat, InstanceStat>, rows: seq<Row>,
                          instances: seq<Instance>, service: nat)
    requires StatsOf(insStatMap, instances) && Added(stats, insStatMap, rows) && service in stats
    ensures stats[service].service == service && stats[service].cpu > 0 && stats[service].memory > 0
    ensures IsMeasured(WithRates(stats[service]), instances, rows)
  {
    var i :| 0 <= i < |instances| && instances[i].service == service;
    assert instances[i] in instances;
    AddedIsMeasured(stats, insStatMap, rows, instances[i]);
  }

  /** Adding up, rating and listing: the list that is sorted. */
  method PrepareList(rows: seq<Row>, insStatMap: map<nat, InstanceStat>, ghost instances: seq<Instance>)
    returns (list: seq<InstanceStat>)
    requires StatsOf(insStatMap, instances)
    ensures ListOf(list, instances, rows)
  {
    var stats := AddUsage(rows, insStatMap, instances);
    forall service | service in stats
      ensures stats[service].service == service && stats[service].cpu > 0 && stats[service].memory > 0
      ensures IsMeasured(WithRates(stats[service]), instances, rows)
    {
      ServiceIsMeasured(stats, insStatMap, rows, instances, service);
    }
    list := ListStats(stats);
    forall x | x in instances ensures Measured(x, rows) in list {
      AddedIsMeasured(stats, insStatMap, rows, x);
    }
  }

  lemma SameElements<T>(a: seq<T>, b: seq<T>)
    requires multiset(a) == multiset(b)
    ensures forall x :: x in a <==> x in b
  {
    forall x ensures x in a <==> x in b {
      assert x in a <==> x in multiset(a);
      assert x in b <==> x in multiset(b);
    }
  }

  /** BaseScheduler: the smallest running instance with room, the busiest among equals. */
  method BaseSchedule(req: Request, rows: seq<Row>, insStatMap: map<nat, InstanceStat>, ghost instances: seq<Instance>)
    returns (r: Option<Row>, ghost choice: Option<Instance>)
    requires StatsOf(insStatMap, instances)
    ensures r == None <==> forall x | x in instances :: !Fits(req, rows, x)
    ensures r.Some? ==> exists x :: BestFit(req, rows, instances, x) && r == Some(Placed(req, x))
    ensures Chooses(BasePolicy, req, rows, instances, choice) && Returns(req, choice, r)
  {
    var list := PrepareList(rows, insStatMap, instances);
    var a := new InstanceStat[|list|](i requires 0 <= i < |list| => list[i]);
    assert a[..] == list;
    SortSlice(a, StatKey);
    SameElements(a[..], list);
    for k := 0 to a.Length
      invariant forall i | 0 <= i < k :: !HasRoom(req, a[i])
    {
      if HasRoom(req, a[k]) {
        var x := FirstWithRoomIsBestFit(req, rows, instances, a[..], k);
        return Some(PlacedOn(req, a[k])), Some(x);
      }
    }
    forall x | x in instances ensures !Fits(req, rows, x) {
      assert Measured(x, rows) in a[..];
    }
    return None, None;
  }

  // ---------------------------------------------------------------- one task per node

  /** OneTaskPerNodeScheduler: any large enough instance without rows.  `random` stands for the
      outcome of the random number generator. */
  method OneTaskSchedule(req: Request, rows: seq<Row>, insStatMap: map<nat, InstanceStat>, random: nat,
                         ghost instances: seq<Instance>)
    returns (r: Option<Row>, ghost choice: Option<Instance>)
    requires StatsOf(insStatMap, instances)
    ensures r == None <==> forall x | x in instances :: !Vacant(req, rows, x)
    ensures r.Some? ==> exists x :: x in instances && Vacant(req, rows, x) && r == Some(Placed(req, x))
    ensures Chooses(OneTaskPolicy, req, rows, instances, choice) && Returns(req, choice, r)
  {
    var scheduledNodes: set<nat> := {};
    for i := 0 to |rows|
      invariant forall service :: service in scheduledNodes <==> exists j :: 0 <= j < i && rows[j].service == service
    {
      scheduledNodes := scheduledNodes + {rows[i].service};
    }
    var availableNodes := AvailableNodes(req, rows, insStatMap, scheduledNodes);
    if availableNodes == [] {
      forall x | x in instances ensures !Vacant(req, rows, x) {
        assert FreshStat(x) == insStatMap[x.service];
        assert !Available(req, scheduledNodes, FreshStat(x));
      }
      return None, None;
    }
    var selected := availableNodes[random % |availableNodes|];
    assert selected in availableNodes;
    ghost var i :| 0 <= i < |instances| && instances[i].service == selected.service;
    assert instances[i] in instances;
    forall row | row in rows ensures row.service != selected.service {
      var j :| 0 <= j < |rows| && rows[j] == row;
    }
    return Some(PlacedOn(req, selected)), Some(instances[i]);
  }

  predicate Available(req: Request, scheduledNodes: set<nat>, stat: InstanceStat) {
    stat.service !in scheduledNodes && stat.cpu >= req.cpu && stat.memory >= req.memory
  }

  method AvailableNodes(req: Request, rows: seq<Row>, insStatMap: map<nat, InstanceStat>, scheduledNodes: set<nat>)
    returns (nodes: seq<InstanceStat>)
    ensures forall stat :: stat in nodes <==>
      exists service :: service in insStatMap && insStatMap[service] == stat && Available(req, scheduledNodes, stat)
  {
    nodes := [];
    var rest := insStatMap.Keys;
    while rest != {}
      invariant rest <= insStatMap.Keys
      invariant forall stat :: stat in nodes <==>
        exists service :: service in insStatMap && service !in rest && insStatMap[service] == stat
                          && Available(req, scheduledNodes, stat)
      decreases rest
    {
      var service :| service in rest;
      ghost var before := nodes;
      if Available(req, scheduledNodes, insStatMap[service]) {
        nodes := nodes + [insStatMap[service]];
      }
      rest := rest - {service};
    }
  }
}
