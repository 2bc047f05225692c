/** CalResScale: from the window of snapshots and the tables to a scale count for every spec. */
module ResScales {
  import opened Types
  import opened Fleet
  import opened DemandSpec
  import opened Stabilisation
  import opened Sorting

  datatype ResScale = ResScale(shape: Shape, scaleCnt: int)

  type Demands = map<string, map<Shape, real>>

  /** A missing entry reads as zero. */
  function Get(m: map<Shape, real>, shape: Shape): real { if shape in m then m[shape] else 0.0 }
  function GetCount(m: map<Shape, int>, shape: Shape): int { if shape in m then m[shape] else 0 }

  function SpecKey(spec: Spec): Key { Key(spec.shape.cpu, spec.shape.memory, 0.0) }

  ghost predicate AllDivisible(sorted: map<string, seq<Spec>>) {
    forall func | func in sorted :: Divisible(sorted[func])
  }

  /** The specs of every function, rearranged in the order of the sort. */
  ghost predicate SortedCopies(meta: map<string, seq<Spec>>, sorted: map<string, seq<Spec>>) {
    && sorted.Keys == meta.Keys && AllDivisible(sorted)
    && forall func | func in meta :: multiset(sorted[func]) == multiset(meta[func]) && SortedBy(sorted[func], SpecKey)
  }

  // ---------------------------------------------------------------- sorting the specs

  ghost predicate DistinctShapes(specs: seq<Spec>) {
    forall i, j | 0 <= i < j < |specs| :: specs[i].shape != specs[j].shape
  }

  lemma {:induction false} DistinctShapesKept(specs: seq<Spec>, sorted: seq<Spec>)
    requires multiset(specs) == multiset(sorted) && DistinctShapes(specs)
    ensures DistinctShapes(sorted)
  {
    assert |multiset(sorted)| == |sorted| && |multiset(specs)| == |specs|;
    if specs != [] {
      var k := MatchLast(specs, sorted);
      var front, others := specs[..|specs| - 1], sorted[..k] + sorted[k + 1..];
      DistinctShapesKept(front, others);
      forall i | 0 <= i < |others| ensures others[i].shape != sorted[k].shape {
        assert others[i] in multiset(others);
        assert others[i] in multiset(front);
        assert others[i] in front;
      }
      forall i, j | 0 <= i < j < |sorted| ensures sorted[i].shape != sorted[j].shape {
        assert i < k ==> sorted[i] == others[i];
        assert j < k ==> sorted[j] == others[j];
        assert i > k ==> sorted[i] == others[i - 1];
        assert j > k ==> sorted[j] == others[j - 1];
      }
    }
  }

  lemma SortedSpecsAreUsable(specs: seq<Spec>, sorted: seq<Spec>)
    requires ValidSpecs(specs) && multiset(sorted) == multiset(specs) && SortedBy(sorted, SpecKey)
    ensures Usable(sorted)
  {
    assert |multiset(sorted)| == |sorted| && |multiset(specs)| == |specs|;
    DistinctShapesKept(specs, sorted);
    forall s | s in sorted ensures s in specs {
      assert s in multiset(sorted);
      assert s in multiset(specs);
    }
    forall i, j | 0 <= i < j < |sorted| ensures ShapeBefore(sorted[i].shape, sorted[j].shape) {
      assert !Before(SpecKey(sorted[j]), SpecKey(sorted[i]));
      assert sorted[i].shape != sorted[j].shape;
    }
  }

  lemma ValidSpecsSortWell(meta: map<string, seq<Spec>>, sorted: map<string, seq<Spec>>)
    requires SortedCopies(meta, sorted) && forall func | func in meta :: ValidSpecs(meta[func])
    ensures SortedMeta(meta, sorted)
  {
    forall func | func in meta ensures Usable(sorted[func]) {
      SortedSpecsAreUsable(meta[func], sorted[func]);
    }
  }

  lemma SortingKeepsDivisible(specs: seq<Spec>, sorted: seq<Spec>)
    requires Divisible(specs) && multiset(sorted) == multiset(specs)
    ensures Divisible(sorted)
  {
    assert |multiset(sorted)| == |sorted| && |multiset(specs)| == |specs|;
    forall s | s in sorted ensures s in specs {
      assert s in multiset(sorted);
      assert s in multiset(specs);
    }
  }

  /** Sort the specs of every function in place. */
  method SortMeta(meta: map<string, seq<Spec>>) returns (sorted: map<string, seq<Spec>>)
    requires AllDivisible(meta)
    ensures SortedCopies(meta, sorted)
  {
    sorted := map[];
    var rest := meta.Keys;
    while rest != {}
      invariant rest <= meta.Keys && sorted.Keys == meta.Keys - rest && AllDivisible(sorted)
      invariant forall func | func in sorted ::
        multiset(sorted[func]) == multiset(meta[func]) && SortedBy(sorted[func], SpecKey)
      decreases rest
    {
      var func :| func in rest;
      var specs := meta[func];
      var a := new Spec[|specs|](i requires 0 <= i < |specs| => specs[i]);
      assert a[..] == specs;
      SortSlice(a, SpecKey);
      SortingKeepsDivisible(specs, a[..]);
      sorted := sorted[func := a[..]];
      rest := rest - {func};
    }
  }

  // ---------------------------------------------------------------- counting the instances

  /** Count the instances of every function by shape.  The program indexes a map that it made for the
      functions it read before, so every instance must belong to one of those. */
  method CountCurrent(instances: seq<Instance>, funcs: set<string>) returns (current: map<string, map<Shape, int>>)
    requires forall x | x in instances :: x.func in funcs
    ensures IsCount(current, instances, funcs)
  {
    current := map func | func in funcs :: map[];
    for i := 0 to |instances|
      invariant IsCount(current, instances[..i], funcs)
    {
      var x := instances[i];
      assert instances[..i + 1] == instances[..i] + [x];
      ghost var before := current;
      var counts := current[x.func];
      current := current[x.func := counts[x.shape := GetCount(counts, x.shape) + 1]];
      forall func, shape | func in funcs
        ensures GetCount(current[func], shape) == Count(instances[..i + 1], func, shape)
      {
        CountSnoc(instances[..i], x, func, shape);
        assert GetCount(before[func], shape) == Count(instances[..i], func, shape);
      }
    }
    assert instances[..|instances|] == instances;
  }

  ghost predicate IsCount(current: map<string, map<Shape, int>>, instances: seq<Instance>, funcs: set<string>) {
    && current.Keys == funcs
    && forall func, shape | func in funcs :: GetCount(current[func], shape) == Count(instances, func, shape)
  }

  lemma CountSnoc(front: seq<Instance>, x: Instance, func: string, shape: Shape)
    ensures Count(front + [x], func, shape)
         == Count(front, func, shape) + if x.func == func && x.shape == shape then 1 else 0
  {
    assert (front + [x])[..|front|] == front;
    match x.launch
    case EC2 => case Fargate => case FargateSpot =>
  }

  // ---------------------------------------------------------------- demand of one snapshot

  ghost predicate IsDemand(demand: Demands, snapshot: seq<Sampled>, sorted: map<string, seq<Spec>>)
    requires AllDivisible(sorted)
  {
    && demand.Keys == sorted.Keys
    && forall func, shape | func in sorted && PositiveShape(shape) ::
         Get(demand[func], shape) == Demand(snapshot, func, sorted[func], shape)
  }

  /** The first spec that holds the request, or the last one, with what the request is worth there. */
  method ChooseSpec(req: Sampled, specs: seq<Spec>) returns (shape: Shape, requireCnt: real)
    requires Divisible(specs)
    ensures shape == specs[Bucket(req, specs)].shape && PositiveShape(shape) && requireCnt == Ratio(req, shape)
    ensures forall q: real :: Holds(q, shape, req) <==> requireCnt <= q
  {
    forall s, q: real | PositiveShape(s) ensures Holds(q, s, req) <==> Ratio(req, s) <= q {
      RatioIsLeastHold(req, s, q);
    }
    var maxRes := specs[|specs| - 1];
    shape, requireCnt := maxRes.shape, Ratio(req, maxRes.shape);
    var i := 0;
    while i < |specs|
      invariant 0 <= i <= |specs|
      invariant Bucket(req, specs) == BucketFrom(req, specs, i)
      invariant shape == maxRes.shape && requireCnt == Ratio(req, shape)
    {
      if FitsSpec(req, specs[i]) {
        shape, requireCnt := specs[i].shape, Ratio(req, specs[i].shape);
        return;
      }
      i := i + 1;
    }
  }

  lemma DemandSnoc(front: seq<Sampled>, req: Sampled, func: string, specs: seq<Spec>, shape: Shape)
    requires specs != [] && PositiveShape(shape)
    ensures Demand(front + [req], func, specs, shape)
         == Demand(front, func, specs, shape) + if Charged(req, func, specs, shape) then Ratio(req, shape) else 0.0
  {
    TotalSnoc(front, req, ChargeFn(func, specs, shape));
  }

  /** Charge one more request, if its function is known. */
  method AddRequest(demand: Demands, req: Sampled, sorted: map<string, seq<Spec>>, ghost front: seq<Sampled>)
    returns (r: Demands)
    requires AllDivisible(sorted) && IsDemand(demand, front, sorted)
    ensures IsDemand(r, front + [req], sorted)
  {
    r := demand;
    if req.func in sorted {
      var shape, requireCnt := ChooseSpec(req, sorted[req.func]);
      var counts := demand[req.func];
      r := demand[req.func := counts[shape := Get(counts, shape) + requireCnt]];
    }
    forall func, shape | func in sorted && PositiveShape(shape)
      ensures Get(r[func], shape) == Demand(front + [req], func, sorted[func], shape)
    {
      DemandSnoc(front, req, func, sorted[func], shape);
      assert Get(demand[func], shape) == Demand(front, func, sorted[func], shape);
    }
  }

  method SnapshotDemand(snapshot: seq<Sampled>, sorted: map<string, seq<Spec>>) returns (demand: Demands)
    requires AllDivisible(sorted)
    ensures IsDemand(demand, snapshot, sorted)
  {
    demand := map func | func in sorted :: map[];
    for j := 0 to |snapshot|
      invariant IsDemand(demand, snapshot[..j], sorted)
    {
      assert snapshot[..j + 1] == snapshot[..j] + [snapshot[j]];
      demand := AddRequest(demand, snapshot[j], sorted, snapshot[..j]);
    }
    assert snapshot[..|snapshot|] == snapshot;
  }

  method WindowDemands(window: seq<seq<Sampled>>, sorted: map<string, seq<Spec>>) returns (demands: seq<Demands>)
    requires AllDivisible(sorted)
    ensures |demands| == |window| && forall i | 0 <= i < |window| :: IsDemand(demands[i], window[i], sorted)
  {
    demands := [];
    for i := 0 to |window|
      invariant |demands| == i && forall j | 0 <= j < i :: IsDemand(demands[j], window[j], sorted)
    {
      var demand := SnapshotDemand(window[i], sorted);
      demands := demands + [demand];
    }
  }

  // ---------------------------------------------------------------- averages

  /** Add the demands of one snapshot, divided by `d`, to the running averages of a function. */
  method AddShares(avg: map<Shape, real>, demand: map<Shape, real>, d: real) returns (r: map<Shape, real>)
    requires d > 0.0
    ensures forall shape :: Get(r, shape) == Get(avg, shape) + Get(demand, shape) / d
  {
    r := avg;
    var rest := demand.Keys;
    while rest != {}
      invariant rest <= demand.Keys
      invariant forall shape :: Get(r, shape) == Get(avg, shape) + if shape in rest then 0.0 else Get(demand, shape) / d
      decreases rest
    {
      var shape :| shape in rest;
      r := r[shape := Get(r, shape) + demand[shape] / d];
      rest := rest - {shape};
    }
  }

  method AverageDemand(window: seq<seq<Sampled>>, demands: seq<Demands>, sorted: map<string, seq<Spec>>, func: string,
                       threshold: real)
    returns (avg: map<Shape, real>)
    requires AllDivisible(sorted) && func in sorted && threshold > 0.0
    requires |demands| == |window| && forall i | 0 <= i < |window| :: IsDemand(demands[i], window[i], sorted)
    ensures forall shape | PositiveShape(shape) ::
      Get(avg, shape) == Average(window, func, sorted[func], shape, threshold)
  {
    avg := map[];
    if window == [] {
      return;
    }
    var d := Divisor(|window|, threshold);
    var specs := sorted[func];
    for i := 0 to |window|
      invariant forall shape | PositiveShape(shape) ::
        Get(avg, shape) == Total(window[..i], ShareFn(func, specs, shape, d))
    {
      assert window[..i + 1] == window[..i] + [window[i]];
      forall shape | PositiveShape(shape)
        ensures Total(window[..i + 1], ShareFn(func, specs, shape, d))
             == Total(window[..i], ShareFn(func, specs, shape, d)) + Get(demands[i][func], shape) / d
      {
        TotalSnoc(window[..i], window[i], ShareFn(func, specs, shape, d));
      }
      avg := AddShares(avg, demands[i][func], d);
    }
    assert window[..|window|] == window;
  }

  // ---------------------------------------------------------------- scale counts

  /** Target less present count. */
  function ScaleOf(window: seq<seq<Sampled>>, instances: seq<Instance>, func: string, specs: seq<Spec>, spec: Spec,
                   threshold: real): ResScale
    requires Divisible(specs) && PositiveShape(spec.shape) && threshold > 0.0
  {
    ResScale(spec.shape, Target(window, func, specs, spec, threshold) - Count(instances, func, spec.shape))
  }

  /** The scale counts of one function, spec by spec in sorted order. */
  ghost predicate IsScales(scales: seq<ResScale>, window: seq<seq<Sampled>>, instances: seq<Instance>, func: string,
                           specs: seq<Spec>, threshold: real)
    requires Divisible(specs) && threshold > 0.0
  {
    && |scales| == |specs|
    && forall k | 0 <= k < |specs| ::
         scales[k] == ScaleOf(window, instances, func, specs, specs[k], threshold)
  }

  method ScalesOf(window: seq<seq<Sampled>>, instances: seq<Instance>, func: string, specs: seq<Spec>, threshold: real,
                  avg: map<Shape, real>, counts: map<Shape, int>)
    returns (scales: seq<ResScale>)
    requires Divisible(specs) && threshold > 0.0
    requires forall shape | PositiveShape(shape) :: Get(avg, shape) == Average(window, func, specs, shape, threshold)
    requires forall shape :: GetCount(counts, shape) == Count(instances, func, shape)
    ensures IsScales(scales, window, instances, func, specs, threshold)
  {
    scales := [];
    for k := 0 to |specs|
      invariant |scales| == k
      invariant forall j | 0 <= j < k ::
        scales[j] == ScaleOf(window, instances, func, specs, specs[j], threshold)
    {
      var res := specs[k];
      var expected := Clamp(res.minReplica, res.maxReplica, Round(Get(avg, res.shape)));
      scales := scales + [ResScale(res.shape, expected - GetCount(counts, res.shape))];
    }
  }

  /** CalResScale.  `sorted` names the order in which the program sorts the specs of each function. */
  method CalResScale(window: seq<seq<Sampled>>, meta: map<string, seq<Spec>>, instances: seq<Instance>, threshold: real)
    returns (ret: map<string, seq<ResScale>>, ghost sorted: map<string, seq<Spec>>)
    requires threshold > 0.0
    requires AllDivisible(meta) && forall x | x in instances :: x.func in meta
    ensures SortedCopies(meta, sorted) && ret.Keys == meta.Keys
    ensures forall func | func in ret :: IsScales(ret[func], window, instances, func, sorted[func], threshold)
  {
    var funcMetaDataMap := SortMeta(meta);
    sorted := funcMetaDataMap;
    var current := CountCurrent(instances, meta.Keys);
    var demands := WindowDemands(window, funcMetaDataMap);
    ret := map[];
    var rest := funcMetaDataMap.Keys;
    while rest != {}
      invariant rest <= meta.Keys && ret.Keys == meta.Keys - rest
      invariant forall func | func in ret :: IsScales(ret[func], window, instances, func, sorted[func], threshold)
      decreases rest
    {
      var func :| func in rest;
      var avg := AverageDemand(window, demands, funcMetaDataMap, func, threshold);
      var scales := ScalesOf(window, instances, func, funcMetaDataMap[func], threshold, avg, current[func]);
      ret := ret[func := scales];
      rest := rest - {func};
    }
  }
}
