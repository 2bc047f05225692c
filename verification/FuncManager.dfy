/** The fleet manager as an object: creation, scaling, and the rounds of the auto-scaler. */
module FuncManager {
  import opened Types
  import opened Fleet
  import opened FleetProofs
  import opened DemandSpec
  import opened Stabilisation
  import opened Window
  import opened ResScales

  class FuncManager {
    const pools: Pools
    const windowLen: nat
    const threshold: real

    /** The function and instance tables, the next unused service name, the services handed to drain
        routines, and the window of snapshots. */
    var meta: map<string, seq<Spec>>
    var instances: seq<Instance>
    var nextService: nat
    var draining: seq<nat>
    var hisReqs: seq<seq<Sampled>>

    ghost var created: seq<Instance>
    ghost var complete: set<string>

    ghost function View(): Fleet
      reads this
    {
      Fleet(meta, instances, created, draining, complete)
    }

    ghost predicate Valid()
      reads this
    {
      nextService == |created| && threshold > 0.0
    }

    constructor (pools: Pools, windowLen: nat, threshold: real)
      requires threshold > 0.0
      ensures Valid() && this.pools == pools && this.windowLen == windowLen && this.threshold == threshold
      ensures View() == Fleet(map[], [], [], [], {}) && hisReqs == []
    {
      this.pools, this.windowLen, this.threshold := pools, windowLen, threshold;
      meta, instances, nextService, draining, hisReqs := map[], [], 0, [], [];
      created, complete := [], {};
    }

    /** Create services with fresh names, and the rows that describe them. */
    method BatchCreateInstance(func: string, shape: Shape, launch: Pool, replicas: nat) returns (news: seq<Instance>)
      modifies this`nextService
      ensures nextService == old(nextService) + replicas
      ensures news == NewInstances(func, shape, launch, old(nextService), replicas)
    {
      news := [];
      for i := 0 to replicas
        invariant news == NewInstances(func, shape, launch, old(nextService), i)
        invariant nextService == old(nextService) + i
      {
        news := news + [Instance(nextService, func, shape, launch, "", "", "NOT_CREATE", "")];
        nextService := nextService + 1;
      }
    }

    /** CreateFunction; `result` says which of its calls to the outside work. */
    method CreateFunction(func: string, specs: seq<Spec>, result: Result) returns (ok: bool)
      requires Valid() && forall s | s in specs :: s.minReplica >= 0
      modifies this
      ensures Valid() && hisReqs == old(hisReqs)
      ensures View() == Create(old(View()), pools, func, specs, result)
      ensures ok <==> func !in old(meta) && result.Works?
    {
      if func in meta || result.ReadFails? {
        return false;
      }
      meta := meta[func := specs];
      if result.CreateFails? {
        return false;
      }
      var funcInstances: seq<Instance> := [];
      for i := 0 to |specs|
        invariant nextService == old(nextService) + |funcInstances|
        invariant funcInstances == HotInstances(func, specs[..i], pools.hot, old(nextService))
        invariant created == old(created) && instances == old(instances) && draining == old(draining)
        invariant complete == old(complete) && hisReqs == old(hisReqs) && meta == old(meta)[func := specs]
      {
        assert specs[..i + 1][..i] == specs[..i];
        var res := specs[i];
        var news := BatchCreateInstance(func, res.shape, pools.hot, res.minReplica);
        funcInstances := funcInstances + news;
      }
      assert specs[..|specs|] == specs;
      instances := instances + funcInstances;
      created := created + funcInstances;
      complete := complete + {func};
      return true;
    }

    /** The limits of the last spec with the shape, as the program looks them up. */
    method FindLimits(specs: seq<Spec>, shape: Shape) returns (minReplica: int, maxReplica: int)
      ensures (minReplica, maxReplica) == Limits(specs, shape)
    {
      maxReplica, minReplica := -1, -1;
      for i := 0 to |specs|
        invariant (minReplica, maxReplica) == Limits(specs[..i], shape)
      {
        assert specs[..i + 1][..i] == specs[..i];
        if specs[i].shape == shape {
          maxReplica, minReplica := specs[i].maxReplica, specs[i].minReplica;
        }
      }
      assert specs[..|specs|] == specs;
    }

    /** Delete the rows of cold instances and start their drains, until `change` is used up. */
    method DeleteCold(currentInsList: seq<Instance>, change: int)
      requires Valid() && change < 0
      modifies this`instances, this`draining
      ensures View() == RemoveCold(old(View()), currentInsList, pools.cold, -change)
    {
      var realScaleCnt := change;
      var i := 0;
      while i < |currentInsList| && realScaleCnt < 0
        invariant 0 <= i <= |currentInsList| && realScaleCnt <= 0
        invariant RemoveCold(old(View()), currentInsList, pools.cold, -change)
               == RemoveCold(View(), currentInsList[i..], pools.cold, -realScaleCnt)
        invariant meta == old(meta) && created == old(created) && complete == old(complete)
      {
        var instance := currentInsList[i];
        assert currentInsList[i..][1..] == currentInsList[i + 1..];
        if instance.launch == pools.cold {
          instances := WithoutService(instances, instance.service);
          draining := draining + [instance.service];
          realScaleCnt := realScaleCnt + 1;
        }
        i := i + 1;
      }
    }

    /** ScaleFunction; `result` says which of its calls to the outside work. */
    method ScaleFunction(req: ScaleRequest, result: Result) returns (ok: bool)
      requires Valid()
      modifies this`instances, this`nextService, this`draining, this`created
      ensures Valid()
      ensures View() == Scale(old(View()), pools, req, result)
      ensures ok <==> !result.ReadFails? && req.func in meta && Limits(meta[req.func], req.shape).1 != -1
                      && (result.CreateFails? ==> Change(old(View()), req) <= 0)
    {
      if result.ReadFails? || req.func !in meta {
        return false;
      }
      var currentInsList := Matching(instances, req.func, req.shape);
      MatchingCount(instances, req.func, req.shape);
      var minReplica, maxReplica := FindLimits(meta[req.func], req.shape);
      if maxReplica == -1 {
        return false;
      }
      var realScaleCnt := req.count;
      if req.count > 0 {
        if |currentInsList| + req.count > maxReplica {
          realScaleCnt := maxReplica - |currentInsList|;
        }
      } else if req.count < 0 {
        if |currentInsList| + req.count < minReplica {
          realScaleCnt := minReplica - |currentInsList|;
        }
      }
      assert realScaleCnt == Change(old(View()), req);
      if realScaleCnt > 0 {
        if result.CreateFails? {
          return false;
        }
        var funcInstances := BatchCreateInstance(req.func, req.shape, pools.cold, realScaleCnt);
        instances := instances + funcInstances;
        created := created + funcInstances;
      } else if realScaleCnt < 0 {
        DeleteCold(currentInsList, realScaleCnt);
      }
      return true;
    }

    /** DeleteFunction: the services are deleted at once, whatever runs on them. */
    method DeleteFunction(func: string, readOk: bool, metaOk: bool) returns (ok: bool)
      requires Valid()
      modifies this
      ensures Valid() && hisReqs == old(hisReqs)
      ensures View() == Delete(old(View()), func, readOk, metaOk)
      ensures ok <==> readOk && func in old(meta)
    {
      if !readOk || func !in meta {
        return false;
      }
      instances := WithoutFunction(instances, func);
      if metaOk {
        meta := meta - {func};
      }
      complete := complete - {func};
      return true;
    }

    /** Push a snapshot to the front of the window and drop the oldest ones beyond its length. */
    method PushSnapshot(snapshot: seq<Sampled>) returns (full: bool)
      modifies this`hisReqs
      ensures hisReqs == AfterTick(old(hisReqs), windowLen, Some(snapshot))
      ensures full == ScalesAt(old(hisReqs), windowLen, Some(snapshot))
    {
      hisReqs := [snapshot] + hisReqs;
      if |hisReqs| < windowLen {
        return false;
      }
      ghost var all := hisReqs;
      while |hisReqs| > windowLen
        invariant windowLen <= |hisReqs| <= |all| && hisReqs == all[..|hisReqs|]
        decreases |hisReqs|
      {
        hisReqs := hisReqs[..|hisReqs| - 1];
      }
      return true;
    }

    /** One tick of FunctionAutoScaling, given what GetAllReq reads, whether CalResScale can read the
        tables, and which of the scale requests work; a failing one is skipped.  When the tick scales,
        it applies a plan for the window: the counts wanted for all the specs of all the functions, in
        the arbitrary order in which a map is visited. */
    method AutoScaleTick(sample: Option<seq<Sampled>>, tablesOk: bool, results: ScaleRequest -> Result)
      returns (ghost scaled: bool, ghost sorted: map<string, seq<Spec>>, ghost plan: seq<ScaleRequest>)
      requires Valid() && FleetOk(View())
      requires forall func | func in meta :: ValidSpecs(meta[func])
      modifies this
      ensures Valid() && FleetOk(View()) && meta == old(meta)
      ensures hisReqs == AfterTick(old(hisReqs), windowLen, sample)
      ensures scaled <==> ScalesAt(old(hisReqs), windowLen, sample) && tablesOk
      ensures !scaled ==> View() == old(View())
      ensures scaled ==>
        && SortedMeta(meta, sorted) && IsPlan(plan, old(View()), sorted, hisReqs, threshold)
        && View() == RunPlan(old(View()), pools, results, plan)
    {
      scaled, sorted, plan := false, map[], [];
      if sample == None {
        return;
      }
      var full := PushSnapshot(sample.value);
      if !full || !tablesOk {
        return;
      }
      scaled := true;
      ghost var before := View();
      var resDemandMap: map<string, seq<ResScale>>;
      resDemandMap, sorted := CalResScale(hisReqs, meta, instances, threshold);
      ValidSpecsSortWell(meta, sorted);
      var rest := resDemandMap.Keys;
      while rest != {}
        invariant rest <= resDemandMap.Keys && Valid()
        invariant meta == old(meta) && hisReqs == AfterTick(old(hisReqs), windowLen, sample)
        invariant View() == RunPlan(before, pools, results, plan)
        invariant PlanSoFar(plan, before, sorted, hisReqs, threshold, rest)
        decreases rest
      {
        var func :| func in rest;
        ghost var more := ApplyScales(func, resDemandMap[func], results, before, sorted, plan);
        PlanWithFunction(plan, more, before, sorted, hisReqs, threshold, rest, func);
        plan := plan + more;
        rest := rest - {func};
      }
      PlanKeepsOk(before, pools, results, plan);
    }

    /** Apply the scale counts of one function, skipping zeros. */
    method ApplyScales(func: string, scales: seq<ResScale>, results: ScaleRequest -> Result, ghost before: Fleet,
                       ghost sorted: map<string, seq<Spec>>,
                       ghost plan: seq<ScaleRequest>)
      returns (ghost more: seq<ScaleRequest>)
      requires Valid() && View() == RunPlan(before, pools, results, plan)
      requires SortedMeta(before.meta, sorted) && func in sorted
      requires IsScales(scales, hisReqs, before.instances, func, sorted[func], threshold)
      modifies this`instances, this`nextService, this`draining, this`created
      ensures Valid() && View() == RunPlan(before, pools, results, plan + more)
      ensures FunctionPlan(more, before, sorted[func], hisReqs, threshold, func, |sorted[func]|)
    {
      more := [];
      assert plan + [] == plan;
      for k := 0 to |scales|
        invariant Valid() && View() == RunPlan(before, pools, results, plan + more)
        invariant FunctionPlan(more, before, sorted[func], hisReqs, threshold, func, k)
      {
        var res := scales[k];
        var req := ScaleRequest(func, res.shape, res.scaleCnt);
        assert req == Wanted(before, hisReqs, func, sorted[func], sorted[func][k], threshold);
        if res.scaleCnt == 0 {
          FunctionPlanSkip(more, before, sorted[func], hisReqs, threshold, func, k);
        } else {
          var ok := ScaleFunction(req, results(req));
          RunPlanSnoc(before, pools, results, plan, more, req);
          FunctionPlanSnoc(more, req, before, sorted[func], hisReqs, threshold, func, k);
          more := more + [req];
        }
      }
    }
  }

  // ---------------------------------------------------------------- the plan, function by function

  /** The requests of one function for its first `n` specs. */
  ghost predicate FunctionPlan(more: seq<ScaleRequest>, before: Fleet, specs: seq<Spec>, window: seq<seq<Sampled>>,
                               threshold: real, func: string, n: nat)
    requires Usable(specs) && threshold > 0.0 && n <= |specs|
  {
    && EachOnce(more)
    && (forall req | req in more ::
          && req.func == func
          && exists k :: 0 <= k < n && req == Wanted(before, window, func, specs, specs[k], threshold))
    && (forall k | 0 <= k < n ::
          var req := Wanted(before, window, func, specs, specs[k], threshold);
          req in more || req.count == 0)
  }

  lemma FunctionPlanSnoc(more: seq<ScaleRequest>, req: ScaleRequest, before: Fleet, specs: seq<Spec>,
                         window: seq<seq<Sampled>>, threshold: real, func: string, n: nat)
    requires Usable(specs) && threshold > 0.0 && n < |specs|
    requires FunctionPlan(more, before, specs, window, threshold, func, n)
    requires req == Wanted(before, window, func, specs, specs[n], threshold)
    ensures FunctionPlan(more + [req], before, specs, window, threshold, func, n + 1)
  {
    var all := more + [req];
    forall i, j | 0 <= i < j < |all| ensures !For(all[j], all[i].func, all[i].shape) {
      if j == |more| {
        assert all[i] in more;
        var k :| 0 <= k < n && all[i] == Wanted(before, window, func, specs, specs[k], threshold);
      }
    }
    forall x | x in all
      ensures x.func == func
      ensures exists k :: 0 <= k < n + 1 && x == Wanted(before, window, func, specs, specs[k], threshold)
    {
      if x in more {
        var k :| 0 <= k < n && x == Wanted(before, window, func, specs, specs[k], threshold);
      }
    }
  }

  lemma FunctionPlanSkip(more: seq<ScaleRequest>, before: Fleet, specs: seq<Spec>,
                         window: seq<seq<Sampled>>, threshold: real, func: string, n: nat)
    requires Usable(specs) && threshold > 0.0 && n < |specs|
    requires FunctionPlan(more, before, specs, window, threshold, func, n)
    requires Wanted(before, window, func, specs, specs[n], threshold).count == 0
    ensures FunctionPlan(more, before, specs, window, threshold, func, n + 1)
  {}

  lemma RunPlanSnoc(before: Fleet, pools: Pools, results: ScaleRequest -> Result, plan: seq<ScaleRequest>,
                    more: seq<ScaleRequest>, req: ScaleRequest)
    ensures RunPlan(before, pools, results, plan + (more + [req]))
      == Scale(RunPlan(before, pools, results, plan + more), pools, req, results(req))
  {
    assert (plan + (more + [req]))[..|plan + more|] == plan + more;
  }

  /** A plan for all the functions but those in `rest`. */
  ghost predicate PlanSoFar(plan: seq<ScaleRequest>, before: Fleet, sorted: map<string, seq<Spec>>,
                            window: seq<seq<Sampled>>, threshold: real, rest: set<string>)
    requires SortedMeta(before.meta, sorted) && threshold > 0.0
  {
    && EachOnce(plan)
    && (forall req | req in plan ::
          req.func in sorted && req.func !in rest && WantedBySome(req, before, sorted[req.func], window, threshold))
    && (forall func, spec | func in sorted && func !in rest && spec in sorted[func] ::
          var req := Wanted(before, window, func, sorted[func], spec, threshold);
          req in plan || req.count == 0)
  }

  lemma PlanWithFunction(plan: seq<ScaleRequest>, more: seq<ScaleRequest>, before: Fleet,
                         sorted: map<string, seq<Spec>>,
                         window: seq<seq<Sampled>>, threshold: real, rest: set<string>, func: string)
    requires SortedMeta(before.meta, sorted) && threshold > 0.0 && func in rest && func in sorted
    requires PlanSoFar(plan, before, sorted, window, threshold, rest)
    requires FunctionPlan(more, before, sorted[func], window, threshold, func, |sorted[func]|)
    ensures PlanSoFar(plan + more, before, sorted, window, threshold, rest - {func})
  {
    var all := plan + more;
    forall i, j | 0 <= i < j < |all| ensures !For(all[j], all[i].func, all[i].shape) {
      if i < |plan| <= j {
        assert all[i] in plan && all[j] in more;
      }
    }
    forall req | req in all
      ensures req.func in sorted && req.func !in rest - {func}
        && WantedBySome(req, before, sorted[req.func], window, threshold)
    {
    }
    forall f, spec | f in sorted && f !in rest - {func} && spec in sorted[f]
      ensures var req := Wanted(before, window, f, sorted[f], spec, threshold);
        req in all || req.count == 0
    {
      if f == func {
        var k :| 0 <= k < |sorted[func]| && sorted[func][k] == spec;
      }
    }
  }
}
