/** One round of auto-scaling: the counts that CalResScale computes, applied by ScaleFunction. */
module Stabilisation {
  import opened Types
  import opened Fleet
  import opened FleetProofs
  import opened DemandSpec

  /** Scale requests applied one after the other.  `results` says which of them work; a failing one
      does not stop the others. */
  function RunPlan(fleet: Fleet, pools: Pools, results: ScaleRequest -> Result, plan: seq<ScaleRequest>): Fleet {
    if plan == [] then fleet
    else
      var last := plan[|plan| - 1];
      Scale(RunPlan(fleet, pools, results, plan[..|plan| - 1]), pools, last, results(last))
  }

  predicate For(req: ScaleRequest, func: string, shape: Shape) {
    req.func == func && req.shape == shape
  }

  ghost predicate Untouched(plan: seq<ScaleRequest>, func: string, shape: Shape) {
    forall req | req in plan :: !For(req, func, shape)
  }

  ghost predicate EachOnce(plan: seq<ScaleRequest>) {
    forall i, j | 0 <= i < j < |plan| :: !For(plan[j], plan[i].func, plan[i].shape)
  }

  lemma {:induction false} PlanKeepsOk(fleet: Fleet, pools: Pools, results: ScaleRequest -> Result,
                                       plan: seq<ScaleRequest>)
    requires FleetOk(fleet)
    ensures FleetOk(RunPlan(fleet, pools, results, plan))
    ensures RunPlan(fleet, pools, results, plan).meta == fleet.meta
      && RunPlan(fleet, pools, results, plan).complete == fleet.complete
  {
    if plan != [] {
      var front := plan[..|plan| - 1];
      PlanKeepsOk(fleet, pools, results, front);
      ScaleKeepsOk(RunPlan(fleet, pools, results, front), pools, plan[|plan| - 1], results(plan[|plan| - 1]));
    }
  }

  /** A plan changes only the counts it mentions. */
  lemma {:induction false} PlanLeavesOthers(fleet: Fleet, pools: Pools, results: ScaleRequest -> Result,
                                            plan: seq<ScaleRequest>,
                                            func: string, shape: Shape, counted: set<Pool>)
    requires FleetOk(fleet) && Untouched(plan, func, shape)
    ensures Tally(RunPlan(fleet, pools, results, plan).instances, func, shape, counted)
      == Tally(fleet.instances, func, shape, counted)
  {
    if plan != [] {
      var front, last := plan[..|plan| - 1], plan[|plan| - 1];
      assert last in plan && forall req | req in front :: req in plan;
      PlanLeavesOthers(fleet, pools, results, front, func, shape, counted);
      PlanKeepsOk(fleet, pools, results, front);
      ScaleTally(RunPlan(fleet, pools, results, front), pools, last, results(last), func, shape, counted);
    }
  }

  /** Where one request takes the count of its function and shape. */
  function ScaledTo(fleet: Fleet, pools: Pools, req: ScaleRequest, result: Result, counted: set<Pool>): int {
    Tally(fleet.instances, req.func, req.shape, counted)
    + Moved(Effective(Change(fleet, req), result), Tally(fleet.instances, req.func, req.shape, {pools.cold}),
            pools.cold in counted)
  }

  lemma LastOfPlan(fleet: Fleet, pools: Pools, results: ScaleRequest -> Result, front: seq<ScaleRequest>,
                   req: ScaleRequest, counted: set<Pool>)
    requires FleetOk(fleet) && Untouched(front, req.func, req.shape)
    ensures var after := Scale(RunPlan(fleet, pools, results, front), pools, req, results(req));
      Tally(after.instances, req.func, req.shape, counted)
         == ScaledTo(fleet, pools, req, results(req), counted)
  {
    var before := RunPlan(fleet, pools, results, front);
    PlanKeepsOk(fleet, pools, results, front);
    ScaleTally(before, pools, req, results(req), req.func, req.shape, counted);
    PlanLeavesOthers(fleet, pools, results, front, req.func, req.shape, counted);
    PlanLeavesOthers(fleet, pools, results, front, req.func, req.shape, ALL_POOLS);
    PlanLeavesOthers(fleet, pools, results, front, req.func, req.shape, {pools.cold});
    assert Change(before, req) == Change(fleet, req);
  }

  lemma FrontOfPlan(fleet: Fleet, pools: Pools, results: ScaleRequest -> Result, front: seq<ScaleRequest>,
                    last: ScaleRequest,
                    func: string, shape: Shape, counted: set<Pool>)
    requires FleetOk(fleet) && !For(last, func, shape)
    ensures var after := Scale(RunPlan(fleet, pools, results, front), pools, last, results(last));
      Tally(after.instances, func, shape, counted)
         == Tally(RunPlan(fleet, pools, results, front).instances, func, shape, counted)
  {
    PlanKeepsOk(fleet, pools, results, front);
    ScaleTally(RunPlan(fleet, pools, results, front), pools, last, results(last), func, shape, counted);
  }

  lemma FrontUntouched(plan: seq<ScaleRequest>)
    requires EachOnce(plan) && plan != []
    ensures Untouched(plan[..|plan| - 1], plan[|plan| - 1].func, plan[|plan| - 1].shape)
    ensures EachOnce(plan[..|plan| - 1])
  {
    var n := |plan| - 1;
    forall other | other in plan[..n] ensures !For(other, plan[n].func, plan[n].shape) {
      var i :| 0 <= i < n && plan[..n][i] == other;
      assert plan[i] == other;
    }
  }

  /** A count that a plan mentions once ends where that one request alone would take it. */
  lemma {:induction false} PlanScalesOnce(fleet: Fleet, pools: Pools, results: ScaleRequest -> Result,
                                          plan: seq<ScaleRequest>, k: nat, counted: set<Pool>)
    requires FleetOk(fleet) && EachOnce(plan) && k < |plan|
    ensures Tally(RunPlan(fleet, pools, results, plan).instances, plan[k].func, plan[k].shape, counted)
         == ScaledTo(fleet, pools, plan[k], results(plan[k]), counted)
  {
    var n := |plan| - 1;
    FrontUntouched(plan);
    if k < n {
      FrontOfPlan(fleet, pools, results, plan[..n], plan[n], plan[k].func, plan[k].shape, counted);
      PlanScalesOnce(fleet, pools, results, plan[..n], k, counted);
    } else {
      LastOfPlan(fleet, pools, results, plan[..n], plan[n], counted);
    }
  }

  // ---------------------------------------------------------------- the plan of a round

  /** The specs of every function, sorted as CalResScale sorts them. */
  ghost predicate SortedMeta(meta: map<string, seq<Spec>>, sorted: map<string, seq<Spec>>) {
    && sorted.Keys == meta.Keys
    && forall func | func in meta :: multiset(sorted[func]) == multiset(meta[func]) && Usable(sorted[func])
  }

  /** What a round asks for one spec: the target less the present count. */
  function Wanted(fleet: Fleet, window: seq<seq<Sampled>>, func: string, specs: seq<Spec>, spec: Spec,
                  threshold: real): ScaleRequest
    requires specs != [] && PositiveShape(spec.shape) && threshold > 0.0
  {
    ScaleRequest(func, spec.shape,
                 Target(window, func, specs, spec, threshold) - Count(fleet.instances, func, spec.shape))
  }

  /** The plan mentions each spec at most once, with the count wanted for it, and leaves out only
      specs for which nothing is wanted. */
  ghost predicate IsPlan(plan: seq<ScaleRequest>, fleet: Fleet, sorted: map<string, seq<Spec>>,
                         window: seq<seq<Sampled>>, threshold: real)
    requires SortedMeta(fleet.meta, sorted) && threshold > 0.0
  {
    && EachOnce(plan)
    && (forall req | req in plan :: req.func in sorted && WantedBySome(req, fleet, sorted[req.func], window, threshold))
    && (forall func, spec | func in sorted && spec in sorted[func] ::
          var req := Wanted(fleet, window, func, sorted[func], spec, threshold);
          req in plan || req.count == 0)
  }

  ghost predicate WantedBySome(req: ScaleRequest, fleet: Fleet, specs: seq<Spec>, window: seq<seq<Sampled>>,
                               threshold: real)
    requires Usable(specs) && threshold > 0.0
  {
    exists k :: 0 <= k < |specs| && req == Wanted(fleet, window, req.func, specs, specs[k], threshold)
  }

  lemma SortedIsSame(meta: map<string, seq<Spec>>, sorted: map<string, seq<Spec>>, func: string, spec: Spec)
    requires SortedMeta(meta, sorted) && func in meta
    ensures spec in sorted[func] <==> spec in meta[func]
  {
    assert spec in sorted[func] <==> spec in multiset(sorted[func]);
    assert spec in meta[func] <==> spec in multiset(meta[func]);
  }

  /** How many instances of the spec cannot be removed, because they do not run in the cold pool. */
  function NonCold(fleet: Fleet, pools: Pools, func: string, shape: Shape): nat {
    Tally(fleet.instances, func, shape, ALL_POOLS - {pools.cold})
  }

  /** The count a round wants is never clamped a second time when it is applied. */
  lemma WantedIsNotClamped(fleet: Fleet, pools: Pools, sorted: map<string, seq<Spec>>, window: seq<seq<Sampled>>,
                           threshold: real, func: string, spec: Spec)
    requires SortedMeta(fleet.meta, sorted) && threshold > 0.0
    requires func in fleet.meta && ValidSpecs(fleet.meta[func]) && spec in fleet.meta[func]
    ensures var req := Wanted(fleet, window, func, sorted[func], spec, threshold);
      Change(fleet, req) == req.count
  {
    SortedIsSame(fleet.meta, sorted, func, spec);
    TargetWithinLimits(window, func, sorted[func], spec, threshold);
    ChangeOfSpec(fleet, Wanted(fleet, window, func, sorted[func], spec, threshold), spec);
  }

  /** What a plan makes of the two counts of a spec, whether it mentions the spec or not. */
  lemma PlanReaches(fleet: Fleet, pools: Pools, results: ScaleRequest -> Result, sorted: map<string, seq<Spec>>,
                    window: seq<seq<Sampled>>,
                    threshold: real, plan: seq<ScaleRequest>, func: string, spec: Spec, counted: set<Pool>)
    requires FleetOk(fleet) && SortedMeta(fleet.meta, sorted) && threshold > 0.0
    requires IsPlan(plan, fleet, sorted, window, threshold)
    requires func in fleet.meta && ValidSpecs(fleet.meta[func]) && spec in fleet.meta[func]
    ensures var req := Wanted(fleet, window, func, sorted[func], spec, threshold);
      Tally(RunPlan(fleet, pools, results, plan).instances, func, spec.shape, counted)
      == Tally(fleet.instances, func, spec.shape, counted)
         + Moved(Effective(req.count, results(req)), Tally(fleet.instances, func, spec.shape, {pools.cold}),
                 pools.cold in counted)
  {
    SortedIsSame(fleet.meta, sorted, func, spec);
    WantedIsNotClamped(fleet, pools, sorted, window, threshold, func, spec);
    var req := Wanted(fleet, window, func, sorted[func], spec, threshold);
    if req in plan {
      var k :| 0 <= k < |plan| && plan[k] == req;
      PlanScalesOnce(fleet, pools, results, plan, k, counted);
    } else {
      MentionsAreWanted(plan, fleet, sorted, window, threshold, func, spec);
      PlanLeavesOthers(fleet, pools, results, plan, func, spec.shape, counted);
    }
  }

  /** One round is enough: from any fleet, each spec whose own request works ends at its target, or at
      the number of instances that may not be removed if that is larger.  A spec whose creation fails
      stays as it is.  It does not matter which requests for other specs work. */
  lemma OneRoundReachesTargets(fleet: Fleet, pools: Pools, results: ScaleRequest -> Result,
                               sorted: map<string, seq<Spec>>, window: seq<seq<Sampled>>,
                               threshold: real, plan: seq<ScaleRequest>, func: string, spec: Spec)
    requires FleetOk(fleet) && SortedMeta(fleet.meta, sorted) && threshold > 0.0
    requires IsPlan(plan, fleet, sorted, window, threshold)
    requires func in fleet.meta && ValidSpecs(fleet.meta[func]) && spec in fleet.meta[func]
    ensures var after := RunPlan(fleet, pools, results, plan);
      var req := Wanted(fleet, window, func, sorted[func], spec, threshold);
      && Count(after.instances, func, spec.shape)
         == (if Effective(req.count, results(req)) == req.count
             then Max(Target(window, func, sorted[func], spec, threshold), NonCold(fleet, pools, func, spec.shape))
             else Count(fleet.instances, func, spec.shape))
      && NonCold(after, pools, func, spec.shape) == NonCold(fleet, pools, func, spec.shape)
  {
    PlanReaches(fleet, pools, results, sorted, window, threshold, plan, func, spec, ALL_POOLS);
    PlanReaches(fleet, pools, results, sorted, window, threshold, plan, func, spec, ALL_POOLS - {pools.cold});
    TallySplit(fleet.instances, func, spec.shape, pools.cold);
    AnyPool(pools.cold);
  }

  /** Shapes are distinct, so a plan that mentions a spec asks for what is wanted for it. */
  lemma MentionsAreWanted(plan: seq<ScaleRequest>, fleet: Fleet, sorted: map<string, seq<Spec>>,
                          window: seq<seq<Sampled>>,
                          threshold: real, func: string, spec: Spec)
    requires SortedMeta(fleet.meta, sorted) && threshold > 0.0 && IsPlan(plan, fleet, sorted, window, threshold)
    requires func in sorted && spec in sorted[func]
    ensures forall req | req in plan && For(req, func, spec.shape) ::
      req == Wanted(fleet, window, func, sorted[func], spec, threshold)
  {
    var specs := sorted[func];
    var i :| 0 <= i < |specs| && specs[i] == spec;
    forall req | req in plan && For(req, func, spec.shape)
      ensures req == Wanted(fleet, window, func, specs, spec, threshold)
    {
      assert WantedBySome(req, fleet, specs, window, threshold);
      var k :| 0 <= k < |specs| && req == Wanted(fleet, window, func, specs, specs[k], threshold);
      assert k == i;
    }
  }

  /** Applying a request for a count that is already settled changes nothing. */
  lemma SettledScaleIsIdle(fleet: Fleet, pools: Pools, sorted: map<string, seq<Spec>>, window: seq<seq<Sampled>>,
                           threshold: real, func: string, spec: Spec, result: Result)
    requires FleetOk(fleet) && SortedMeta(fleet.meta, sorted) && threshold > 0.0
    requires func in fleet.meta && ValidSpecs(fleet.meta[func]) && spec in fleet.meta[func]
    requires Count(fleet.instances, func, spec.shape)
          == Max(Target(window, func, sorted[func], spec, threshold), NonCold(fleet, pools, func, spec.shape))
    ensures Scale(fleet, pools, Wanted(fleet, window, func, sorted[func], spec, threshold), result) == fleet
  {
    var req := Wanted(fleet, window, func, sorted[func], spec, threshold);
    WantedIsNotClamped(fleet, pools, sorted, window, threshold, func, spec);
    if req.count < 0 {
      TallySplit(fleet.instances, func, spec.shape, pools.cold);
      RemovalWithoutCold(fleet, pools.cold, func, spec.shape, -req.count);
    }
  }

  lemma RemovalWithoutCold(fleet: Fleet, cold: Pool, func: string, shape: Shape, quota: nat)
    requires Tally(fleet.instances, func, shape, {cold}) == 0
    ensures RemoveCold(fleet, Matching(fleet.instances, func, shape), cold, quota) == fleet
  {
    var list := Matching(fleet.instances, func, shape);
    MatchingMembers(fleet.instances, func, shape);
    MatchingTally(fleet.instances, func, shape, {cold});
    ColdInIsTally(list, cold, func, shape);
    NoColdNothingRemoved(fleet, list, cold, quota);
  }

  lemma {:induction false} NoColdNothingRemoved(fleet: Fleet, list: seq<Instance>, cold: Pool, quota: nat)
    requires ColdIn(list, cold) == 0
    ensures RemoveCold(fleet, list, cold, quota) == fleet
    decreases |list|
  {
    if list != [] && quota > 0 {
      NoColdNothingRemoved(fleet, list[1..], cold, quota);
    }
  }

  /** After a round that worked, a second one on the same window leaves the fleet as it is,
      whichever of its requests fail. */
  lemma SecondRoundIsIdle(fleet: Fleet, pools: Pools, results: ScaleRequest -> Result, results': ScaleRequest -> Result,
                          sorted: map<string, seq<Spec>>, window: seq<seq<Sampled>>,
                          threshold: real, plan: seq<ScaleRequest>, plan': seq<ScaleRequest>)
    requires FleetOk(fleet) && SortedMeta(fleet.meta, sorted) && threshold > 0.0
    requires forall func | func in fleet.meta :: ValidSpecs(fleet.meta[func])
    requires IsPlan(plan, fleet, sorted, window, threshold)
    requires forall req | req in plan :: results(req).Works?
    requires RunPlan(fleet, pools, results, plan).meta == fleet.meta
    requires IsPlan(plan', RunPlan(fleet, pools, results, plan), sorted, window, threshold)
    ensures RunPlan(RunPlan(fleet, pools, results, plan), pools, results', plan')
      == RunPlan(fleet, pools, results, plan)
  {
    var after := RunPlan(fleet, pools, results, plan);
    PlanKeepsOk(fleet, pools, results, plan);
    forall req | req in plan' ensures Scale(after, pools, req, results'(req)) == after {
      assert WantedBySome(req, after, sorted[req.func], window, threshold);
      var specs := sorted[req.func];
      var k :| 0 <= k < |specs| && req == Wanted(after, window, req.func, specs, specs[k], threshold);
      assert specs[k] in specs;
      SortedIsSame(fleet.meta, sorted, req.func, specs[k]);
      OneRoundReachesTargets(fleet, pools, results, sorted, window, threshold, plan, req.func, specs[k]);
      SettledScaleIsIdle(after, pools, sorted, window, threshold, req.func, specs[k], results'(req));
    }
    IdleRequests(after, pools, results', plan');
  }

  lemma {:induction false} IdleRequests(fleet: Fleet, pools: Pools, results: ScaleRequest -> Result,
                                        plan: seq<ScaleRequest>)
    requires forall req | req in plan :: Scale(fleet, pools, req, results(req)) == fleet
    ensures RunPlan(fleet, pools, results, plan) == fleet
  {
    if plan != [] {
      var front, last := plan[..|plan| - 1], plan[|plan| - 1];
      assert last in plan && forall req | req in front :: req in plan;
      IdleRequests(fleet, pools, results, front);
    }
  }
}
