/** From live requests to demand: what the auto-scaler computes from a sample never falls short of what is
    live while the sample is taken. */
module LiveDemand {
  import opened Types
  import opened Sampling
  import opened Protocol
  import opened Runs
  import opened DemandSpec

  ghost predicate Throughout(states: seq<State>, a: nat, b: nat, id: nat)
    requires a <= b < |states|
  {
    forall k | a <= k <= b :: Live(states[k], id)
  }

  /** What is sampled of the request with the id, as it was submitted. */
  function SampleOf(s: State, id: nat): Sampled
    requires id < |s.submitted|
  {
    var req := s.submitted[id];
    Sampled(id, req.func, req.cpu, req.memory)
  }

  ghost predicate DistinctSamples(live: seq<Sampled>) {
    forall i, j | 0 <= i < j < |live| :: live[i].id != live[j].id
  }

  /** A request that is live throughout is in the sample, with its function and demands. */
  lemma LiveIsSampled(cfg: Config, states: seq<State>, actions: seq<Action>, a: nat, b: nat, id: nat)
    requires IsRun(cfg, states, actions) && a <= b < |states| && Throughout(states, a, b, id)
    ensures id < |states[b].submitted|
    ensures SampleOf(states[b], id) in Sample(states[a].queue, states[b].rows)
  {
    SnapshotsNeverUndercount(cfg, states, actions, a, b, id);
    OccurringIsIn(Sample(states[a].queue, states[b].rows), id);
  }

  lemma {:induction false} OccurringIsIn(sample: seq<Sampled>, id: nat)
    ensures Occurrences(sample, id) >= 1 ==> exists x :: x in sample && x.id == id
  {
    if sample != [] {
      var front, last := sample[..|sample| - 1], sample[|sample| - 1];
      OccurringIsIn(front, id);
      assert last in sample;
    }
  }

  /** A sum of non-negative terms is at least the sum over any different ones among them. */
  lemma {:induction false} TotalOfSome(live: seq<Sampled>, sample: seq<Sampled>, f: Sampled -> real)
    requires DistinctSamples(live) && forall x | x in live :: x in sample
    requires forall x | x in sample :: f(x) >= 0.0
    ensures Total(live, f) <= Total(sample, f)
  {
    if live == [] {
      TotalNonNegative(sample, f);
    } else {
      var front, last := live[..|live| - 1], live[|live| - 1];
      assert last in live;
      var k :| 0 <= k < |sample| && sample[k] == last;
      var rest := sample[..k] + sample[k + 1..];
      forall x | x in front ensures x in rest {
        assert x in live && x.id != last.id;
        var i :| 0 <= i < |sample| && sample[i] == x;
        assert i < k ==> rest[i] == x;
        assert i > k ==> rest[i - 1] == x;
      }
      TotalOfSome(front, rest, f);
      TotalWithoutAt(sample, k, f);
    }
  }

  lemma {:induction false} TotalNonNegative(sample: seq<Sampled>, f: Sampled -> real)
    requires forall x | x in sample :: f(x) >= 0.0
    ensures Total(sample, f) >= 0.0
  {
    if sample != [] {
      assert sample[|sample| - 1] in sample;
      TotalNonNegative(sample[..|sample| - 1], f);
    }
  }

  lemma ChargesAreNonNegative(sample: seq<Sampled>, func: string, specs: seq<Spec>, shape: Shape)
    requires specs != [] && PositiveShape(shape) && forall x | x in sample :: x.cpu >= 0 && x.memory >= 0
    ensures forall x | x in sample :: ChargeFn(func, specs, shape)(x) >= 0.0
  {
    forall x | x in sample ensures ChargeFn(func, specs, shape)(x) >= 0.0 {
      NonNegativeQuotient(x.cpu as real, shape.cpu as real);
    }
  }

  /** For any requests that are live while the sample is taken, in whatever order and however the steps of
      all goroutines fall between its two reads: the demand computed from the sample is at least the demand
      of these requests alone, for every function and spec. */
  lemma DemandCoversWhatIsLive(cfg: Config, states: seq<State>, actions: seq<Action>, a: nat, b: nat,
                               live: seq<Sampled>, func: string, specs: seq<Spec>, shape: Shape)
    requires IsRun(cfg, states, actions) && a <= b < |states|
    requires DistinctSamples(live)
    requires forall x | x in live ::
      Throughout(states, a, b, x.id) && x.id < |states[b].submitted| && x == SampleOf(states[b], x.id)
    requires forall req | req in states[b].submitted :: req.cpu >= 0 && req.memory >= 0
    requires specs != [] && PositiveShape(shape)
    ensures Demand(live, func, specs, shape) <= Demand(Sample(states[a].queue, states[b].rows), func, specs, shape)
  {
    var sample := Sample(states[a].queue, states[b].rows);
    forall x | x in live ensures x in sample {
      LiveIsSampled(cfg, states, actions, a, b, x.id);
    }
    forall x | x in sample ensures x.cpu >= 0 && x.memory >= 0 {
      SnapshotsNeverUndercount(cfg, states, actions, a, b, x.id);
      assert states[b].submitted[x.id] in states[b].submitted;
    }
    ChargesAreNonNegative(sample, func, specs, shape);
    TotalOfSome(live, sample, ChargeFn(func, specs, shape));
  }
}
