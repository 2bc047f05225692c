/** The demand that the auto-scaler computes, as a function of the sampled requests. */
module DemandSpec {
  import opened Types

  // ---------------------------------------------------------------- sums

  /** The sum of `f` over the sequence. */
  function Total<T>(s: seq<T>, f: T -> real): real {
    if s == [] then 0.0 else Total(s[..|s| - 1], f) + f(s[|s| - 1])
  }

  lemma TotalSnoc<T>(s: seq<T>, x: T, f: T -> real)
    ensures Total(s + [x], f) == Total(s, f) + f(x)
  {
    assert (s + [x])[..|s|] == s;
  }

  lemma {:induction false} TotalAppend<T>(a: seq<T>, b: seq<T>, f: T -> real)
    ensures Total(a + b, f) == Total(a, f) + Total(b, f)
  {
    if b == [] {
      assert a + b == a;
    } else {
      var front, last := b[..|b| - 1], b[|b| - 1];
      TotalAppend(a, front, f);
      TotalSnoc(a + front, last, f);
      assert a + b == a + front + [last];
    }
  }

  /** Take one occurrence of the last element of `s` out of its permutation `t`. */
  lemma MatchLast<T>(s: seq<T>, t: seq<T>) returns (k: nat)
    requires s != [] && multiset(s) == multiset(t)
    ensures k < |t| && t[k] == s[|s| - 1]
    ensures multiset(s[..|s| - 1]) == multiset(t[..k] + t[k + 1..])
  {
    var front, x := s[..|s| - 1], s[|s| - 1];
    assert s == front + [x];
    assert x in multiset(t);
    k :| 0 <= k < |t| && t[k] == x;
    assert t == t[..k] + [x] + t[k + 1..];
    assert multiset(t[..k] + t[k + 1..]) == multiset(t) - multiset{x};
    assert multiset(front) == multiset(s) - multiset{x};
  }

  lemma TotalAround<T>(a: seq<T>, x: T, b: seq<T>, f: T -> real)
    ensures Total(a + [x] + b, f) == Total(a + b, f) + f(x)
  {
    TotalAppend(a + [x], b, f);
    TotalSnoc(a, x, f);
    TotalAppend(a, b, f);
  }

  lemma SplitAt<T>(t: seq<T>, k: nat)
    requires k < |t|
    ensures t == t[..k] + [t[k]] + t[k + 1..]
  {}

  lemma TotalWithoutAt<T>(t: seq<T>, k: nat, f: T -> real)
    requires k < |t|
    ensures Total(t, f) == Total(t[..k] + t[k + 1..], f) + f(t[k])
  {
    SplitAt(t, k);
    TotalAround(t[..k], t[k], t[k + 1..], f);
  }

  /** A sum does not depend on the order of its terms. */
  lemma {:induction false} TotalOfPermutation<T>(s: seq<T>, t: seq<T>, f: T -> real)
    requires multiset(s) == multiset(t)
    ensures Total(s, f) == Total(t, f)
  {
    assert |multiset(s)| == |s| && |multiset(t)| == |t|;
    if s != [] {
      var k := MatchLast(s, t);
      TotalOfPermutation(s[..|s| - 1], t[..k] + t[k + 1..], f);
      TotalWithoutAt(t, k, f);
    }
  }

  lemma {:induction false} TotalDivided<T>(s: seq<T>, f: T -> real, g: T -> real, d: real)
    requires d != 0.0 && forall x | x in s :: g(x) == f(x) / d
    ensures Total(s, g) == Total(s, f) / d
  {
    if s != [] {
      TotalDivided(s[..|s| - 1], f, g, d);
      DivisionDistributes(Total(s[..|s| - 1], f), f(s[|s| - 1]), d);
    }
  }

  lemma DivisionDistributes(a: real, b: real, d: real)
    requires d != 0.0
    ensures (a + b) / d == a / d + b / d
  {}

  // ---------------------------------------------------------------- buckets

  function MaxReal(a: real, b: real): real { if a >= b then a else b }

  /** How many instances of the shape a request is worth. */
  function Ratio(req: Sampled, shape: Shape): real
    requires PositiveShape(shape)
  {
    MaxReal(req.cpu as real / shape.cpu as real, req.memory as real / shape.memory as real)
  }

  predicate FitsSpec(req: Sampled, spec: Spec) {
    Within(req.cpu, req.memory, spec.shape)
  }

  /** The first spec from `i` on that the request fits, or else the last spec. */
  function BucketFrom(req: Sampled, specs: seq<Spec>, i: nat): (k: nat)
    requires i <= |specs| && specs != []
    ensures k < |specs|
    decreases |specs| - i
  {
    if i == |specs| then |specs| - 1
    else if FitsSpec(req, specs[i]) then i
    else BucketFrom(req, specs, i + 1)
  }

  function Bucket(req: Sampled, specs: seq<Spec>): (k: nat)
    requires specs != []
    ensures k < |specs|
  {
    BucketFrom(req, specs, 0)
  }

  /** The specs as the auto-scaler sorts them, with distinct shapes. */
  ghost predicate Ascending(specs: seq<Spec>) {
    forall i, j | 0 <= i < j < |specs| :: ShapeBefore(specs[i].shape, specs[j].shape)
  }

  /** What computing a demand needs: some spec, and no division by zero. */
  ghost predicate Divisible(specs: seq<Spec>) {
    specs != [] && forall s | s in specs :: PositiveShape(s.shape)
  }

  /** What the specs of a function are once valid specs are sorted. */
  ghost predicate Usable(specs: seq<Spec>) {
    Divisible(specs) && Ascending(specs) && forall s | s in specs :: 0 <= s.minReplica <= s.maxReplica
  }

  lemma {:induction false} BucketFromIsFirst(req: Sampled, specs: seq<Spec>, i: nat)
    requires i <= |specs| && specs != []
    requires forall j | 0 <= j < i :: !FitsSpec(req, specs[j])
    ensures var k := BucketFrom(req, specs, i);
      if exists j :: 0 <= j < |specs| && FitsSpec(req, specs[j])
      then FitsSpec(req, specs[k]) && forall j | 0 <= j < k :: !FitsSpec(req, specs[j])
      else k == |specs| - 1
    decreases |specs| - i
  {
    if i < |specs| && !FitsSpec(req, specs[i]) {
      BucketFromIsFirst(req, specs, i + 1);
    }
  }

  /** A request is charged to the smallest spec that holds it, or to the largest spec if none does. */
  lemma BucketIsLeastFit(req: Sampled, specs: seq<Spec>)
    requires Usable(specs)
    ensures var k := Bucket(req, specs);
      if exists s :: s in specs && FitsSpec(req, s)
      then
        && FitsSpec(req, specs[k])
        && forall s | s in specs && FitsSpec(req, s) && s != specs[k] :: ShapeBefore(specs[k].shape, s.shape)
      else forall s | s in specs && s != specs[k] :: ShapeBefore(s.shape, specs[k].shape)
  {
    BucketFromIsFirst(req, specs, 0);
    if s :| s in specs && FitsSpec(req, s) {
      var j :| 0 <= j < |specs| && specs[j] == s;
    }
  }

  /** The same in numbers: the bucket has the least cpu, and then the least memory, of all specs with room;
      or the most of all specs if none has room. */
  lemma BucketInNumbers(req: Sampled, specs: seq<Spec>, s: Spec)
    requires Usable(specs) && s in specs
    ensures var b := specs[Bucket(req, specs)].shape;
      if exists fit :: fit in specs && req.cpu <= fit.shape.cpu && req.memory <= fit.shape.memory
      then
        && req.cpu <= b.cpu && req.memory <= b.memory
        && (req.cpu <= s.shape.cpu && req.memory <= s.shape.memory ==>
              b.cpu < s.shape.cpu || (b.cpu == s.shape.cpu && b.memory <= s.shape.memory))
      else s.shape.cpu < b.cpu || (s.shape.cpu == b.cpu && s.shape.memory <= b.memory)
  {
    BucketIsLeastFit(req, specs);
    assert forall fit | fit in specs ::
      FitsSpec(req, fit) <==> req.cpu <= fit.shape.cpu && req.memory <= fit.shape.memory;
  }

  /** The request counts towards the demand for this function and shape. */
  predicate Charged(req: Sampled, func: string, specs: seq<Spec>, shape: Shape)
    requires specs != []
  {
    req.func == func && specs[Bucket(req, specs)].shape == shape
  }

  /** Every request of a function is charged to exactly one of its specs. */
  lemma ChargedExactlyOnce(req: Sampled, specs: seq<Spec>, k: nat)
    requires Usable(specs) && k < |specs|
    ensures Charged(req, req.func, specs, specs[k].shape) <==> k == Bucket(req, specs)
  {}

  function ChargeFn(func: string, specs: seq<Spec>, shape: Shape): Sampled -> real
    requires specs != [] && PositiveShape(shape)
  {
    (req: Sampled) => if Charged(req, func, specs, shape) then Ratio(req, shape) else 0.0
  }

  /** The demand of one snapshot for instances of the shape. */
  function Demand(snapshot: seq<Sampled>, func: string, specs: seq<Spec>, shape: Shape): real
    requires specs != [] && PositiveShape(shape)
  {
    Total(snapshot, ChargeFn(func, specs, shape))
  }

  function DemandFn(func: string, specs: seq<Spec>, shape: Shape): seq<Sampled> -> real
    requires specs != [] && PositiveShape(shape)
  {
    (snapshot: seq<Sampled>) => Demand(snapshot, func, specs, shape)
  }

  /** The share of one snapshot in the average over a window. */
  function ShareFn(func: string, specs: seq<Spec>, shape: Shape, d: real): seq<Sampled> -> real
    requires specs != [] && PositiveShape(shape) && d != 0.0
  {
    (snapshot: seq<Sampled>) => Demand(snapshot, func, specs, shape) / d
  }

  lemma PositiveProduct(n: real, t: real)
    requires n > 0.0 && t > 0.0
    ensures n * t > 0.0
  {}

  /** What every demand is divided by: the length of the window times the threshold. */
  function Divisor(length: nat, threshold: real): (d: real)
    requires length > 0 && threshold > 0.0
    ensures d > 0.0
  {
    PositiveProduct(length as real, threshold);
    length as real * threshold
  }

  function Average(window: seq<seq<Sampled>>, func: string, specs: seq<Spec>, shape: Shape, threshold: real): real
    requires specs != [] && PositiveShape(shape) && threshold > 0.0
  {
    if window == [] then 0.0
    else Total(window, ShareFn(func, specs, shape, Divisor(|window|, threshold)))
  }

  function Mean(window: seq<seq<Sampled>>, func: string, specs: seq<Spec>, shape: Shape): real
    requires specs != [] && PositiveShape(shape) && window != []
  {
    Total(window, DemandFn(func, specs, shape)) / |window| as real
  }

  /** Rounding half away from zero. */
  function Round(x: real): int {
    if x >= 0.0 then (x + 0.5).Floor else -((0.5 - x).Floor)
  }

  function Clamp(lo: int, hi: int, x: int): int {
    var raised := if lo >= x then lo else x;
    if hi <= raised then hi else raised
  }

  /** The replica count the auto-scaler aims at for a spec. */
  function Target(window: seq<seq<Sampled>>, func: string, specs: seq<Spec>, spec: Spec, threshold: real): int
    requires specs != [] && PositiveShape(spec.shape) && threshold > 0.0
  {
    Clamp(spec.minReplica, spec.maxReplica, Round(Average(window, func, specs, spec.shape, threshold)))
  }

  lemma TargetWithinLimits(window: seq<seq<Sampled>>, func: string, specs: seq<Spec>, spec: Spec, threshold: real)
    requires Usable(specs) && spec in specs && threshold > 0.0
    ensures spec.minReplica <= Target(window, func, specs, spec, threshold) <= spec.maxReplica
  {}

  // ---------------------------------------------------------------- demand covers load

  function CpuFn(func: string, specs: seq<Spec>, shape: Shape): Sampled -> real
    requires specs != []
  {
    (req: Sampled) => if Charged(req, func, specs, shape) then req.cpu as real else 0.0
  }

  function MemoryFn(func: string, specs: seq<Spec>, shape: Shape): Sampled -> real
    requires specs != []
  {
    (req: Sampled) => if Charged(req, func, specs, shape) then req.memory as real else 0.0
  }

  lemma RatioCovers(req: Sampled, shape: Shape)
    requires PositiveShape(shape)
    ensures shape.cpu as real * Ratio(req, shape) >= req.cpu as real
    ensures shape.memory as real * Ratio(req, shape) >= req.memory as real
    ensures req.cpu >= 0 && req.memory >= 0 ==>
      Ratio(req, shape) <= req.cpu as real / shape.cpu as real + req.memory as real / shape.memory as real
  {
    var c, m := req.cpu as real / shape.cpu as real, req.memory as real / shape.memory as real;
    assert shape.cpu as real * c == req.cpu as real && shape.memory as real * m == req.memory as real;
    MulMonotone(shape.cpu as real, c, Ratio(req, shape));
    MulMonotone(shape.memory as real, m, Ratio(req, shape));
    if req.cpu >= 0 && req.memory >= 0 {
      NonNegativeQuotient(req.cpu as real, shape.cpu as real);
      NonNegativeQuotient(req.memory as real, shape.memory as real);
    }
  }

  lemma MulMonotone(c: real, a: real, b: real)
    requires c > 0.0 && a <= b
    ensures c * a <= c * b
  {}

  lemma NonNegativeQuotient(a: real, b: real)
    requires a >= 0.0 && b > 0.0
    ensures a / b >= 0.0
  {}

  /** `a` instances with `c` of a resource each hold a load of `u`. */
  predicate Covers(c: real, a: real, u: real) { c * a >= u }

  lemma CoversSum(c: real, a: real, b: real, u: real, v: real)
    requires Covers(c, a, u) && Covers(c, b, v)
    ensures Covers(c, a + b, u + v)
  {
    assert c * (a + b) == c * a + c * b;
  }

  lemma {:induction false} CoversTotal<T>(s: seq<T>, f: T -> real, g: T -> real, c: real)
    requires forall x | x in s :: Covers(c, f(x), g(x))
    ensures Covers(c, Total(s, f), Total(s, g))
  {
    if s != [] {
      var front, last := s[..|s| - 1], s[|s| - 1];
      CoversTotal(front, f, g, c);
      CoversSum(c, Total(front, f), f(last), Total(front, g), g(last));
    }
  }

  lemma ChargeCovers(req: Sampled, func: string, specs: seq<Spec>, shape: Shape)
    requires specs != [] && PositiveShape(shape)
    ensures Covers(shape.cpu as real, ChargeFn(func, specs, shape)(req), CpuFn(func, specs, shape)(req))
    ensures Covers(shape.memory as real, ChargeFn(func, specs, shape)(req), MemoryFn(func, specs, shape)(req))
  {
    RatioCovers(req, shape);
  }

  lemma DemandCovers(snapshot: seq<Sampled>, func: string, specs: seq<Spec>, shape: Shape)
    requires specs != [] && PositiveShape(shape)
    ensures Covers(shape.cpu as real, Demand(snapshot, func, specs, shape), Total(snapshot, CpuFn(func, specs, shape)))
    ensures Covers(shape.memory as real, Demand(snapshot, func, specs, shape),
                   Total(snapshot, MemoryFn(func, specs, shape)))
  {
    var charge, cpu, memory := ChargeFn(func, specs, shape), CpuFn(func, specs, shape), MemoryFn(func, specs, shape);
    forall req
      ensures Covers(shape.cpu as real, charge(req), cpu(req)) && Covers(shape.memory as real, charge(req), memory(req))
    {
      ChargeCovers(req, func, specs, shape);
    }
    CoversTotal(snapshot, charge, cpu, shape.cpu as real);
    CoversTotal(snapshot, charge, memory, shape.memory as real);
  }

  /** As many instances as are demanded can hold the cpu, and also the memory, of everything that is
      charged to them. */
  lemma DemandCoversLoad(snapshot: seq<Sampled>, func: string, specs: seq<Spec>, shape: Shape)
    requires specs != [] && PositiveShape(shape)
    ensures shape.cpu as real * Demand(snapshot, func, specs, shape) >= Total(snapshot, CpuFn(func, specs, shape))
    ensures shape.memory as real * Demand(snapshot, func, specs, shape) >= Total(snapshot, MemoryFn(func, specs, shape))
  {
    DemandCovers(snapshot, func, specs, shape);
  }

  /** And no more is demanded than the two resources would need on separate instances. */
  lemma {:induction false} DemandIsAtMostBothLoads(snapshot: seq<Sampled>, func: string, specs: seq<Spec>, shape: Shape)
    requires specs != [] && PositiveShape(shape)
    requires forall req | req in snapshot :: req.cpu >= 0 && req.memory >= 0
    ensures Demand(snapshot, func, specs, shape)
         <= Total(snapshot, CpuFn(func, specs, shape)) / shape.cpu as real
            + Total(snapshot, MemoryFn(func, specs, shape)) / shape.memory as real
    ensures Demand(snapshot, func, specs, shape) >= 0.0
  {
    if snapshot != [] {
      var front, req := snapshot[..|snapshot| - 1], snapshot[|snapshot| - 1];
      DemandIsAtMostBothLoads(front, func, specs, shape);
      RatioCovers(req, shape);
      NonNegativeQuotient(req.cpu as real, shape.cpu as real);
      DivisionDistributes(Total(front, CpuFn(func, specs, shape)), CpuFn(func, specs, shape)(req), shape.cpu as real);
      DivisionDistributes(Total(front, MemoryFn(func, specs, shape)), MemoryFn(func, specs, shape)(req),
                          shape.memory as real);
    }
  }

  // ---------------------------------------------------------------- demand is the least cover

  /** `q` instances of the shape hold the cpu and the memory of the request. */
  predicate Holds(q: real, shape: Shape, req: Sampled) {
    req.cpu as real <= q * shape.cpu as real && req.memory as real <= q * shape.memory as real
  }

  lemma QuotientIsLeast(a: real, b: real, q: real)
    requires b > 0.0
    ensures a <= q * b <==> a / b <= q
  {
    var r := a / b;
    assert r * b == a;
    if r <= q {
      assert (q - r) * b >= 0.0;
    } else {
      assert (r - q) * b > 0.0;
    }
  }

  lemma QuotientIsMost(a: real, b: real, q: real)
    requires b > 0.0
    ensures a >= q * b <==> a / b >= q
  {
    var r := a / b;
    assert r * b == a;
    if r >= q {
      assert (r - q) * b >= 0.0;
    } else {
      assert (q - r) * b > 0.0;
    }
  }

  /** A request is worth exactly the least number of instances that hold it. */
  lemma RatioIsLeastHold(req: Sampled, shape: Shape, q: real)
    requires PositiveShape(shape)
    ensures Holds(q, shape, req) <==> Ratio(req, shape) <= q
  {
    QuotientIsLeast(req.cpu as real, shape.cpu as real, q);
    QuotientIsLeast(req.memory as real, shape.memory as real, q);
  }

  lemma {:induction false} TotalMonotone<T>(s: seq<T>, f: T -> real, g: T -> real)
    requires forall x | x in s :: f(x) <= g(x)
    ensures Total(s, f) <= Total(s, g)
  {
    if s != [] {
      TotalMonotone(s[..|s| - 1], f, g);
      assert s[|s| - 1] in s;
    }
  }

  /** Any way to give each charged request enough instances to hold it, and the others none or more, adds
      up to at least the demand; and giving each the ratio is such a way.  So the demand is the least. */
  lemma DemandIsLeast(snapshot: seq<Sampled>, func: string, specs: seq<Spec>, shape: Shape, g: Sampled -> real)
    requires specs != [] && PositiveShape(shape)
    requires forall req | req in snapshot ::
      if Charged(req, func, specs, shape) then Holds(g(req), shape, req) else g(req) >= 0.0
    ensures Demand(snapshot, func, specs, shape) <= Total(snapshot, g)
  {
    var charge := ChargeFn(func, specs, shape);
    forall req | req in snapshot ensures charge(req) <= g(req) {
      ChargeIsLeast(req, func, specs, shape, g(req));
    }
    TotalMonotone(snapshot, charge, g);
  }

  lemma ChargeIsLeast(req: Sampled, func: string, specs: seq<Spec>, shape: Shape, q: real)
    requires specs != [] && PositiveShape(shape)
    requires if Charged(req, func, specs, shape) then Holds(q, shape, req) else q >= 0.0
    ensures ChargeFn(func, specs, shape)(req) <= q
  {
    RatioIsLeastHold(req, shape, q);
  }

  /** Only requests of the function are charged, each to the shape of its bucket. */
  lemma ChargeOfRequest(req: Sampled, func: string, specs: seq<Spec>, shape: Shape)
    requires specs != [] && PositiveShape(shape)
    ensures ChargeFn(func, specs, shape)(req)
      == if req.func == func && specs[Bucket(req, specs)].shape == shape then Ratio(req, shape) else 0.0
  {}

  // ---------------------------------------------------------------- order and monotonicity

  /** Reordering the requests inside a snapshot changes no demand. */
  lemma DemandIgnoresRequestOrder(a: seq<Sampled>, b: seq<Sampled>, func: string, specs: seq<Spec>, shape: Shape)
    requires multiset(a) == multiset(b) && specs != [] && PositiveShape(shape)
    ensures Demand(a, func, specs, shape) == Demand(b, func, specs, shape)
  {
    TotalOfPermutation(a, b, ChargeFn(func, specs, shape));
  }

  /** Reordering the snapshots of the window changes no average. */
  lemma AverageIgnoresSnapshotOrder(a: seq<seq<Sampled>>, b: seq<seq<Sampled>>, func: string, specs: seq<Spec>,
                                    shape: Shape, threshold: real)
    requires multiset(a) == multiset(b) && specs != [] && PositiveShape(shape) && threshold > 0.0
    ensures Average(a, func, specs, shape, threshold) == Average(b, func, specs, shape, threshold)
  {
    assert |multiset(a)| == |a| && |multiset(b)| == |b|;
    if a != [] {
      TotalOfPermutation(a, b, ShareFn(func, specs, shape, Divisor(|a|, threshold)));
    }
  }

  /** Replacing the snapshot at `i` moves a sum by the difference of the two terms. */
  lemma TotalOfUpdate<T>(s: seq<T>, i: nat, x: T, f: T -> real)
    requires i < |s|
    ensures Total(s[i := x], f) == Total(s, f) - f(s[i]) + f(x)
  {
    var a, b := s[..i], s[i + 1..];
    assert s == a + [s[i]] + b && s[i := x] == a + [x] + b;
    TotalAround(a, s[i], b, f);
    TotalAround(a, x, b, f);
  }

  /** Reordering the requests of a snapshot changes no target. */
  lemma TargetIgnoresRequestOrder(window: seq<seq<Sampled>>, i: nat, b: seq<Sampled>, func: string, specs: seq<Spec>,
                                  spec: Spec, threshold: real)
    requires i < |window| && multiset(window[i]) == multiset(b)
    requires specs != [] && PositiveShape(spec.shape) && threshold > 0.0
    ensures Target(window[i := b], func, specs, spec, threshold) == Target(window, func, specs, spec, threshold)
  {
    DemandIgnoresRequestOrder(window[i], b, func, specs, spec.shape);
    TotalOfUpdate(window, i, b, ShareFn(func, specs, spec.shape, Divisor(|window|, threshold)));
  }

  lemma TargetIgnoresSnapshotOrder(a: seq<seq<Sampled>>, b: seq<seq<Sampled>>, func: string, specs: seq<Spec>,
                                   spec: Spec, threshold: real)
    requires multiset(a) == multiset(b) && specs != [] && PositiveShape(spec.shape) && threshold > 0.0
    ensures Target(a, func, specs, spec, threshold) == Target(b, func, specs, spec, threshold)
  {
    AverageIgnoresSnapshotOrder(a, b, func, specs, spec.shape, threshold);
  }

  lemma AverageWithOneMore(window: seq<seq<Sampled>>, i: nat, req: Sampled, func: string, specs: seq<Spec>,
                           shape: Shape, threshold: real)
    requires i < |window| && specs != [] && PositiveShape(shape) && threshold > 0.0
    ensures Average(window[i := window[i] + [req]], func, specs, shape, threshold)
         == Average(window, func, specs, shape, threshold)
            + ChargeFn(func, specs, shape)(req) / Divisor(|window|, threshold)
  {
    var d := Divisor(|window|, threshold);
    var more := window[i] + [req];
    TotalOfUpdate(window, i, more, ShareFn(func, specs, shape, d));
    TotalSnoc(window[i], req, ChargeFn(func, specs, shape));
    assert Demand(more, func, specs, shape)
        == Demand(window[i], func, specs, shape) + ChargeFn(func, specs, shape)(req);
    DivisionDistributes(Demand(window[i], func, specs, shape), ChargeFn(func, specs, shape)(req), d);
  }

  lemma RoundIsMonotone(a: real, b: real)
    requires a <= b
    ensures Round(a) <= Round(b)
  {}

  /** One more request in any snapshot of the window lowers no target, and leaves all targets alone
      except that of the one spec it is charged to. */
  lemma OneMoreRequest(window: seq<seq<Sampled>>, i: nat, req: Sampled, func: string, specs: seq<Spec>, k: nat,
                       threshold: real)
    requires Usable(specs) && k < |specs| && i < |window| && threshold > 0.0
    requires req.cpu >= 0 && req.memory >= 0
    ensures var window' := window[i := window[i] + [req]];
      && Target(window, func, specs, specs[k], threshold) <= Target(window', func, specs, specs[k], threshold)
      && (req.func != func || k != Bucket(req, specs) ==>
            Target(window', func, specs, specs[k], threshold) == Target(window, func, specs, specs[k], threshold))
  {
    var shape := specs[k].shape;
    AverageWithOneMore(window, i, req, func, specs, shape, threshold);
    if Charged(req, func, specs, shape) {
      NonNegativeQuotient(req.cpu as real, shape.cpu as real);
      NonNegativeQuotient(Ratio(req, shape), Divisor(|window|, threshold));
    } else {
      assert 0.0 / Divisor(|window|, threshold) == 0.0;
    }
    RoundIsMonotone(Average(window, func, specs, shape, threshold),
                    Average(window[i := window[i] + [req]], func, specs, shape, threshold));
  }

  // ---------------------------------------------------------------- rounding

  lemma AverageIsMeanByThreshold(window: seq<seq<Sampled>>, func: string, specs: seq<Spec>, shape: Shape,
                                 threshold: real)
    requires window != [] && specs != [] && PositiveShape(shape) && threshold > 0.0
    ensures Average(window, func, specs, shape, threshold) == Mean(window, func, specs, shape) / threshold
    ensures Average(window, func, specs, shape, threshold) * threshold == Mean(window, func, specs, shape)
  {
    var n, sum := |window| as real, Total(window, DemandFn(func, specs, shape));
    var d := Divisor(|window|, threshold);
    TotalDivided(window, DemandFn(func, specs, shape), ShareFn(func, specs, shape, d), d);
    DivideTwice(sum, n, threshold);
  }

  lemma DivideTwice(a: real, n: real, t: real)
    requires n > 0.0 && t > 0.0
    ensures a / (n * t) == (a / n) / t
    ensures (a / n) / t * t == a / n
  {
    var q := (a / n) / t;
    assert q * t == a / n;
    assert q * t * n == a;
    assert q * (n * t) == a;
  }

  /** The mean lies between any bounds on the single demands. */
  lemma MeanWithinDemands(window: seq<seq<Sampled>>, func: string, specs: seq<Spec>, shape: Shape, lo: real, hi: real)
    requires window != [] && specs != [] && PositiveShape(shape)
    requires forall snapshot | snapshot in window :: lo <= Demand(snapshot, func, specs, shape) <= hi
    ensures lo <= Mean(window, func, specs, shape) <= hi
  {
    TotalWithin(window, DemandFn(func, specs, shape), lo, hi);
    var sum, n := Total(window, DemandFn(func, specs, shape)), |window| as real;
    QuotientWithin(sum, n, lo, hi);
  }

  lemma {:induction false} TotalWithin<T>(s: seq<T>, f: T -> real, lo: real, hi: real)
    requires forall x | x in s :: lo <= f(x) <= hi
    ensures lo * |s| as real <= Total(s, f) <= hi * |s| as real
  {
    if s != [] {
      TotalWithin(s[..|s| - 1], f, lo, hi);
      assert s[|s| - 1] in s;
    }
  }

  lemma QuotientWithin(sum: real, n: real, lo: real, hi: real)
    requires n > 0.0 && lo * n <= sum <= hi * n
    ensures lo <= sum / n <= hi
  {
    var q := sum / n;
    assert q * n == sum;
    assert (q - lo) * n >= 0.0 && (hi - q) * n >= 0.0;
  }

  function Abs(x: real): real { if x >= 0.0 then x else -x }

  lemma RoundIsNear(x: real)
    ensures Abs(Round(x) as real - x) <= 0.5
  {}

  /** Rounding to the nearest number, a tie away from zero. */
  lemma RoundIsNearest(x: real, n: int)
    ensures x >= 0.0 ==> (Round(x) == n <==> n as real - 0.5 <= x < n as real + 0.5)
    ensures x < 0.0 ==> (Round(x) == n <==> n as real - 0.5 < x <= n as real + 0.5)
  {}

  /** The target is the number within the limits that is nearest to the rounded average. */
  lemma TargetIsNearest(window: seq<seq<Sampled>>, func: string, specs: seq<Spec>, spec: Spec, threshold: real, v: int)
    requires Usable(specs) && spec in specs && threshold > 0.0
    requires spec.minReplica <= v <= spec.maxReplica && v != Target(window, func, specs, spec, threshold)
    ensures var wanted := Round(Average(window, func, specs, spec.shape, threshold));
      Distance(Target(window, func, specs, spec, threshold), wanted) < Distance(v, wanted)
  {}

  function Distance(a: int, b: int): nat { if a >= b then a - b else b - a }

  /** Where the limits do not interfere, the target serves the mean demand of the window to within
      half a threshold. */
  lemma TargetTracksMean(window: seq<seq<Sampled>>, func: string, specs: seq<Spec>, spec: Spec, threshold: real)
    requires window != [] && Usable(specs) && spec in specs && threshold > 0.0
    requires spec.minReplica <= Round(Average(window, func, specs, spec.shape, threshold)) <= spec.maxReplica
    ensures var target := Target(window, func, specs, spec, threshold);
      Abs(target as real * threshold - Mean(window, func, specs, spec.shape)) <= threshold / 2.0
  {
    var avg := Average(window, func, specs, spec.shape, threshold);
    AverageIsMeanByThreshold(window, func, specs, spec.shape, threshold);
    RoundIsNear(avg);
    var target := Target(window, func, specs, spec, threshold) as real;
    HalfOfThreshold(target, Mean(window, func, specs, spec.shape), threshold);
  }

  lemma HalfOfThreshold(n: real, mean: real, t: real)
    requires t > 0.0 && n - 0.5 <= mean / t <= n + 0.5
    ensures n * t - t / 2.0 <= mean <= n * t + t / 2.0
  {
    QuotientIsLeast(mean, t, n + 0.5);
    QuotientIsMost(mean, t, n - 0.5);
    HalfMore(n, t);
  }

  lemma HalfMore(n: real, t: real)
    ensures (n + 0.5) * t == n * t + t / 2.0
    ensures (n - 0.5) * t == n * t - t / 2.0
  {}

  /** A window of equal demands `d` is answered with `d / threshold`, rounded and clamped; so where the
      limits do not interfere, the target is within one half of it. */
  lemma ConstantDemand(window: seq<seq<Sampled>>, func: string, specs: seq<Spec>, spec: Spec, threshold: real, d: real)
    requires window != [] && specs != [] && PositiveShape(spec.shape) && threshold > 0.0
    requires forall snapshot | snapshot in window :: Demand(snapshot, func, specs, spec.shape) == d
    ensures var target := Target(window, func, specs, spec, threshold);
      && target == Clamp(spec.minReplica, spec.maxReplica, Round(d / threshold))
      && (spec.minReplica <= Round(d / threshold) <= spec.maxReplica ==> Abs(target as real - d / threshold) <= 0.5)
  {
    MeanWithinDemands(window, func, specs, spec.shape, d, d);
    AverageIsMeanByThreshold(window, func, specs, spec.shape, threshold);
    RoundIsNear(d / threshold);
  }
}
