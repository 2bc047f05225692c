/** The sliding window of demand snapshots, newest first. */
module Window {
  import opened Types
  import opened DemandSpec

  function Newest<T>(s: seq<T>, n: nat): seq<T> {
    if |s| <= n then s else s[..n]
  }

  /** The window after a tick whose read gave `sample`; a failed read leaves it alone. */
  function AfterTick(window: seq<seq<Sampled>>, windowLen: nat, sample: Option<seq<Sampled>>): seq<seq<Sampled>> {
    match sample
    case None => window
    case Some(snapshot) => Newest([snapshot] + window, windowLen)
  }

  /** Whether a tick goes on to compute and apply scale counts. */
  predicate ScalesAt(window: seq<seq<Sampled>>, windowLen: nat, sample: Option<seq<Sampled>>) {
    sample.Some? && |window| + 1 >= windowLen
  }

  /** The window after a history of ticks, oldest first. */
  function AfterTicks(windowLen: nat, history: seq<Option<seq<Sampled>>>): seq<seq<Sampled>> {
    if history == [] then []
    else AfterTick(AfterTicks(windowLen, history[..|history| - 1]), windowLen, history[|history| - 1])
  }

  /** The snapshots of the ticks that succeeded, newest first. */
  function Successes(history: seq<Option<seq<Sampled>>>): seq<seq<Sampled>> {
    if history == [] then []
    else
      var last := history[|history| - 1];
      (if last.Some? then [last.value] else []) + Successes(history[..|history| - 1])
  }

  /** Later successes come first. */
  lemma {:induction false} SuccessesInOrder(earlier: seq<Option<seq<Sampled>>>, later: seq<Option<seq<Sampled>>>)
    ensures Successes(earlier + later) == Successes(later) + Successes(earlier)
    ensures forall snapshot :: Successes([Some(snapshot)]) == [snapshot]
    ensures Successes([None]) == []
  {
    forall snapshot: seq<Sampled> ensures Successes([Some(snapshot)]) == [snapshot] {
      assert [Some(snapshot)][..0] == [];
    }
    if later == [] {
      assert earlier + later == earlier;
    } else {
      var n := |later| - 1;
      SuccessesInOrder(earlier, later[..n]);
      assert (earlier + later)[..|earlier + later| - 1] == earlier + later[..n];
    }
  }

  /** After any history the window is exactly the newest successful snapshots. */
  lemma {:induction false} WindowIsNewest(windowLen: nat, history: seq<Option<seq<Sampled>>>)
    ensures AfterTicks(windowLen, history) == Newest(Successes(history), windowLen)
  {
    if history != [] {
      var front, last := history[..|history| - 1], history[|history| - 1];
      WindowIsNewest(windowLen, front);
      if last.Some? {
        var all := Successes(front);
        assert Newest([last.value] + Newest(all, windowLen), windowLen) == Newest([last.value] + all, windowLen);
      } else {
        assert Successes(history) == Successes(front);
      }
    }
  }

  /** Scaling starts with the successful tick number `windowLen`, and from then on the average is the
      mean demand of the last `windowLen` snapshots divided by the threshold. */
  lemma ScalingUsesFullWindows(windowLen: nat, history: seq<Option<seq<Sampled>>>, sample: Option<seq<Sampled>>,
                               func: string, specs: seq<Spec>, shape: Shape, threshold: real)
    requires windowLen >= 1 && specs != [] && PositiveShape(shape) && threshold > 0.0
    ensures var all := Successes(history + [sample]);
      && (ScalesAt(AfterTicks(windowLen, history), windowLen, sample) <==> sample.Some? && |all| >= windowLen)
      && (|all| >= windowLen ==>
            Average(AfterTicks(windowLen, history + [sample]), func, specs, shape, threshold)
            == Mean(all[..windowLen], func, specs, shape) / threshold)
  {
    var ticks := history + [sample];
    assert ticks[..|history|] == history;
    WindowIsNewest(windowLen, history);
    WindowIsNewest(windowLen, ticks);
    var all := Successes(ticks);
    if |all| >= windowLen {
      assert all[..windowLen] == Newest(all, windowLen);
      AverageIsMeanByThreshold(all[..windowLen], func, specs, shape, threshold);
    }
  }
}
