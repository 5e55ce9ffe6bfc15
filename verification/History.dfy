/** The versions that a run leaves behind: none is ever lost, and each was written by one step. */
module History {
  import opened Cycle
  import opened Fallback
  import opened System

  /** A step appends at most one version, and only these steps append to the WeightOptimizer. */
  lemma NextAppends(settings: Settings, s: State, step: Step)
    requires Fits(settings)
    ensures var t := Next(settings, s, step);
            t.optimisers == s.optimisers ||
            (t.optimisers == s.optimisers + [t.optimisers[|s.optimisers|]] &&
             var x := t.optimisers[|s.optimisers|];
             match step
             case Optimise(_, _, _, _, result, _) =>
               Committed(settings, s, step) && x == Version(Stored(settings.resolution, result), s.now, ByCycle)
             case FallBack(_, pods, _, second, stamps, _) =>
               FallBackEnabled(s, step) &&
               x == Version(Stored(settings.resolution, ResetRecords(pods, stamps)), s.now, ByReset(second))
             case CreateOptimiser => s.optimisers == [] && x == Version([], s.now, Created)
             case _ => false)
  {
    hide OptimiseEnabled, Stored, Encodable, ShouldSkip, ResetRecords, GaugesAfter;
  }

  lemma RunSnoc(settings: Settings, steps: seq<Step>, step: Step)
    requires Fits(settings)
    ensures Run(settings, steps + [step]) == Next(settings, Run(settings, steps), step)
  {
    hide Next;
    assert (steps + [step])[..|steps|] == steps;
  }

  lemma {:induction false} HistoryGrows(settings: Settings, steps: seq<Step>, k: nat)
    requires Fits(settings) && k <= |steps|
    ensures Run(settings, steps[..k]).optimisers <= Run(settings, steps).optimisers
  {
    hide Next;
    var n := |steps| - 1;
    if k <= n {
      HistoryGrows(settings, steps[..n], k);
      assert steps[..n][..k] == steps[..k];
      NextAppends(settings, Run(settings, steps[..n]), steps[n]);
    } else {
      assert steps[..k] == steps;
    }
  }

  /** Step `k` of the run wrote version `v` of the WeightOptimizer. */
  ghost predicate Wrote(settings: Settings, steps: seq<Step>, k: nat, v: nat)
    requires Fits(settings)
  {
    k < |steps| &&
    |Run(settings, steps[..k]).optimisers| == v && |Run(settings, steps[..k + 1]).optimisers| == v + 1
  }

  lemma {:induction false} WriterOf(settings: Settings, steps: seq<Step>, v: nat) returns (k: nat)
    requires Fits(settings) && v < |Run(settings, steps).optimisers|
    ensures Wrote(settings, steps, k, v)
  {
    hide Next;
    var n := |steps| - 1;
    var front := steps[..n];
    NextAppends(settings, Run(settings, front), steps[n]);
    assert steps[..n + 1] == steps;
    if v < |Run(settings, front).optimisers| {
      k := WriterOf(settings, front, v);
      WriterKept(settings, front, steps[n], k, v);
      assert steps == front + [steps[n]];
    } else {
      k := n;
    }
  }

  lemma WriterKept(settings: Settings, steps: seq<Step>, step: Step, k: nat, v: nat)
    requires Fits(settings) && Wrote(settings, steps, k, v)
    ensures Wrote(settings, steps + [step], k, v)
  {
    hide Run;
    assert (steps + [step])[..k] == steps[..k] && (steps + [step])[..k + 1] == steps[..k + 1];
  }

  lemma WriterIsNotEarlier(settings: Settings, steps: seq<Step>, j: nat, k: nat, v: nat)
    requires Fits(settings) && Wrote(settings, steps, j, v) && Wrote(settings, steps, k, v)
    ensures k <= j
  {
    hide Run;
    if j < k {
      assert steps[..k][..j + 1] == steps[..j + 1];
      HistoryGrows(settings, steps[..k], j + 1);
      assert false;
    }
  }

  /** Every version has exactly one writer. */
  lemma EveryVersionHasOneWriter(settings: Settings, steps: seq<Step>, v: nat)
    requires Fits(settings) && v < |Run(settings, steps).optimisers|
    ensures exists k: nat :: Wrote(settings, steps, k, v)
    ensures forall j: nat, k: nat :: Wrote(settings, steps, j, v) && Wrote(settings, steps, k, v) ==> j == k
  {
    hide Wrote, Run;
    var w := WriterOf(settings, steps, v);
    forall j: nat, k: nat | Wrote(settings, steps, j, v) && Wrote(settings, steps, k, v) ensures j == k {
      WriterIsNotEarlier(settings, steps, j, k, v);
      WriterIsNotEarlier(settings, steps, k, j, v);
    }
  }

  /** And stays as it was written. */
  lemma VersionStays(settings: Settings, steps: seq<Step>, k: nat, v: nat)
    requires Fits(settings) && Wrote(settings, steps, k, v)
    ensures v < |Run(settings, steps).optimisers|
    ensures var s := Run(settings, steps[..k]);
            var t := Next(settings, s, steps[k]);
            |t.optimisers| == |s.optimisers| + 1 && t.optimisers[v] == Run(settings, steps).optimisers[v]
  {
    hide Next;
    HistoryGrows(settings, steps, k + 1);
    assert steps[..k + 1] == steps[..k] + [steps[k]];
    RunSnoc(settings, steps[..k], steps[k]);
  }

  /** Storing only truncates timestamps. */
  lemma {:induction false} ByIpOfStored(resolution: int, endpoints: seq<Endpoint>)
    requires resolution > 0
    ensures var m, t := ByIp(endpoints), ByIp(Stored(resolution, endpoints));
            t.Keys == m.Keys &&
            forall a :: a in m ==> t[a] == m[a].(lastOptimized := Truncated(resolution, m[a].lastOptimized))
  {
    hide Truncated;
    if endpoints != [] {
      var n := |endpoints| - 1;
      ByIpOfStored(resolution, endpoints[..n]);
      assert Stored(resolution, endpoints)[..n] == Stored(resolution, endpoints[..n]);
    }
  }
}
