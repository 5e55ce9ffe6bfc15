/** How often weights are reset: the timestamps that a reset leaves behind hold the next one
    back, through all later cycles. */
module Timing {
  import Arithmetic
  import opened Floats
  import opened Weights
  import opened Control
  import opened PodMetricsTable
  import opened Cycle
  import opened ServiceEntries
  import opened Fallback
  import opened System

  lemma TruncatedMonotone(resolution: int, t: Time, u: Time)
    requires resolution > 0 && t <= u
    ensures Truncated(resolution, t) <= t
    ensures Truncated(resolution, t) <= Truncated(resolution, u)
  {
    var p, q := t / resolution, u / resolution;
    assert Truncated(resolution, t) == p * resolution && Truncated(resolution, u) == q * resolution;
    if p > q {
      Arithmetic.DivMono(t, u, resolution);
    }
    Arithmetic.MulMono(p, q, resolution);
  }

  lemma TruncatedTwice(resolution: int, t: Time)
    requires resolution > 0
    ensures Truncated(resolution, Truncated(resolution, t)) == Truncated(resolution, t)
  {
    Arithmetic.DivMod(t, resolution);
    var p := t / resolution;
    Arithmetic.QuotientIs(Truncated(resolution, t), resolution, p, Truncated(resolution, t));
    Arithmetic.DivMod(Truncated(resolution, t), resolution);
  }

  ghost predicate NotBefore(endpoints: seq<Endpoint>, t: Time) {
    forall i :: 0 <= i < |endpoints| ==> t <= endpoints[i].lastOptimized
  }

  /** The decision times of the resets in the history, its write times, and the timestamps
      that its versions carry. */
  ghost predicate Ordered(history: seq<Version>, now: Time) {
    (forall v :: 0 <= v < |history| ==> history[v].written <= now) &&
    (forall v, w :: 0 <= v <= w < |history| ==> history[v].written <= history[w].written) &&
    (forall v :: 0 <= v < |history| && history[v].origin.ByReset? ==> history[v].origin.decided <= history[v].written)
  }

  ghost predicate Marked(resolution: int, history: seq<Version>)
    requires resolution > 0
  {
    forall v, w :: 0 <= v <= w < |history| && history[v].origin.ByReset? ==>
      NotBefore(history[w].endpoints, Truncated(resolution, history[v].origin.decided))
  }

  ghost predicate Spaced(resolution: int, history: seq<Version>)
    requires resolution > 0
  {
    forall v, w :: 0 <= v < w < |history| && history[v].origin.ByReset? && history[w].origin.ByReset? ==>
      history[w].origin.decided - Truncated(resolution, history[v].origin.decided) >= FIVE_MINUTES
  }

  ghost predicate WellTimed(resolution: int, s: State)
    requires resolution > 0
  {
    Ordered(s.optimisers, s.now) && Marked(resolution, s.optimisers) && Spaced(resolution, s.optimisers)
  }

  lemma StoredNotBefore(resolution: int, endpoints: seq<Endpoint>, t: Time)
    requires resolution > 0 && NotBefore(endpoints, Truncated(resolution, t))
    ensures NotBefore(Stored(resolution, endpoints), Truncated(resolution, t))
  {
    hide Truncated;
    TruncatedTwice(resolution, t);
    forall i | 0 <= i < |endpoints|
      ensures Truncated(resolution, t) <= Truncated(resolution, endpoints[i].lastOptimized)
    {
      TruncatedMonotone(resolution, Truncated(resolution, t), endpoints[i].lastOptimized);
    }
  }

  /** The records of a cycle are as old as the stored ones, or as the clock when it ran. */
  lemma CycleNotBefore(cfg: Config, readings: map<Address, Reading>, se: map<Address, Weight>,
                       endpoints: seq<Endpoint>, stamp: Address -> Time, result: seq<Endpoint>, t: Time)
    requires Lists(result, Cycled(cfg, readings, se, ByIp(endpoints), stamp))
    requires NotBefore(endpoints, t) && forall a :: t <= stamp(a)
    ensures NotBefore(result, t)
  {
    hide CycleWeights, ByIp;
    ByIpIsKeyed(endpoints);
    forall i | 0 <= i < |result| ensures t <= result[i].lastOptimized {
      var a := result[i].ip;
      if a in ByIp(endpoints) {
        var x := ByIp(endpoints)[a];
        var j :| 0 <= j < |endpoints| && endpoints[j] == x;
      }
    }
  }

  /** Appending a version whose timestamps respect all earlier resets. */
  lemma AppendVersion(resolution: int, history: seq<Version>, now: Time, version: Version)
    requires resolution > 0 && Ordered(history, now) && Marked(resolution, history) && Spaced(resolution, history)
    requires version.written == now
    requires forall v :: 0 <= v < |history| && history[v].origin.ByReset? ==>
               NotBefore(version.endpoints, Truncated(resolution, history[v].origin.decided)) &&
               (version.origin.ByReset? ==>
                 version.origin.decided - Truncated(resolution, history[v].origin.decided) >= FIVE_MINUTES)
    requires version.origin.ByReset? ==>
               version.origin.decided <= now &&
               NotBefore(version.endpoints, Truncated(resolution, version.origin.decided))
    ensures var h := history + [version];
            Ordered(h, now) && Marked(resolution, h) && Spaced(resolution, h)
  {
    hide Truncated, NotBefore;
  }

  lemma OptimiseKeepsTime(settings: Settings, s: State, step: Step)
    requires Fits(settings) && step.Optimise? && OptimiseEnabled(settings, s, step)
    requires WellTimed(settings.resolution, s)
    ensures WellTimed(settings.resolution, AfterOptimise(settings, s, step))
  {
    hide Truncated, NotBefore, Stored, Lists, Cycled, ByIp, Dropped, SeriesOf, Encodable, Readings, WeightMap;
    var h, res := s.optimisers, settings.resolution;
    if IsLatest(h, step.optimiser) {
      var base := h[step.optimiser];
      forall v | 0 <= v < |h| && h[v].origin.ByReset?
        ensures NotBefore(Stored(res, step.result), Truncated(res, h[v].origin.decided))
      {
        var t := Truncated(res, h[v].origin.decided);
        TruncatedMonotone(res, h[v].origin.decided, base.written);
        CycleNotBefore(settings.cfg, Readings(settings.cfg, step.samples), WeightMap(s.entries[step.entry]),
                       base.endpoints, step.stamp, step.result, t);
        StoredNotBefore(res, step.result, h[v].origin.decided);
      }
      AppendVersion(res, h, s.now, Version(Stored(res, step.result), s.now, ByCycle));
    }
  }

  lemma ResetNotBefore(resolution: int, pods: seq<PodInfo>, stamps: seq<Time>, t: Time)
    requires resolution > 0 && |pods| == |stamps| && forall i :: 0 <= i < |stamps| ==> t <= stamps[i]
    ensures NotBefore(Stored(resolution, ResetRecords(pods, stamps)), Truncated(resolution, t))
  {
    hide Truncated;
    TruncatedMonotone(resolution, t, t);
    forall i | 0 <= i < |pods| ensures Truncated(resolution, t) <= Truncated(resolution, stamps[i]) {
      TruncatedMonotone(resolution, t, stamps[i]);
    }
  }

  /** A fallback that is not skipped decides at least five minutes after any mark that all the
      timestamps it looks at respect. */
  lemma NotSkippedIsLate(endpoints: seq<Endpoint>, first: Time, second: Time, t: Time)
    requires !ShouldSkip(endpoints, first, second) && NotBefore(endpoints, t) && t <= first
    ensures second - t >= FIVE_MINUTES
  {
  }

  lemma FallBackKeepsTime(settings: Settings, s: State, step: Step)
    requires settings.resolution > 0 && step.FallBack? && FallBackEnabled(s, step)
    requires WellTimed(settings.resolution, s)
    ensures WellTimed(settings.resolution, AfterFallBack(settings, s, step))
  {
    hide Truncated, NotBefore, Stored, ShouldSkip, ResetRecords;
    var h, res := s.optimisers, settings.resolution;
    if IsLatest(h, step.optimiser) && !ShouldSkip(h[step.optimiser].endpoints, step.first, step.second) {
      var base, reset := h[step.optimiser], Stored(res, ResetRecords(step.pods, step.stamps));
      forall v | 0 <= v < |h| && h[v].origin.ByReset?
        ensures NotBefore(reset, Truncated(res, h[v].origin.decided))
        ensures step.second - Truncated(res, h[v].origin.decided) >= FIVE_MINUTES
      {
        TruncatedMonotone(res, h[v].origin.decided, base.written);
        ResetNotBefore(res, step.pods, step.stamps, h[v].origin.decided);
        NotSkippedIsLate(base.endpoints, step.first, step.second, Truncated(res, h[v].origin.decided));
      }
      ResetNotBefore(res, step.pods, step.stamps, step.second);
      AppendVersion(res, h, s.now, Version(reset, s.now, ByReset(step.second)));
    }
  }

  lemma NextKeepsTime(settings: Settings, s: State, step: Step)
    requires Fits(settings) && WellTimed(settings.resolution, s)
    ensures WellTimed(settings.resolution, Next(settings, s, step))
  {
    hide Truncated, NotBefore, AfterOptimise, AfterFallBack, OptimiseEnabled, FallBackEnabled, Merged, Overlaid,
      Changed;
    if step.Optimise? {
      if OptimiseEnabled(settings, s, step) { OptimiseKeepsTime(settings, s, step); }
    } else if step.FallBack? {
      if FallBackEnabled(s, step) { FallBackKeepsTime(settings, s, step); }
    }
  }

  lemma {:induction false} RunIsWellTimed(settings: Settings, steps: seq<Step>)
    requires Fits(settings)
    ensures WellTimed(settings.resolution, Run(settings, steps))
  {
    if steps != [] {
      hide Next, WellTimed;
      RunIsWellTimed(settings, steps[..|steps| - 1]);
      NextKeepsTime(settings, Run(settings, steps[..|steps| - 1]), steps[|steps| - 1]);
    }
  }

  /** In every run on a clock that does not go back, two stored resets of the WeightOptimizer
      are decided at least five minutes apart, counted from the earlier one truncated to the
      resolution of stored timestamps (a resolution of 1 truncates nothing). */
  lemma ResetsAreFiveMinutesApart(settings: Settings, steps: seq<Step>, v: nat, w: nat)
    requires Fits(settings)
    requires var h := Run(settings, steps).optimisers;
             v < w < |h| && h[v].origin.ByReset? && h[w].origin.ByReset?
    ensures var h := Run(settings, steps).optimisers;
            h[w].origin.decided - Truncated(settings.resolution, h[v].origin.decided) >= FIVE_MINUTES &&
            h[w].origin.decided - h[v].origin.decided > FIVE_MINUTES - settings.resolution
  {
    hide Run;
    RunIsWellTimed(settings, steps);
  }
}
