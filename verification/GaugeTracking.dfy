/** The exported gauges follow the WeightOptimizer until a fallback rewrites it; what a fallback
    leaves over stays. */
module GaugeTracking {
  import opened Floats
  import opened Ordering
  import opened Weights
  import opened Control
  import opened PodMetricsTable
  import opened Cycle
  import opened ServiceEntries
  import opened Fallback
  import opened System
  import opened History

  function Current(s: State): seq<Endpoint> {
    if s.optimisers == [] then [] else s.optimisers[|s.optimisers| - 1].endpoints
  }

  /** Every exported series belongs to an endpoint of the current WeightOptimizer, which lists
      no address twice. */
  ghost predicate Tracked(s: State) {
    NoDup(Ips(Current(s))) && s.gauges <= SeriesOf(Current(s))
  }

  lemma SeriesMember(endpoints: seq<Endpoint>, x: Series) returns (i: nat)
    requires x in SeriesOf(endpoints)
    ensures i < |endpoints| && x == (endpoints[i].name, endpoints[i].ip)
  {
    i :| 0 <= i < |endpoints| && x == (endpoints[i].name, endpoints[i].ip);
  }

  lemma SeriesOfStored(resolution: int, endpoints: seq<Endpoint>)
    requires resolution > 0
    ensures SeriesOf(Stored(resolution, endpoints)) == SeriesOf(endpoints)
    ensures Ips(Stored(resolution, endpoints)) == Ips(endpoints)
  {
    hide Truncated;
    var t := Stored(resolution, endpoints);
    forall i | 0 <= i < |t| ensures t[i].name == endpoints[i].name && t[i].ip == endpoints[i].ip {}
    forall x | x in SeriesOf(endpoints) ensures x in SeriesOf(t) {
      var i := SeriesMember(endpoints, x);
      assert x == (t[i].name, t[i].ip);
    }
    forall x | x in SeriesOf(t) ensures x in SeriesOf(endpoints) {
      var i := SeriesMember(t, x);
      assert x == (endpoints[i].name, endpoints[i].ip);
    }
  }

  lemma {:induction false} ByIpOfDistinct(endpoints: seq<Endpoint>, i: nat)
    requires NoDup(Ips(endpoints)) && i < |endpoints|
    ensures endpoints[i].ip in ByIp(endpoints) && ByIp(endpoints)[endpoints[i].ip] == endpoints[i]
  {
    var n := |endpoints| - 1;
    if i < n {
      var front := endpoints[..n];
      assert Ips(front) == Ips(endpoints)[..n];
      ByIpOfDistinct(front, i);
      assert Ips(endpoints)[i] != Ips(endpoints)[n];
    }
  }

  lemma CycledKeepsName(cfg: Config, readings: map<Address, Reading>, se: map<Address, Weight>,
                        stored: map<Address, Endpoint>, stamp: Address -> Time, a: Address)
    requires a in readings && a in se && a in stored
    ensures a in Cycled(cfg, readings, se, stored, stamp)
    ensures Cycled(cfg, readings, se, stored, stamp)[a].name == stored[a].name
  {
    hide NewWeight, MedianWeight, Recentre, Factor;
  }

  lemma ListedRecord(endpoints: seq<Endpoint>, m: map<Address, Endpoint>, a: Address) returns (j: nat)
    requires Lists(endpoints, m) && a in m
    ensures j < |endpoints| && endpoints[j].ip == a && endpoints[j] == m[a]
  {
    assert a in Ips(endpoints);
    j :| 0 <= j < |endpoints| && Ips(endpoints)[j] == a;
  }

  /** A series of a stored endpoint that is kept is also a series of the cycle's result. */
  lemma KeptSeries(cfg: Config, readings: map<Address, Reading>, se: map<Address, Weight>,
                   endpoints: seq<Endpoint>, stamp: Address -> Time, result: seq<Endpoint>, i: nat)
    requires Lists(result, Cycled(cfg, readings, se, ByIp(endpoints), stamp))
    requires NoDup(Ips(endpoints)) && i < |endpoints|
    requires endpoints[i].ip in readings && endpoints[i].ip in se
    ensures (endpoints[i].name, endpoints[i].ip) in SeriesOf(result)
  {
    hide Lists, Cycled, ByIp, NoDup;
    ByIpOfDistinct(endpoints, i);
    CycledKeepsName(cfg, readings, se, ByIp(endpoints), stamp, endpoints[i].ip);
    var j := ListedRecord(result, Cycled(cfg, readings, se, ByIp(endpoints), stamp), endpoints[i].ip);
    assert (result[j].name, result[j].ip) in SeriesOf(result);
  }

  lemma CleanedSeriesAreKept(cfg: Config, readings: map<Address, Reading>, se: map<Address, Weight>,
                             endpoints: seq<Endpoint>, stamp: Address -> Time, result: seq<Endpoint>,
                             gauges: set<Series>)
    requires Lists(result, Cycled(cfg, readings, se, ByIp(endpoints), stamp))
    requires NoDup(Ips(endpoints)) && gauges <= SeriesOf(endpoints)
    ensures gauges - Dropped(endpoints, readings.Keys * se.Keys) <= SeriesOf(result)
  {
    hide Lists, Cycled, ByIp;
    forall x | x in gauges && x !in Dropped(endpoints, readings.Keys * se.Keys) ensures x in SeriesOf(result) {
      var i := SeriesMember(endpoints, x);
      KeptSeries(cfg, readings, se, endpoints, stamp, result, i);
    }
  }

  lemma OptimiseTracks(settings: Settings, s: State, step: Step)
    requires Fits(settings) && step.Optimise? && OptimiseEnabled(settings, s, step) && Tracked(s)
    ensures Tracked(AfterOptimise(settings, s, step))
    ensures Committed(settings, s, step) ==>
              var t := AfterOptimise(settings, s, step); t.gauges == SeriesOf(Current(t))
  {
    hide Cycled, ByIp, SeriesOf, Dropped, Encodable, Stored, NoDup, WeightMap, Readings, Ips;
    if Committed(settings, s, step) {
      var readings := Readings(settings.cfg, step.samples);
      var se := WeightMap(s.entries[step.entry]);
      ReadingsKeys(settings.cfg, step.samples);
      CleanedSeriesAreKept(settings.cfg, readings, se, Current(s), step.stamp, step.result, s.gauges);
      SeriesOfStored(settings.resolution, step.result);
      ListsNoDup(step.result, Cycled(settings.cfg, readings, se, ByIp(Current(s)), step.stamp));
    }
  }

  lemma ListsNoDup(endpoints: seq<Endpoint>, m: map<Address, Endpoint>)
    requires Lists(endpoints, m)
    ensures NoDup(Ips(endpoints))
  {
  }

  /** No version of the history was written by a fallback. */
  ghost predicate NoReset(history: seq<Version>) {
    forall v :: 0 <= v < |history| ==> !history[v].origin.ByReset?
  }

  lemma FallBackIsReset(settings: Settings, s: State, step: Step)
    requires Fits(settings) && step.FallBack?
    ensures var t := Next(settings, s, step);
            t == s || (|t.optimisers| == |s.optimisers| + 1 && t.optimisers[|s.optimisers|].origin.ByReset?)
  {
    hide ShouldSkip, Stored, ResetRecords;
  }

  lemma NextTracks(settings: Settings, s: State, step: Step)
    requires Fits(settings) && Tracked(s) && NoReset(Next(settings, s, step).optimisers)
    ensures Tracked(Next(settings, s, step))
    ensures step.Optimise? && Committed(settings, s, step) ==>
              var t := Next(settings, s, step); t.gauges == SeriesOf(Current(t))
  {
    hide SeriesOf, NoDup, AfterOptimise, OptimiseEnabled, Merged, Overlaid, Changed, Encodable, ShouldSkip, Stored,
      ResetRecords;
    if step.Optimise? {
      if OptimiseEnabled(settings, s, step) {
        OptimiseTracks(settings, s, step);
      } else {
        assert !Committed(settings, s, step);
      }
    } else if step.FallBack? {
      FallBackIsReset(settings, s, step);
    } else if step.CreateOptimiser? {
      assert s.optimisers == [] ==> Current(Next(settings, s, step)) == Current(s);
    }
  }

  /** On every run in which no fallback was stored (skipped and rejected ones may occur, like any
      other failed write), every exported series belongs to an endpoint of the current
      WeightOptimizer. */
  lemma {:induction false} GaugesFollowOptimiser(settings: Settings, steps: seq<Step>)
    requires Fits(settings) && NoReset(Run(settings, steps).optimisers)
    ensures Tracked(Run(settings, steps))
  {
    if steps == [] {
      assert Current(Run(settings, steps)) == [];
    } else {
      hide Next, Tracked;
      HistoryGrows(settings, steps, |steps| - 1);
      GaugesFollowOptimiser(settings, steps[..|steps| - 1]);
      NextTracks(settings, Run(settings, steps[..|steps| - 1]), steps[|steps| - 1]);
    }
  }

  /** And right after a cycle whose write went through, the exported series are exactly those
      of the current endpoints. */
  lemma GaugesExactAfterCycle(settings: Settings, steps: seq<Step>, step: Step)
    requires Fits(settings) && NoReset(Run(settings, steps).optimisers)
    requires step.Optimise? && Committed(settings, Run(settings, steps), step)
    ensures var s := Run(settings, steps + [step]); s.gauges == SeriesOf(Current(s))
  {
    hide Next, Tracked, Committed, Run;
    RunSnoc(settings, steps, step);
    GaugesFollowOptimiser(settings, steps);
    NextAppends(settings, Run(settings, steps), step);
    NextTracks(settings, Run(settings, steps), step);
  }

  /* ---- After a reset ---- */

  /** A reset deletes no gauges, so afterwards the exported series belong to current endpoints
      exactly when each of them is a series of a reset pod. */
  lemma ResetTracksIff(settings: Settings, s: State, step: Step)
    requires settings.resolution > 0 && step.FallBack? && FallBackEnabled(s, step)
    requires !ShouldSkip(s.optimisers[step.optimiser].endpoints, step.first, step.second)
    requires step.accepted && IsLatest(s.optimisers, step.optimiser)
    ensures var t := AfterFallBack(settings, s, step);
            t.gauges <= SeriesOf(Current(t)) <==>
            forall x :: x in s.gauges ==>
              exists i :: 0 <= i < |step.pods| && x == (step.pods[i].name, step.pods[i].address)
  {
    hide ShouldSkip, Stored;
    var records := ResetRecords(step.pods, step.stamps);
    SeriesOfStored(settings.resolution, records);
    forall x ensures x in SeriesOf(records) <==>
      exists i :: 0 <= i < |step.pods| && x == (step.pods[i].name, step.pods[i].address)
    {
      if x in SeriesOf(records) {
        var i := SeriesMember(records, x);
        assert x == (step.pods[i].name, step.pods[i].address);
      }
      if i :| 0 <= i < |step.pods| && x == (step.pods[i].name, step.pods[i].address) {
        assert x == (records[i].name, records[i].ip);
      }
    }
  }

  /** No version from `base` on lists the series `x`. */
  ghost predicate Unlisted(s: State, base: nat, x: Series) {
    base < |s.optimisers| && forall v :: base <= v < |s.optimisers| ==> x !in SeriesOf(s.optimisers[v].endpoints)
  }

  /** The step reads no version before `base` and brings no pod of this name and address. */
  predicate Unrelated(step: Step, base: nat, x: Series) {
    match step
    case Optimise(_, optimiser, samples, _, _, _) =>
      base <= optimiser && !(x.1 in samples && samples[x.1].name == x.0)
    case FallBack(_, pods, _, _, _, _) => PodInfo(x.0, x.1) !in pods
    case _ => true
  }

  lemma NotOfReset(pods: seq<PodInfo>, stamps: seq<Time>, x: Series)
    requires |pods| == |stamps| && PodInfo(x.0, x.1) !in pods
    ensures x !in SeriesOf(ResetRecords(pods, stamps))
  {
    forall i | 0 <= i < |pods| ensures x != (pods[i].name, pods[i].address) {
      assert pods[i] in pods;
      assert pods[i] == PodInfo(pods[i].name, pods[i].address);
    }
  }

  lemma CycledName(cfg: Config, samples: map<Address, Sample>, se: map<Address, Weight>,
                   stored: map<Address, Endpoint>, stamp: Address -> Time, a: Address)
    requires a in Cycled(cfg, Readings(cfg, samples), se, stored, stamp)
    ensures a in stored || a in samples
    ensures Cycled(cfg, Readings(cfg, samples), se, stored, stamp)[a].name
            == if a in stored then stored[a].name else samples[a].name
  {
    hide MedianWeight, Recentre, NewWeight, Factor, MeanCpu, Measure;
  }

  /** A cycle lists only series that the version it read lists, or of pods it has samples of. */
  lemma SeriesOfCycle(cfg: Config, samples: map<Address, Sample>, se: map<Address, Weight>,
                      endpoints: seq<Endpoint>, stamp: Address -> Time, result: seq<Endpoint>, i: nat)
    requires Lists(result, Cycled(cfg, Readings(cfg, samples), se, ByIp(endpoints), stamp)) && i < |result|
    ensures var a, name := result[i].ip, result[i].name;
            (name, a) in SeriesOf(endpoints) || (a in samples && samples[a].name == name)
  {
    hide ByIp, Cycled, Readings;
    var a := result[i].ip;
    CycledName(cfg, samples, se, ByIp(endpoints), stamp, a);
    if a in ByIp(endpoints) {
      ByIpIsKeyed(endpoints);
      var e := ByIp(endpoints)[a];
      var j :| 0 <= j < |endpoints| && endpoints[j] == e;
      assert (e.name, a) == (endpoints[j].name, endpoints[j].ip);
    }
  }

  lemma NotOfCycle(cfg: Config, samples: map<Address, Sample>, se: map<Address, Weight>,
                   endpoints: seq<Endpoint>, stamp: Address -> Time, result: seq<Endpoint>, x: Series)
    requires Lists(result, Cycled(cfg, Readings(cfg, samples), se, ByIp(endpoints), stamp))
    requires x !in SeriesOf(endpoints) && !(x.1 in samples && samples[x.1].name == x.0)
    ensures x !in SeriesOf(result)
  {
    hide Lists, Cycled, ByIp;
    forall i | 0 <= i < |result| ensures x != (result[i].name, result[i].ip) {
      SeriesOfCycle(cfg, samples, se, endpoints, stamp, result, i);
    }
  }

  lemma NextLeaves(settings: Settings, s: State, step: Step, base: nat, x: Series)
    requires Fits(settings) && x in s.gauges && Unlisted(s, base, x) && Unrelated(step, base, x)
    ensures x in Next(settings, s, step).gauges && Unlisted(Next(settings, s, step), base, x)
  {
    hide SeriesOf, Cycled, ByIp, WeightMap, Readings, Stored, ResetRecords, ShouldSkip, Encodable, Merged, Overlaid,
      Changed, Lists;
    if step.Optimise? && OptimiseEnabled(settings, s, step) {
      var endpoints := s.optimisers[step.optimiser].endpoints;
      NotOfCycle(settings.cfg, step.samples, WeightMap(s.entries[step.entry]), endpoints, step.stamp, step.result, x);
      SeriesOfStored(settings.resolution, step.result);
      NotDropped(endpoints, step.samples.Keys * WeightMap(s.entries[step.entry]).Keys, x);
    } else if step.FallBack? && FallBackEnabled(s, step) {
      NotOfReset(step.pods, step.stamps, x);
      SeriesOfStored(settings.resolution, ResetRecords(step.pods, step.stamps));
    }
  }

  lemma NotDropped(endpoints: seq<Endpoint>, kept: set<Address>, x: Series)
    requires x !in SeriesOf(endpoints)
    ensures x !in Dropped(endpoints, kept)
  {
  }

  lemma {:induction false} StaysThrough(settings: Settings, steps: seq<Step>, more: seq<Step>, base: nat, x: Series)
    requires Fits(settings) && x in Run(settings, steps).gauges && Unlisted(Run(settings, steps), base, x)
    requires forall k :: 0 <= k < |more| ==> Unrelated(more[k], base, x)
    ensures x in Run(settings, steps + more).gauges && Unlisted(Run(settings, steps + more), base, x)
  {
    hide *;
    if more == [] {
      assert steps + more == steps;
    } else {
      var front, last := more[..|more| - 1], more[|more| - 1];
      StaysThrough(settings, steps, front, base, x);
      assert steps + more == steps + front + [last];
      RunSnoc(settings, steps + front, last);
      NextLeaves(settings, Run(settings, steps + front), last, base, x);
    }
  }

  /** A leftover stays for good. Once a series is exported that the current WeightOptimizer does
      not list, it is exported after any further steps, cycles and resets included, unless a
      step reads a version older than that one or the same pod comes back under its address. */
  lemma LeftoverStays(settings: Settings, steps: seq<Step>, more: seq<Step>, x: Series)
    requires Fits(settings)
    requires var s := Run(settings, steps);
             s.optimisers != [] && x in s.gauges && x !in SeriesOf(Current(s)) &&
             forall k :: 0 <= k < |more| ==> Unrelated(more[k], |s.optimisers| - 1, x)
    ensures x in Run(settings, steps + more).gauges
    ensures Unlisted(Run(settings, steps + more), |Run(settings, steps).optimisers| - 1, x)
  {
    hide Run;
    StaysThrough(settings, steps, more, |Run(settings, steps).optimisers| - 1, x);
  }
}
