/** Runs, possible under every configuration, in which things go wrong: a cycle that cannot be
    stored, and a series that a reset leaves behind for good. */
module Witnesses {
  import Arithmetic
  import opened Floats
  import opened Ordering
  import opened Weights
  import opened Control
  import opened ControlLaw
  import opened Cycle
  import opened CycleLaws
  import opened ServiceEntries
  import opened Fallback
  import opened System
  import opened History
  import opened Safety
  import opened GaugeTracking

  /** A service with one endpoint, before its first cycle. */
  function Begin(a: Address): seq<Step> { [Churn([a]), CreateEntries(0), CreateOptimiser] }

  function Begun(settings: Settings, a: Address): State {
    State([[a]], [InitialEntries([a])], [Version([], settings.start, Created)], {}, settings.start)
  }

  lemma BeginRuns(settings: Settings, a: Address)
    requires Fits(settings) && settings.capacity > 0
    ensures Run(settings, Begin(a)) == Begun(settings, a)
  {
    hide Next, Run, InitialEntries;
    RunNothing(settings);
    RunSnoc(settings, [], Churn([a]));
    RunSnoc(settings, [Churn([a])], CreateEntries(0));
    RunSnoc(settings, [Churn([a]), CreateEntries(0)], CreateOptimiser);
    assert [] + [Churn([a])] == [Churn([a])];
    assert [Churn([a])] + [CreateEntries(0)] == [Churn([a]), CreateEntries(0)];
    assert [Churn([a]), CreateEntries(0)] + [CreateOptimiser] == Begin(a);
    FirstSteps(settings, a);
  }

  lemma RunNothing(settings: Settings)
    requires Fits(settings)
    ensures Run(settings, []) == Init(settings)
  {
  }

  lemma FirstSteps(settings: Settings, a: Address)
    requires Fits(settings) && settings.capacity > 0
    ensures Next(settings, Next(settings, Next(settings, Init(settings), Churn([a])), CreateEntries(0)), CreateOptimiser)
            == Begun(settings, a)
  {
    hide InitialEntries;
  }

  lemma InitialMap(a: Address)
    ensures |InitialEntries([a])| == 1 && WeightMap(InitialEntries([a])).Keys == {a}
  {
  }

  /** The first cycle of that service, on one sample. */
  lemma FirstCycle(settings: Settings, a: Address, sample: Sample) returns (step: Step)
    requires Fits(settings)
    ensures step.Optimise? && step.accepted && step.samples == map[a := sample] && |step.result| == 1
    ensures OptimiseEnabled(settings, Begun(settings, a), step) && IsLatest(Begun(settings, a).optimisers, step.optimiser)
    ensures step.samples.Keys * WeightMap(Begun(settings, a).entries[step.entry]).Keys == {a}
  {
    hide InitialEntries, WeightMap, Readings, Cycled;
    InitialMap(a);
    var s, samples, stamp := Begun(settings, a), map[a := sample], (b: Address) => settings.start;
    var result := ResultExists(settings.cfg, Readings(settings.cfg, samples), WeightMap(s.entries[0]), map[], stamp);
    step := Optimise(0, 0, samples, stamp, result, true);
    assert s.entries[0] == InitialEntries([a]) && ByIp(s.optimisers[0].endpoints) == map[];
    assert a in samples;
    ResultKeys(settings, s, step);
    OrderIsMultisetOfKeys(Ips(result), {a});
  }

  /** A cycle on a pod without a CPU time: it keeps the endpoint, its multiplier is 1, and its
      accepted write on the latest version stores nothing. */
  lemma SomeCycleIsNotStored(settings: Settings, a: Address, name: string) returns (step: Step)
    requires Fits(settings) && settings.capacity > 0
    ensures step.Optimise? && step.accepted && step.samples == map[a := Sample(name, ZERO)] && step.result != []
    ensures var s := Run(settings, Begin(a));
            OptimiseEnabled(settings, s, step) && IsLatest(s.optimisers, step.optimiser) &&
            Multipliers(settings.cfg, step.samples)[a] == ONE &&
            Run(settings, Begin(a) + [step]).optimisers == s.optimisers
  {
    hide Run, Next, Begun, OptimiseEnabled, WeightMap, Multipliers, MeanCpu, Encodable;
    BeginRuns(settings, a);
    var s := Begun(settings, a);
    step := FirstCycle(settings, a, Sample(name, ZERO));
    MeanIsFinite(step.samples);
    UnusableCpuAdjustsNothing(settings.cfg, step.samples, a);
    WritableExactlyWithAMean(settings, s, step);
    RunSnoc(settings, Begin(a), step);
    NextAppends(settings, s, step);
  }

  /** One stored cycle, five minutes of silence, and a reset when the pod is gone: its series is
      still exported, and the current WeightOptimizer does not list it. By `LeftoverStays` it is
      exported from then on. */
  lemma SomeSeriesIsLeft(settings: Settings, a: Address, name: string) returns (steps: seq<Step>)
    requires Fits(settings) && settings.capacity > 0
    ensures var s := Run(settings, steps);
            s.optimisers != [] && (name, a) in s.gauges && (name, a) !in SeriesOf(Current(s))
  {
    hide Run, Next, Begun, OptimiseEnabled, WeightMap, MeanCpu, Encodable, SeriesOf, AfterFallBack, FallBackEnabled,
      AfterOptimise;
    BeginRuns(settings, a);
    var sample := Sample(name, Fin(1.0));
    var step := FirstCycle(settings, a, sample);
    OneBusyPod(a, sample);
    WritableExactlyWithAMean(settings, Begun(settings, a), step);
    var first := Begin(a) + [step];
    RunSnoc(settings, Begin(a), step);
    CycleExports(settings, a, name, step);
    var late := first + [Tick(FIVE_MINUTES as nat)];
    RunSnoc(settings, first, Tick(FIVE_MINUTES as nat));
    var now := settings.start + FIVE_MINUTES;
    var reset := FallBack(1, [], now, now, [], true);
    steps := late + [reset];
    RunSnoc(settings, late, reset);
    ResetLeaves(settings, Run(settings, first), a, name);
  }

  lemma OneBusyPod(a: Address, sample: Sample)
    requires sample.cpu == Fin(1.0)
    ensures MeanCpu(map[a := sample]).Fin? && MeanCpu(map[a := sample]) != ZERO
  {
    hide MeanCpu;
    var samples := map[a := sample];
    assert a in samples && samples[a].cpu != ZERO;
    HealthyMean(samples);
  }

  /** The state after the first cycle. */
  ghost predicate Exporting(settings: Settings, s: State, a: Address, name: string) {
    |s.optimisers| == 2 && s.now == settings.start && s.optimisers[1].written == settings.start &&
    s.gauges == {(name, a)} &&
    |s.optimisers[1].endpoints| == 1 && s.optimisers[1].endpoints[0].lastOptimized <= settings.start
  }

  lemma CycleExports(settings: Settings, a: Address, name: string, step: Step)
    requires Fits(settings) && step.Optimise? && Committed(settings, Begun(settings, a), step)
    requires step.samples == map[a := Sample(name, Fin(1.0))] && |step.result| == 1
    requires step.samples.Keys * WeightMap(Begun(settings, a).entries[step.entry]).Keys == {a}
    ensures Exporting(settings, Next(settings, Begun(settings, a), step), a, name)
  {
    hide Cycled, Readings, WeightMap, MeanCpu, Encodable, InitialEntries, Dropped;
    var s, e := Begun(settings, a), step.result[0];
    ResultKeys(settings, s, step);
    assert e.ip == Ips(step.result)[0];
    NewRecord(settings.cfg, step.samples, WeightMap(s.entries[step.entry]), step.stamp, a);
    assert e.name == name && e.lastOptimized == step.stamp(a);
    Arithmetic.DivMod(e.lastOptimized, settings.resolution);
    assert SeriesOf(step.result) == {(name, a)};
  }

  lemma NewRecord(cfg: Config, samples: map<Address, Sample>, se: map<Address, Weight>, stamp: Address -> Time,
                  a: Address)
    requires a in Cycled(cfg, Readings(cfg, samples), se, map[], stamp)
    ensures a in samples
    ensures var e := Cycled(cfg, Readings(cfg, samples), se, map[], stamp)[a];
            e.name == samples[a].name && e.lastOptimized == stamp(a)
  {
    hide MedianWeight, Recentre, NewWeight, Factor, MeanCpu, Measure;
  }

  lemma ResetLeaves(settings: Settings, s: State, a: Address, name: string)
    requires Fits(settings) && Exporting(settings, s, a, name)
    ensures var now := settings.start + FIVE_MINUTES;
            var t := Next(settings, Next(settings, s, Tick(FIVE_MINUTES as nat)), FallBack(1, [], now, now, [], true));
            t.optimisers != [] && (name, a) in t.gauges && (name, a) !in SeriesOf(Current(t))
  {
  }
}
