/** Every weight that is ever current stays in one fixed range, over every interleaving. */
module Safety {
  import opened Arithmetic
  import opened Floats
  import opened Ordering
  import opened Weights
  import opened Control
  import opened Cycle
  import opened CycleLaws
  import opened ServiceEntries
  import opened ReconcileLaws
  import opened Fallback
  import opened System

  function Lowest(cfg: Config): int
    requires cfg.maximumWeight > 0
  {
    if cfg.Least() < RESET_WEIGHT then cfg.Least() else RESET_WEIGHT
  }

  function Highest(cfg: Config): int
    requires cfg.minimumWeight > 0
  {
    if cfg.Greatest() > DEFAULT_WEIGHT_FOR_NEW_ENDPOINTS then cfg.Greatest() else DEFAULT_WEIGHT_FOR_NEW_ENDPOINTS
  }

  /** No uint32 wraps around: neither a re-centred weight nor a sum of weights. */
  ghost predicate NoOverflow(settings: Settings) {
    Fits(settings) && settings.cfg.Sane() && IsWeight(Highest(settings.cfg) * settings.capacity)
  }

  ghost predicate GoodEntries(entries: seq<Entry>, capacity: nat, lo: int, hi: int) {
    |entries| <= capacity && forall i :: 0 <= i < |entries| ==> lo <= entries[i].weight <= hi
  }

  ghost predicate GoodEndpoints(endpoints: seq<Endpoint>, lo: int, hi: int) {
    forall i :: 0 <= i < |endpoints| ==> lo <= endpoints[i].weight <= hi && endpoints[i].multiplier.Fin?
  }

  ghost predicate AllGood(s: State, capacity: nat, lo: int, hi: int) {
    (forall v :: 0 <= v < |s.entries| ==> GoodEntries(s.entries[v], capacity, lo, hi)) &&
    (forall v :: 0 <= v < |s.optimisers| ==> GoodEndpoints(s.optimisers[v].endpoints, lo, hi)) &&
    (forall v :: 0 <= v < |s.clusters| ==> |s.clusters[v]| <= capacity)
  }

  /** The range holds the fixed weights, the middle, and whatever a cycle can produce. */
  lemma RangeHolds(cfg: Config)
    requires cfg.Sane()
    ensures 0 <= Lowest(cfg) <= cfg.Least() && cfg.Greatest() <= Highest(cfg)
    ensures Lowest(cfg) <= RESET_WEIGHT <= DEFAULT_WEIGHT_FOR_NEW_ENDPOINTS <= Highest(cfg)
    ensures Lowest(cfg) <= Wrap(cfg.Middle()) <= Highest(cfg)
    ensures IsWeight(Highest(cfg))
  {
    hide Config.Least, Config.Greatest;
    SaneIsRanged(cfg);
    MiddleInRange(cfg);
    var mid := cfg.Middle();
    ScaledWithin(cfg, mid, mid);
    QuotientIs(mid * mid, mid, mid, mid * mid);
    GreatestFits(cfg);
  }

  lemma {:induction false} WeightMapWithin(entries: seq<Entry>, lo: int, hi: int)
    requires forall i :: 0 <= i < |entries| ==> lo <= entries[i].weight <= hi
    ensures WithinMap(WeightMap(entries), lo, hi)
    ensures |WeightMap(entries)| <= |entries|
  {
    if entries != [] {
      var n := |entries| - 1;
      WeightMapWithin(entries[..n], lo, hi);
      var m, a := WeightMap(entries[..n]), entries[n].address;
      var m' := m[a := entries[n].weight];
      assert m'.Keys == m.Keys + {a};
      assert |m'| == |m'.Keys| && |m| == |m.Keys|;
    }
  }

  lemma MergedIsGood(cfg: Config, entries: seq<Entry>, addresses: seq<Address>, capacity: nat, lo: int, hi: int)
    requires PercentileInRange(cfg) && GoodEntries(entries, capacity, lo, hi) && |addresses| <= capacity
    requires 0 <= lo <= hi && IsWeight(hi * capacity) && lo <= Wrap(cfg.Middle()) <= hi
    ensures GoodEntries(Merged(cfg, entries, addresses), capacity, lo, hi)
  {
    hide WeightMap, DefaultWeight, Values;
    var existing := WeightMap(entries);
    WeightMapWithin(entries, lo, hi);
    ValuesWithin(existing, lo, hi);
    MulMono(0, |existing|, hi);
    MulMono(|existing|, capacity, hi);
    DefaultWeightInRange(cfg, existing, lo, hi);
  }

  lemma OverlaidIsGood(endpoints: seq<Endpoint>, entries: seq<Entry>, capacity: nat, lo: int, hi: int)
    requires GoodEntries(entries, capacity, lo, hi) && GoodEndpoints(endpoints, lo, hi)
    ensures GoodEntries(Overlaid(OptimisedWeights(endpoints), entries), capacity, lo, hi)
  {
    ByIpIsKeyed(endpoints);
    ByIpGood(endpoints, lo, hi);
  }

  lemma ByIpGood(endpoints: seq<Endpoint>, lo: int, hi: int)
    requires GoodEndpoints(endpoints, lo, hi)
    ensures forall a :: a in ByIp(endpoints) ==>
              lo <= ByIp(endpoints)[a].weight <= hi && ByIp(endpoints)[a].multiplier.Fin?
  {
    ByIpIsKeyed(endpoints);
    forall a | a in ByIp(endpoints)
      ensures lo <= ByIp(endpoints)[a].weight <= hi && ByIp(endpoints)[a].multiplier.Fin?
    {
      var x := ByIp(endpoints)[a];
      var i :| 0 <= i < |endpoints| && endpoints[i] == x;
    }
  }

  /** A cycle result that can be written has only finite factors behind it: the stored ones
      are finite, and a newcomer's factor is the multiplier its own record carries. */
  lemma WritableIsDriven(cfg: Config, readings: map<Address, Reading>, se: map<Address, Weight>,
                         stored: map<Address, Endpoint>, stamp: Address -> Time, result: seq<Endpoint>)
    requires Lists(result, Cycled(cfg, readings, se, stored, stamp)) && Encodable(result)
    requires forall a :: a in stored ==> stored[a].multiplier.Fin?
    ensures Driven(readings, se, stored)
  {
    hide NewWeight, MedianWeight, Recentre;
    var m := Cycled(cfg, readings, se, stored, stamp);
    forall a | a in readings && a in se ensures Factor(readings, stored, a).Fin? {
      assert a in m && m[a].multiplier == readings[a].measured.multiplier;
      assert a in Ips(result);
      var i :| 0 <= i < |result| && Ips(result)[i] == a;
      assert result[i] == m[a];
    }
  }

  lemma CycleResultIsGood(cfg: Config, readings: map<Address, Reading>, se: map<Address, Weight>,
                          stored: map<Address, Endpoint>, stamp: Address -> Time, result: seq<Endpoint>)
    requires cfg.Sane()
    requires Lists(result, Cycled(cfg, readings, se, stored, stamp)) && Encodable(result)
    requires forall a :: a in stored ==> stored[a].multiplier.Fin?
    ensures GoodEndpoints(result, cfg.Least(), cfg.Greatest())
  {
    hide CycleWeights, Config.Least, Config.Greatest;
    SaneIsRanged(cfg);
    WritableIsDriven(cfg, readings, se, stored, stamp, result);
    CycleRange(cfg, readings, se, stored);
    forall i | 0 <= i < |result| ensures cfg.Least() <= result[i].weight <= cfg.Greatest() {
      assert result[i].weight == CycleWeights(cfg, readings, se, stored)[result[i].ip];
    }
  }

  lemma StoredIsGood(resolution: int, endpoints: seq<Endpoint>, lo: int, hi: int)
    requires resolution > 0 && GoodEndpoints(endpoints, lo, hi)
    ensures GoodEndpoints(Stored(resolution, endpoints), lo, hi)
  {
    hide Truncated;
  }

  lemma OptimiseKeepsGood(settings: Settings, s: State, step: Step, lo: int, hi: int)
    requires NoOverflow(settings) && step.Optimise? && OptimiseEnabled(settings, s, step)
    requires AllGood(s, settings.capacity, lo, hi) && lo <= settings.cfg.Least() && settings.cfg.Greatest() <= hi
    ensures AllGood(AfterOptimise(settings, s, step), settings.capacity, lo, hi)
  {
    hide Config.Least, Config.Greatest, Dropped, SeriesOf, Lists, Cycled, Stored, Encodable, Config.Sane;
    var endpoints := s.optimisers[step.optimiser].endpoints;
    assert GoodEndpoints(endpoints, lo, hi);
    ByIpGood(endpoints, lo, hi);
    if Encodable(step.result) {
      CycleResultIsGood(settings.cfg, Readings(settings.cfg, step.samples), WeightMap(s.entries[step.entry]),
                        ByIp(endpoints), step.stamp, step.result);
      assert GoodEndpoints(step.result, lo, hi);
      StoredIsGood(settings.resolution, step.result, lo, hi);
    }
  }

  lemma FallBackKeepsGood(settings: Settings, s: State, step: Step, lo: int, hi: int)
    requires settings.resolution > 0 && step.FallBack? && FallBackEnabled(s, step)
    requires AllGood(s, settings.capacity, lo, hi) && lo <= RESET_WEIGHT <= hi
    ensures AllGood(AfterFallBack(settings, s, step), settings.capacity, lo, hi)
  {
    hide Stored;
    assert GoodEndpoints(ResetRecords(step.pods, step.stamps), lo, hi);
    StoredIsGood(settings.resolution, ResetRecords(step.pods, step.stamps), lo, hi);
  }

  lemma EntriesKeepGood(settings: Settings, s: State, step: Step, lo: int, hi: int)
    requires NoOverflow(settings) && lo == Lowest(settings.cfg) && hi == Highest(settings.cfg)
    requires AllGood(s, settings.capacity, lo, hi)
    requires step.Merge? || step.Overlay? || step.CreateEntries?
    ensures AllGood(Next(settings, s, step), settings.capacity, lo, hi)
  {
    hide Lowest, Highest, Config.Sane, Merged, Overlaid, OptimisedWeights, Changed;
    RangeHolds(settings.cfg);
    match step
    case Merge(entry, cluster, accepted) =>
      if entry < |s.entries| && cluster < |s.clusters| {
        MergedIsGood(settings.cfg, s.entries[entry], s.clusters[cluster], settings.capacity, lo, hi);
      }
    case Overlay(entry, optimiser, accepted) =>
      if entry < |s.entries| && optimiser < |s.optimisers| {
        OverlaidIsGood(s.optimisers[optimiser].endpoints, s.entries[entry], settings.capacity, lo, hi);
      }
    case CreateEntries(cluster) =>
  }

  lemma NextKeepsGood(settings: Settings, s: State, step: Step)
    requires NoOverflow(settings)
    requires AllGood(s, settings.capacity, Lowest(settings.cfg), Highest(settings.cfg))
    ensures AllGood(Next(settings, s, step), settings.capacity, Lowest(settings.cfg), Highest(settings.cfg))
  {
    hide Lowest, Highest, AfterOptimise, AfterFallBack, OptimiseEnabled, FallBackEnabled, AfterMergeStep,
      AfterOverlay, Config.Least, Config.Greatest;
    var lo, hi := Lowest(settings.cfg), Highest(settings.cfg);
    RangeHolds(settings.cfg);
    if step.Optimise? {
      if OptimiseEnabled(settings, s, step) { OptimiseKeepsGood(settings, s, step, lo, hi); }
    } else if step.FallBack? {
      if FallBackEnabled(s, step) { FallBackKeepsGood(settings, s, step, lo, hi); }
    } else if step.Merge? || step.Overlay? || step.CreateEntries? {
      EntriesKeepGood(settings, s, step, lo, hi);
    }
  }

  lemma {:induction false} RunIsGood(settings: Settings, steps: seq<Step>)
    requires NoOverflow(settings)
    ensures AllGood(Run(settings, steps), settings.capacity, Lowest(settings.cfg), Highest(settings.cfg))
  {
    if steps != [] {
      hide Next, AllGood, Lowest, Highest;
      RunIsGood(settings, steps[..|steps| - 1]);
      NextKeepsGood(settings, Run(settings, steps[..|steps| - 1]), steps[|steps| - 1]);
    }
  }

  /** Safety. In every run, with stale reads, version conflicts, rejected writes, endpoints
      churn and fallbacks in any order, and whatever the metrics say, every weight of every
      version of the ServiceEntry and of the WeightOptimizer lies between
      min(300, Min * middle / Max) and max(1000, Max * middle / Min), and no stored multiplier
      is infinite or NaN. */
  lemma WeightsStayInRange(settings: Settings, steps: seq<Step>, v: nat, i: nat)
    requires NoOverflow(settings)
    ensures var s := Run(settings, steps);
            (v < |s.entries| && i < |s.entries[v]| ==>
              Lowest(settings.cfg) <= s.entries[v][i].weight <= Highest(settings.cfg)) &&
            (v < |s.optimisers| && i < |s.optimisers[v].endpoints| ==>
              Lowest(settings.cfg) <= s.optimisers[v].endpoints[i].weight <= Highest(settings.cfg) &&
              s.optimisers[v].endpoints[i].multiplier.Fin?)
  {
    hide Run, Lowest, Highest;
    RunIsGood(settings, steps);
    var s := Run(settings, steps);
    var lo, hi := Lowest(settings.cfg), Highest(settings.cfg);
    if v < |s.entries| { assert GoodEntries(s.entries[v], settings.capacity, lo, hi); }
    if v < |s.optimisers| { assert GoodEndpoints(s.optimisers[v].endpoints, lo, hi); }
  }

  /** The 0 that means absent is never a weight: with Min * middle >= Max, whatever versions an
      overlay reads in whatever run, it takes the optimiser's weight exactly for the addresses
      the optimiser has. */
  lemma SentinelIsSound(settings: Settings, steps: seq<Step>, entry: nat, optimiser: nat)
    requires NoOverflow(settings) && settings.cfg.minimumWeight * settings.cfg.Middle() >= settings.cfg.maximumWeight
    requires var s := Run(settings, steps); entry < |s.entries| && optimiser < |s.optimisers|
    ensures var s := Run(settings, steps);
            var weights := OptimisedWeights(s.optimisers[optimiser].endpoints);
            Overlaid(weights, s.entries[entry]) == PlainOverlaid(weights, s.entries[entry])
  {
    hide Run, Overlaid, PlainOverlaid;
    RunIsGood(settings, steps);
    var s := Run(settings, steps);
    var endpoints := s.optimisers[optimiser].endpoints;
    LowestPositive(settings.cfg);
    assert GoodEndpoints(endpoints, Lowest(settings.cfg), Highest(settings.cfg));
    ByIpGood(endpoints, Lowest(settings.cfg), Highest(settings.cfg));
    SentinelIsHarmlessIff(OptimisedWeights(endpoints), s.entries[entry]);
  }

  lemma LowestPositive(cfg: Config)
    requires cfg.Ranged() && cfg.minimumWeight * cfg.Middle() >= cfg.maximumWeight
    ensures Lowest(cfg) >= 1
  {
    LeastPositive(cfg);
  }

  /** Which cycles can be stored at all: those for which no address has both metrics and a
      ServiceEntry weight, and those whose mean is finite and not zero. When no pod has a CPU time, or one of them is NaN or infinite, the
      guard makes every multiplier 1, but alpha and distance are still NaN, and the write of a
      cycle that keeps any endpoint fails. */
  lemma WritableExactlyWithAMean(settings: Settings, s: State, step: Step)
    requires Fits(settings) && step.Optimise? && OptimiseEnabled(settings, s, step)
    ensures var mean := MeanCpu(step.samples);
            Encodable(step.result) <==>
            step.samples.Keys * WeightMap(s.entries[step.entry]).Keys == {} || (mean.Fin? && mean != ZERO)
    ensures !Encodable(step.result) ==> AfterOptimise(settings, s, step).optimisers == s.optimisers
  {
    hide Readings, MeanCpu, CycleWeights, ByIp, WeightMap, Stored, Dropped, SeriesOf;
    var readings := Readings(settings.cfg, step.samples);
    ReadingsKeys(settings.cfg, step.samples);
    forall i | 0 <= i < |step.result|
      ensures step.result[i].ip in readings
      ensures (step.result[i].multiplier.Fin? && step.result[i].alpha.Fin? && step.result[i].distance.Fin?)
              <==> MeanCpu(step.samples).Fin? && MeanCpu(step.samples) != ZERO
    {
      var a := step.result[i].ip;
      CycleWeightsKeys(settings.cfg, readings, WeightMap(s.entries[step.entry]),
                       ByIp(s.optimisers[step.optimiser].endpoints));
      ProperExactlyWithAMean(settings.cfg, step.samples, a);
    }
    ResultKeys(settings, s, step);
    if step.result != [] {
      var e := step.result[0];
      assert Encodable(step.result) ==> e.multiplier.Fin? && e.alpha.Fin? && e.distance.Fin?;
    }
  }

  /** The addresses of the result are those with metrics and a weight. */
  lemma ResultKeys(settings: Settings, s: State, step: Step)
    requires Fits(settings) && step.Optimise? && OptimiseEnabled(settings, s, step)
    ensures IsOrderOf(Ips(step.result), step.samples.Keys * WeightMap(s.entries[step.entry]).Keys)
    ensures step.result == [] <==> step.samples.Keys * WeightMap(s.entries[step.entry]).Keys == {}
  {
    hide Cycled, ByIp, WeightMap, Readings;
    var kept := step.samples.Keys * WeightMap(s.entries[step.entry]).Keys;
    ReadingsKeys(settings.cfg, step.samples);
    CycleStoresMeasured(settings.cfg, Readings(settings.cfg, step.samples), WeightMap(s.entries[step.entry]),
                        ByIp(s.optimisers[step.optimiser].endpoints), step.stamp);
    if step.result != [] {
      assert Ips(step.result)[0] in kept;
    }
  }
}
