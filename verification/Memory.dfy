/** What the optimiser remembers: over every interleaving, with stale reads, conflicts, rejected
    writes and resets, a cycle knows of the past only what the writer of the version it read
    measured. */
module Memory {
  import opened Floats
  import opened Weights
  import opened Control
  import opened PodMetricsTable
  import opened Cycle
  import opened CycleLaws
  import opened ServiceEntries
  import opened Fallback
  import opened System
  import opened History

  /** What a writing step leaves for later cycles, as a function of its own measurements: a cycle
      leaves the multipliers it measured for the pods it kept, a reset leaves 1 for every pod. */
  ghost function Remembered(settings: Settings, s: State, step: Step): map<Address, Float> {
    match step
    case Optimise(entry, _, samples, _, _, _) =>
      if entry < |s.entries| then
        map a | a in samples.Keys * WeightMap(s.entries[entry]).Keys :: Multipliers(settings.cfg, samples)[a]
      else map[]
    case FallBack(_, pods, _, _, _, _) => map i | 0 <= i < |pods| :: pods[i].address := ONE
    case _ => map[]
  }

  /** The readings with the remembered multipliers in place of the fresh ones. */
  function Recalled(readings: map<Address, Reading>, remembered: map<Address, Float>): map<Address, Reading> {
    map a | a in readings ::
      if a in remembered then
        readings[a].(measured := readings[a].measured.(multiplier := remembered[a]))
      else readings[a]
  }

  /** `endpoints`, read back as a map, hold exactly these multipliers. */
  ghost predicate Holds(endpoints: seq<Endpoint>, multipliers: map<Address, Float>) {
    ByIp(endpoints).Keys == multipliers.Keys &&
    forall a :: a in multipliers ==> ByIp(endpoints)[a].multiplier == multipliers[a]
  }

  lemma StoredHolds(resolution: int, endpoints: seq<Endpoint>, multipliers: map<Address, Float>)
    requires resolution > 0 && Holds(endpoints, multipliers)
    ensures Holds(Stored(resolution, endpoints), multipliers)
  {
    hide ByIp, Stored, Truncated;
    ByIpOfStored(resolution, endpoints);
  }

  lemma CycleHolds(settings: Settings, s: State, step: Step)
    requires Fits(settings) && step.Optimise? && OptimiseEnabled(settings, s, step)
    ensures Holds(step.result, Remembered(settings, s, step))
  {
    hide ByIp, WeightMap, Cycled, Lists, MeanCpu;
    var readings := Readings(settings.cfg, step.samples);
    var se, stored := WeightMap(s.entries[step.entry]), ByIp(s.optimisers[step.optimiser].endpoints);
    ListedMap(step.result, Cycled(settings.cfg, readings, se, stored, step.stamp));
    CycleStoresMeasured(settings.cfg, readings, se, stored, step.stamp);
  }

  lemma {:induction false} ResetHolds(pods: seq<PodInfo>, stamps: seq<Time>)
    requires |pods| == |stamps|
    ensures Holds(ResetRecords(pods, stamps), map i | 0 <= i < |pods| :: pods[i].address := ONE)
  {
    var records := ResetRecords(pods, stamps);
    ByIpIsKeyed(records);
    forall a | a in ByIp(records)
      ensures ByIp(records)[a].multiplier == ONE && exists i :: 0 <= i < |pods| && pods[i].address == a
    {
      var x := ByIp(records)[a];
      var i :| 0 <= i < |records| && records[i] == x;
      assert pods[i].address == a;
    }
    forall i | 0 <= i < |pods| ensures pods[i].address in ByIp(records) {
      assert Ips(records)[i] == pods[i].address;
    }
  }

  lemma WrittenHolds(settings: Settings, s: State, step: Step)
    requires Fits(settings) && |Next(settings, s, step).optimisers| == |s.optimisers| + 1
    ensures Holds(Next(settings, s, step).optimisers[|s.optimisers|].endpoints, Remembered(settings, s, step))
  {
    hide Next, Holds, Stored, ResetRecords, Encodable, OptimiseEnabled, FallBackEnabled;
    NextAppends(settings, s, step);
    if step.Optimise? {
      CycleHolds(settings, s, step);
      StoredHolds(settings.resolution, step.result, Remembered(settings, s, step));
    } else if step.FallBack? {
      FallBackLists(s, step);
      ResetHolds(step.pods, step.stamps);
      StoredHolds(settings.resolution, ResetRecords(step.pods, step.stamps), Remembered(settings, s, step));
    } else {
      NothingHeld();
    }
  }

  lemma FallBackLists(s: State, step: Step)
    requires step.FallBack? && FallBackEnabled(s, step)
    ensures |step.pods| == |step.stamps|
  {
  }

  lemma NothingHeld()
    ensures Holds([], map[])
  {
  }

  /** In every run, every stored multiplier is the one that the writer of its version measured,
      or 1 if the writer was a reset; no older one ever comes back. */
  lemma StoredIsMeasuredByWriter(settings: Settings, steps: seq<Step>, k: nat, v: nat)
    requires Fits(settings) && Wrote(settings, steps, k, v)
    ensures v < |Run(settings, steps).optimisers|
    ensures Holds(Run(settings, steps).optimisers[v].endpoints,
                  Remembered(settings, Run(settings, steps[..k]), steps[k]))
  {
    hide Run, Next, Holds, Remembered;
    VersionStays(settings, steps, k, v);
    WroteLength(settings, steps, k, v);
    WrittenHolds(settings, Run(settings, steps[..k]), steps[k]);
  }

  lemma WroteLength(settings: Settings, steps: seq<Step>, k: nat, v: nat)
    requires Fits(settings) && Wrote(settings, steps, k, v)
    ensures k < |steps| && |Run(settings, steps[..k]).optimisers| == v
  {
  }

  lemma HeldFactor(readings: map<Address, Reading>, stored: seq<Endpoint>, remembered: map<Address, Float>, a: Address)
    requires Holds(stored, remembered) && a in readings
    ensures Factor(readings, ByIp(stored), a) == Factor(Recalled(readings, remembered), map[], a)
  {
    hide ByIp;
  }

  /** One cycle of memory. In every run, whichever version `v` a cycle reads, latest or stale, its
      weights are those of a cycle without any stored state that sees, for the pods that the
      writer `k` of `v` kept, what that writer measured (1 after a reset), and its own
      measurements for all others. */
  lemma OneCycleOfMemory(settings: Settings, steps: seq<Step>, step: Step, k: nat)
    requires Fits(settings) && step.Optimise? && OptimiseEnabled(settings, Run(settings, steps), step)
    requires Wrote(settings, steps, k, step.optimiser)
    ensures var s, cfg := Run(settings, steps), settings.cfg;
            var readings, se := Readings(cfg, step.samples), WeightMap(s.entries[step.entry]);
            CycleWeights(cfg, readings, se, ByIp(s.optimisers[step.optimiser].endpoints))
            == CycleWeights(cfg, Recalled(readings, Remembered(settings, Run(settings, steps[..k]), steps[k])), se, map[])
  {
    hide Run, Holds, Remembered, CycleWeights, Factor, ByIp, WeightMap, Lists, Cycled, Readings, Wrote;
    var s, cfg := Run(settings, steps), settings.cfg;
    var readings, stored := Readings(cfg, step.samples), s.optimisers[step.optimiser].endpoints;
    StoredIsMeasuredByWriter(settings, steps, k, step.optimiser);
    WroteLength(settings, steps, k, step.optimiser);
    var remembered := Remembered(settings, Run(settings, steps[..k]), steps[k]);
    forall a | a in readings
      ensures Factor(readings, ByIp(stored), a) == Factor(Recalled(readings, remembered), map[], a)
    {
      HeldFactor(readings, stored, remembered, a);
    }
    SameScaled(cfg, readings, Recalled(readings, remembered), WeightMap(s.entries[step.entry]), ByIp(stored), map[]);
  }
}
