/** The controllers and the API server as one transition system. The server keeps every
    version of an object that was ever current. A controller may compute on any of them, as a
    stale cache or a slow worker does, but its write is accepted only if the version it read
    is still the latest; otherwise the write is a version conflict and nothing is stored. */
module System {
  import opened Weights
  import opened Control
  import opened PodMetricsTable
  import opened Cycle
  import opened ServiceEntries
  import opened Fallback

  datatype Origin = Created | ByCycle | ByReset(decided: Time)

  datatype Version = Version(endpoints: seq<Endpoint>, written: Time, origin: Origin)

  /** `capacity` bounds the addresses of one Endpoints object; `resolution` is the unit to
      which the API truncates a timestamp when it stores it. */
  datatype Settings = Settings(cfg: Config, capacity: nat, resolution: int, start: Time)

  datatype State = State(
    clusters: seq<seq<Address>>,
    entries: seq<seq<Entry>>,
    optimisers: seq<Version>,
    gauges: set<Series>,
    now: Time
  )

  datatype Step =
    | Tick(elapsed: nat)
    | Churn(addresses: seq<Address>)
    | CreateEntries(cluster: nat)
    | CreateOptimiser
    | Optimise(entry: nat, optimiser: nat, samples: map<Address, Sample>, stamp: Address -> Time,
               result: seq<Endpoint>, accepted: bool)
    | FallBack(optimiser: nat, pods: seq<PodInfo>, first: Time, second: Time, stamps: seq<Time>, accepted: bool)
    | Merge(entry: nat, cluster: nat, accepted: bool)
    | Overlay(entry: nat, optimiser: nat, accepted: bool)

  predicate IsLatest<T>(history: seq<T>, version: nat) { version + 1 == |history| }

  function Truncated(resolution: int, t: Time): Time
    requires resolution > 0
  {
    t - t % resolution
  }

  /** What the API stores for an endpoint. */
  function Stored(resolution: int, endpoints: seq<Endpoint>): seq<Endpoint>
    requires resolution > 0
  {
    seq(|endpoints|, i requires 0 <= i < |endpoints| =>
      endpoints[i].(lastOptimized := Truncated(resolution, endpoints[i].lastOptimized)))
  }

  /** JSON has neither NaN nor infinities (section 6 of RFC 8259). */
  predicate Encodable(endpoints: seq<Endpoint>) {
    forall i :: 0 <= i < |endpoints| ==>
      endpoints[i].multiplier.Fin? && endpoints[i].alpha.Fin? && endpoints[i].distance.Fin?
  }

  ghost predicate Fits(settings: Settings) {
    settings.resolution > 0 && PercentileInRange(settings.cfg)
  }

  function Init(settings: Settings): State { State([], [], [], {}, settings.start) }

  /* ---- The steps ---- */

  ghost predicate OptimiseEnabled(settings: Settings, s: State, step: Step)
    requires step.Optimise?
  {
    step.entry < |s.entries| && step.optimiser < |s.optimisers| &&
    s.entries[step.entry] != [] && step.samples != map[] &&
    (forall a :: s.optimisers[step.optimiser].written <= step.stamp(a) <= s.now) &&
    Lists(step.result,
          Cycled(settings.cfg, Readings(settings.cfg, step.samples), WeightMap(s.entries[step.entry]),
                 ByIp(s.optimisers[step.optimiser].endpoints), step.stamp))
  }

  /** One cycle. The gauges of endpoints that are not kept are deleted before the write; the
      gauges of the new endpoints are set only after it. */
  ghost function AfterOptimise(settings: Settings, s: State, step: Step): State
    requires Fits(settings) && step.Optimise? && OptimiseEnabled(settings, s, step)
  {
    var kept := step.samples.Keys * WeightMap(s.entries[step.entry]).Keys;
    var written := step.accepted && IsLatest(s.optimisers, step.optimiser) && Encodable(step.result);
    s.(gauges := GaugesAfter(s.gauges, s.optimisers[step.optimiser].endpoints, kept, step.result, written),
       optimisers :=
         if written then s.optimisers + [Version(Stored(settings.resolution, step.result), s.now, ByCycle)]
         else s.optimisers)
  }

  /** The write of a cycle went through. */
  ghost predicate Committed(settings: Settings, s: State, step: Step)
    requires Fits(settings) && step.Optimise?
  {
    OptimiseEnabled(settings, s, step) && step.accepted && IsLatest(s.optimisers, step.optimiser) &&
    Encodable(step.result)
  }

  predicate FallBackEnabled(s: State, step: Step)
    requires step.FallBack?
  {
    step.optimiser < |s.optimisers| && |step.stamps| == |step.pods| &&
    s.optimisers[step.optimiser].written <= step.first <= step.second <= s.now &&
    forall i :: 0 <= i < |step.stamps| ==> step.second <= step.stamps[i] <= s.now
  }

  function AfterFallBack(settings: Settings, s: State, step: Step): State
    requires settings.resolution > 0 && step.FallBack? && FallBackEnabled(s, step)
  {
    if !ShouldSkip(s.optimisers[step.optimiser].endpoints, step.first, step.second) &&
       step.accepted && IsLatest(s.optimisers, step.optimiser)
    then
      s.(optimisers := s.optimisers +
        [Version(Stored(settings.resolution, ResetRecords(step.pods, step.stamps)), s.now, ByReset(step.second))])
    else s
  }

  ghost function AfterMergeStep(settings: Settings, s: State, entry: nat, cluster: nat, accepted: bool): State
    requires Fits(settings) && entry < |s.entries| && cluster < |s.clusters|
  {
    if Changed(Addresses(s.entries[entry]), s.clusters[cluster]) && accepted && IsLatest(s.entries, entry) then
      s.(entries := s.entries + [Merged(settings.cfg, s.entries[entry], s.clusters[cluster])])
    else s
  }

  function AfterOverlay(s: State, entry: nat, optimiser: nat, accepted: bool): State
    requires entry < |s.entries| && optimiser < |s.optimisers|
  {
    if accepted && IsLatest(s.entries, entry) then
      s.(entries := s.entries +
        [Overlaid(OptimisedWeights(s.optimisers[optimiser].endpoints), s.entries[entry])])
    else s
  }

  /** A step that is not enabled changes nothing. */
  ghost function Next(settings: Settings, s: State, step: Step): State
    requires Fits(settings)
  {
    match step
    case Tick(elapsed) => s.(now := s.now + elapsed)
    case Churn(addresses) =>
      if |addresses| <= settings.capacity then s.(clusters := s.clusters + [addresses]) else s
    case CreateEntries(cluster) =>
      if s.entries == [] && cluster < |s.clusters| then s.(entries := [InitialEntries(s.clusters[cluster])]) else s
    case CreateOptimiser =>
      if s.optimisers == [] then s.(optimisers := [Version([], s.now, Created)]) else s
    case Optimise(_, _, _, _, _, _) =>
      if OptimiseEnabled(settings, s, step) then AfterOptimise(settings, s, step) else s
    case FallBack(_, _, _, _, _, _) =>
      if FallBackEnabled(s, step) then AfterFallBack(settings, s, step) else s
    case Merge(entry, cluster, accepted) =>
      if entry < |s.entries| && cluster < |s.clusters| then AfterMergeStep(settings, s, entry, cluster, accepted) else s
    case Overlay(entry, optimiser, accepted) =>
      if entry < |s.entries| && optimiser < |s.optimisers| then AfterOverlay(s, entry, optimiser, accepted) else s
  }

  /** The state after any sequence of steps. */
  ghost function Run(settings: Settings, steps: seq<Step>): State
    requires Fits(settings)
  {
    if steps == [] then Init(settings)
    else Next(settings, Run(settings, steps[..|steps| - 1]), steps[|steps| - 1])
  }
}
