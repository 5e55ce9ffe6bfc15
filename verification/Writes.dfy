/** What each step of the transition system writes, and when: over every run, a write is stored
    if and only if it is accepted, was computed on the latest version, and has something to say. */
module Writes {
  import Arithmetic
  import opened Floats
  import opened Ordering
  import opened Weights
  import opened Control
  import opened Cycle
  import opened CycleLaws
  import opened ServiceEntries
  import opened Fallback
  import opened System
  import opened History
  import opened Safety

  /** `stored` is `endpoints` with every timestamp truncated by less than the resolution. */
  ghost predicate StoredAs(resolution: int, endpoints: seq<Endpoint>, stored: seq<Endpoint>) {
    |stored| == |endpoints| &&
    forall i :: 0 <= i < |stored| ==>
      stored[i] == endpoints[i].(lastOptimized := stored[i].lastOptimized) &&
      stored[i].lastOptimized <= endpoints[i].lastOptimized < stored[i].lastOptimized + resolution
  }

  lemma StoringTruncates(resolution: int, endpoints: seq<Endpoint>)
    requires resolution > 0
    ensures StoredAs(resolution, endpoints, Stored(resolution, endpoints))
  {
    forall i | 0 <= i < |endpoints|
      ensures Truncated(resolution, endpoints[i].lastOptimized) <= endpoints[i].lastOptimized
              < Truncated(resolution, endpoints[i].lastOptimized) + resolution
    {
      Arithmetic.DivMod(endpoints[i].lastOptimized, resolution);
    }
  }

  /* ---- Resets ---- */

  /** A fallback is stored exactly when it is enabled and accepted, read the latest version, and
      the oldest of that version's timestamps and the first clock reading is five minutes old.
      It then appends one reset record per pod; otherwise nothing changes. */
  lemma FallBackWrites(settings: Settings, steps: seq<Step>, step: Step)
    requires Fits(settings) && step.FallBack?
    ensures var s, t := Run(settings, steps), Run(settings, steps + [step]);
            if FallBackEnabled(s, step) && step.accepted && step.optimiser + 1 == |s.optimisers| &&
               Overdue(s.optimisers[step.optimiser].endpoints, step.first, step.second)
            then
              exists records: seq<Endpoint>, stored: seq<Endpoint> ::
                IsReset(step.pods, step.stamps, records) && StoredAs(settings.resolution, records, stored) &&
                t == s.(optimisers := s.optimisers + [Version(stored, s.now, ByReset(step.second))])
            else t == s
  {
    hide Run, ShouldSkip, Overdue, Stored, ResetRecords, IsReset, StoredAs;
    RunSnoc(settings, steps, step);
    var s := Run(settings, steps);
    if FallBackEnabled(s, step) {
      SkipsUnlessOverdue(s.optimisers[step.optimiser].endpoints, step.first, step.second);
      FallBackLists(s, step);
      ResetRecordsReset(step.pods, step.stamps);
      StoringTruncates(settings.resolution, ResetRecords(step.pods, step.stamps));
    }
  }

  lemma FallBackLists(s: State, step: Step)
    requires step.FallBack? && FallBackEnabled(s, step)
    ensures |step.pods| == |step.stamps|
  {
  }

  /* ---- Cycles ---- */

  /** What JSON can carry of an enabled cycle, told from its inputs. */
  ghost predicate Writable(s: State, step: Step)
    requires step.Optimise? && step.entry < |s.entries|
  {
    step.samples.Keys * WeightMap(s.entries[step.entry]).Keys == {} ||
    (MeanCpu(step.samples).Fin? && MeanCpu(step.samples) != ZERO)
  }

  /** A cycle is stored exactly when it is enabled and accepted, read the latest version, and its
      numbers can be written: it keeps no address, or its mean is finite and not 0. */
  lemma CycleWrites(settings: Settings, steps: seq<Step>, step: Step)
    requires Fits(settings) && step.Optimise?
    ensures var s, t := Run(settings, steps), Run(settings, steps + [step]);
            if OptimiseEnabled(settings, s, step) && step.accepted && step.optimiser + 1 == |s.optimisers| &&
               Writable(s, step)
            then
              exists stored: seq<Endpoint> ::
                StoredAs(settings.resolution, step.result, stored) &&
                t.optimisers == s.optimisers + [Version(stored, s.now, ByCycle)] && t.entries == s.entries
            else t.optimisers == s.optimisers && t.entries == s.entries
  {
    hide Run, OptimiseEnabled, Encodable, Stored, StoredAs, WeightMap, MeanCpu, GaugesAfter;
    RunSnoc(settings, steps, step);
    var s := Run(settings, steps);
    if OptimiseEnabled(settings, s, step) {
      WritableExactlyWithAMean(settings, s, step);
      StoringTruncates(settings.resolution, step.result);
    }
  }

  /** The result of an enabled cycle: one record for each address with metrics and a weight, and
      each is the outcome of that address, `m` being the weights scaled once and clamped. */
  lemma CycleResult(settings: Settings, s: State, step: Step, m: map<Address, Weight>)
    requires Fits(settings) && settings.cfg.Ranged() && step.Optimise? && OptimiseEnabled(settings, s, step)
    requires ScalesOnce(settings.cfg, Readings(settings.cfg, step.samples), WeightMap(s.entries[step.entry]),
                        ByIp(s.optimisers[step.optimiser].endpoints), m)
    ensures IsOrderOf(Ips(step.result), step.samples.Keys * WeightMap(s.entries[step.entry]).Keys)
    ensures forall i :: 0 <= i < |step.result| ==>
              var e, readings := step.result[i], Readings(settings.cfg, step.samples);
              e.ip in readings && e.ip in m &&
              IsOutcome(settings.cfg, readings, ByIp(s.optimisers[step.optimiser].endpoints), step.stamp, e.ip,
                        m[e.ip], MedianWeight(m), e)
  {
    hide ScalesOnce, Cycled, ByIp, WeightMap, MedianWeight, Readings, IsOutcome;
    var readings := Readings(settings.cfg, step.samples);
    ResultKeys(settings, s, step);
    ReadingsKeys(settings.cfg, step.samples);
    CycleOutcome(settings.cfg, readings, WeightMap(s.entries[step.entry]),
                 ByIp(s.optimisers[step.optimiser].endpoints), step.stamp, m);
  }

  /** The exported series after an enabled cycle: those of endpoints it read but does not keep
      are gone, written or not; those of its result are there if it was stored. */
  lemma CycleGauges(settings: Settings, s: State, step: Step, x: Series)
    requires Fits(settings) && step.Optimise? && OptimiseEnabled(settings, s, step)
    ensures var endpoints, kept := s.optimisers[step.optimiser].endpoints,
                                   step.samples.Keys * WeightMap(s.entries[step.entry]).Keys;
            x in Next(settings, s, step).gauges <==>
            (x in s.gauges &&
             !exists i :: 0 <= i < |endpoints| && x == (endpoints[i].name, endpoints[i].ip) && endpoints[i].ip !in kept) ||
            (step.accepted && step.optimiser + 1 == |s.optimisers| && Writable(s, step) &&
             exists i :: 0 <= i < |step.result| && x == (step.result[i].name, step.result[i].ip))
  {
    hide OptimiseEnabled, Encodable, Stored, WeightMap, MeanCpu;
    WritableExactlyWithAMean(settings, s, step);
  }

  /* ---- The ServiceEntry ---- */

  /** A merge is stored exactly when it is accepted, read the latest ServiceEntry, and finds
      another number of addresses or an unknown one. It then appends one entry per address, with
      the weight the address had or the newcomer weight; otherwise nothing changes. */
  lemma MergeWrites(settings: Settings, steps: seq<Step>, step: Step)
    requires Fits(settings) && step.Merge?
    ensures var s, t := Run(settings, steps), Run(settings, steps + [step]);
            if step.entry < |s.entries| && step.cluster < |s.clusters| && step.accepted &&
               step.entry + 1 == |s.entries| &&
               (|s.entries[step.entry]| != |s.clusters[step.cluster]| ||
                exists i :: 0 <= i < |s.clusters[step.cluster]| &&
                  s.clusters[step.cluster][i] !in Addresses(s.entries[step.entry]))
            then
              var had, addresses := WeightMap(s.entries[step.entry]), s.clusters[step.cluster];
              exists merged: seq<Entry> ::
                |merged| == |addresses| &&
                (forall i :: 0 <= i < |merged| ==>
                  merged[i] == Entry(addresses[i], if addresses[i] in had then had[addresses[i]]
                                                   else DefaultWeight(settings.cfg, had))) &&
                t == s.(entries := s.entries + [merged])
            else t == s
  {
    hide Run, WeightMap, DefaultWeight;
    RunSnoc(settings, steps, step);
  }

  /** An overlay is stored exactly when it is accepted and read the latest ServiceEntry. It then
      appends the same entries, each with the weight of the last record of its address in the
      WeightOptimizer version it read, if there is one and its weight is not 0. */
  lemma OverlayWrites(settings: Settings, steps: seq<Step>, step: Step)
    requires Fits(settings) && step.Overlay?
    ensures var s, t := Run(settings, steps), Run(settings, steps + [step]);
            if step.entry < |s.entries| && step.optimiser < |s.optimisers| && step.accepted &&
               step.entry + 1 == |s.entries|
            then
              exists overlaid: seq<Entry> ::
                |overlaid| == |s.entries[step.entry]| &&
                (forall i :: 0 <= i < |overlaid| ==>
                  IsOverlaid(s.optimisers[step.optimiser].endpoints, s.entries[step.entry][i], overlaid[i])) &&
                t == s.(entries := s.entries + [overlaid])
            else t == s
  {
    hide Run, ByIp, IsOverlaid;
    RunSnoc(settings, steps, step);
    var s := Run(settings, steps);
    if step.entry < |s.entries| && step.optimiser < |s.optimisers| {
      OverlayTakesLast(s.optimisers[step.optimiser].endpoints, s.entries[step.entry]);
    }
  }

  /** The entry keeps its address and takes the weight of the last record of that address, unless
      there is none or its weight is 0. */
  ghost predicate IsOverlaid(endpoints: seq<Endpoint>, before: Entry, after: Entry) {
    after.address == before.address &&
    (forall i :: IsLastAt(Ips(endpoints), before.address, i) ==>
      after.weight == if endpoints[i].weight != 0 then endpoints[i].weight else before.weight) &&
    (before.address !in Ips(endpoints) ==> after.weight == before.weight)
  }

  lemma OverlayTakesLast(endpoints: seq<Endpoint>, entries: seq<Entry>)
    ensures forall i :: 0 <= i < |entries| ==>
              IsOverlaid(endpoints, entries[i], OverlaidEntry(OptimisedWeights(endpoints), entries[i]))
  {
    hide ByIp;
    ByIpIsLast(endpoints);
    ByIpIsKeyed(endpoints);
  }

  /* ---- Creation ---- */

  /** Both objects are created once: the ServiceEntry with weight 1000 for every address of the
      cluster state it was created from, the WeightOptimizer empty. */
  lemma CreationWrites(settings: Settings, steps: seq<Step>, step: Step)
    requires Fits(settings) && (step.CreateEntries? || step.CreateOptimiser?)
    ensures var s, t := Run(settings, steps), Run(settings, steps + [step]);
            if step.CreateEntries? && s.entries == [] && step.cluster < |s.clusters| then
              exists created: seq<Entry> ::
                Addresses(created) == s.clusters[step.cluster] && (forall e :: e in created ==> e.weight == 1000) &&
                t == s.(entries := [created])
            else if step.CreateOptimiser? && s.optimisers == [] then
              t == s.(optimisers := [Version([], s.now, Created)])
            else t == s
  {
    hide Run;
    RunSnoc(settings, steps, step);
    var s := Run(settings, steps);
    if step.CreateEntries? && s.entries == [] && step.cluster < |s.clusters| {
      assert Addresses(InitialEntries(s.clusters[step.cluster])) == s.clusters[step.cluster];
    }
  }
}
