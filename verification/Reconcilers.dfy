/** One pass of each reconciler for one port, put together from its parts, and tied to the
    steps of the transition system. */
module Reconcilers {
  import opened Ordering
  import opened Weights
  import opened Control
  import opened PodMetricsTable
  import opened Cycle
  import opened ServiceEntries
  import opened ReconcileLaws
  import opened Fallback
  import opened System

  /** How a pass over one port ends: nothing to do, a fallback (which may be skipped), or new
      endpoints to store. */
  datatype Outcome = NoEndpoints | FellBack(write: bool) | NoMetrics | Computed

  /** The optimiser's pass over one port, on fetched objects. A failed query, an unreadable value
      or an empty response leads to the fallback. Otherwise the pass does what step `Optimise`
      of the transition system does, with the samples that some walk over the pods joins: the
      same endpoints up to their order, and the same gauges before and after the write. */
  method OptimisePort(cfg: Config, serviceEntry: seq<WorkloadEntry>, podsInfo: seq<PodInfo>, answer: Answer,
                      weightOptimizer: WeightOptimizer, gauges: Gauges, stamp: Address -> Time,
                      first: Time, second: Time, stamps: seq<Time>, accepted: bool)
    returns (outcome: Outcome, ghost walk: seq<string>, ghost samples: map<Address, Sample>)
    requires |podsInfo| == |stamps|
    modifies weightOptimizer, gauges
    ensures outcome.NoEndpoints? <==> serviceEntry == []
    ensures outcome.FellBack? <==> serviceEntry != [] && !(Readable(answer) && answer.results != [])
    ensures outcome.FellBack? ==>
              outcome.write == !ShouldSkip(old(weightOptimizer.endpoints), first, second) &&
              gauges.series == old(gauges.series) &&
              weightOptimizer.endpoints
              == if outcome.write then ResetRecords(podsInfo, stamps) else old(weightOptimizer.endpoints)
    ensures outcome.NoMetrics? || outcome.Computed? ==>
              Readable(answer) && IsOrderOf(walk, Latest(podsInfo).Keys) &&
              samples == JoinAlong(Latest(podsInfo), CpuTimes(answer.results), walk) &&
              (outcome.NoMetrics? <==> samples == map[])
    ensures outcome.NoEndpoints? || outcome.NoMetrics? ==>
              gauges.series == old(gauges.series) && weightOptimizer.endpoints == old(weightOptimizer.endpoints)
    ensures outcome.Computed? ==>
              var se := WeightMap(old(Contents(serviceEntry)));
              Lists(weightOptimizer.endpoints,
                    Cycled(cfg, Readings(cfg, samples), se, ByIp(old(weightOptimizer.endpoints)), stamp)) &&
              gauges.series
              == GaugesAfter(old(gauges.series), old(weightOptimizer.endpoints), samples.Keys * se.Keys,
                             weightOptimizer.endpoints, accepted && Encodable(weightOptimizer.endpoints))
  {
    hide JoinAlong, Latest, WeightMap, Lists, Cycled, ByIp, Dropped, SeriesOf, Readings, ResetRecords, ShouldSkip,
      Encodable;
    samples, walk := map[], [];
    var se := GetServiceEntryWeightMap(serviceEntry);
    if |serviceEntry| == 0 {
      outcome := NoEndpoints;
      return;
    }
    var ok, pods;
    ok, pods, walk := GetPodMetrics(podsInfo, answer);
    if !ok {
      var write := FallbackStrategy(weightOptimizer, podsInfo, first, second, stamps);
      outcome := FellBack(write);
      return;
    }
    samples := SamplesOf(pods);
    assert samples.Keys == pods.Keys;
    ok := UpdatePodMetrics(cfg, pods);
    if !ok {
      outcome := NoMetrics;
      return;
    }
    CalculateNewWeights(cfg, pods, se, weightOptimizer, gauges, stamp);
    if accepted && Encodable(weightOptimizer.endpoints) {
      UpdateMetrics(weightOptimizer.endpoints, gauges);
    }
    outcome := Computed;
  }

  lemma ReconciledIs(cfg: Config, entries: seq<Entry>, addresses: seq<Address>, optimiser: Optimiser)
    requires PercentileInRange(cfg)
    ensures var merged := AfterMerge(cfg, entries, addresses);
            Reconciled(cfg, entries, addresses, optimiser)
            == if optimiser.Absent? then merged else Overlaid(OptimisedWeights(optimiser.endpoints), merged)
  {
    hide AfterMerge, Overlaid, OptimisedWeights;
  }

  /** If no address repeats, a pass ends with the addresses of the subsets, whatever was there. */
  lemma AddressesAfter(cfg: Config, entries: seq<Entry>, subsets: seq<seq<Address>>, optimiser: Optimiser)
    requires PercentileInRange(cfg) && NoDup(Flatten(subsets))
    ensures forall a :: a in Addresses(Reconciled(cfg, entries, Flatten(subsets), optimiser)) <==>
              exists i :: 0 <= i < |subsets| && a in subsets[i]
  {
    hide Reconciled, Addresses, Flatten, OptimisedWeights, DefaultWeight, WeightMap;
    ReconcileOutcome(cfg, entries, Flatten(subsets), optimiser);
    var after := Addresses(Reconciled(cfg, entries, Flatten(subsets), optimiser));
    forall a ensures a in after <==> exists i :: 0 <= i < |subsets| && a in subsets[i] {
      FlattenMember(subsets, a);
      assert a in after <==> a in multiset(after);
      assert a in Flatten(subsets) <==> a in multiset(Flatten(subsets));
    }
  }

  /** The ServiceEntry reconciler's pass, with its writes accepted. */
  method ReconcileServiceEntry(cfg: Config, serviceEntry: ServiceEntry, subsets: seq<seq<Address>>,
                               optimiser: Optimiser)
    requires PercentileInRange(cfg)
    modifies serviceEntry, set e | e in serviceEntry.endpoints
    ensures Contents(serviceEntry.endpoints)
            == Reconciled(cfg, old(Contents(serviceEntry.endpoints)), Flatten(subsets), optimiser)
    ensures NoDup(Flatten(subsets)) ==>
              forall a :: a in Addresses(Contents(serviceEntry.endpoints)) <==>
                exists i :: 0 <= i < |subsets| && a in subsets[i]
  {
    hide AfterMerge, Overlaid, OptimisedWeights, Reconciled;
    if NoDup(Flatten(subsets)) {
      AddressesAfter(cfg, Contents(serviceEntry.endpoints), subsets, optimiser);
    }
    ReconciledIs(cfg, Contents(serviceEntry.endpoints), Flatten(subsets), optimiser);
    var write := HandleEndpointUpdate(cfg, serviceEntry, subsets);
    assert forall e :: e in serviceEntry.endpoints ==> fresh(e) || e in old(serviceEntry.endpoints);
    match optimiser
    case Absent =>
    case Present(endpoints) => ValidateAndUpdateWeights(serviceEntry, endpoints);
  }
}
