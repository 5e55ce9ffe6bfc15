/** The fallback of the WeightOptimizer reconciler: without metrics, and unless some weights
    were optimised in the last five minutes, every pod is reset to a fixed weight. */
module Fallback {
  import opened Floats
  import opened PodMetricsTable
  import opened Cycle

  const FIVE_MINUTES: Time := 300_000_000_000
  const RESET_WEIGHT: Weight := 300

  /** `shouldSkipFallback` reads the clock twice: `first` starts the search for the oldest
      timestamp, `second` measures its age. */
  predicate ShouldSkip(endpoints: seq<Endpoint>, first: Time, second: Time) {
    second - first < FIVE_MINUTES &&
    forall i :: 0 <= i < |endpoints| ==> second - endpoints[i].lastOptimized < FIVE_MINUTES
  }

  /** Five minutes, in nanoseconds, have passed since the first look at the clock or since some
      endpoint was optimised: since the oldest of them all. */
  ghost predicate Overdue(endpoints: seq<Endpoint>, first: Time, second: Time) {
    second - first >= 300_000_000_000 ||
    exists i :: 0 <= i < |endpoints| && second - endpoints[i].lastOptimized >= 300_000_000_000
  }

  lemma SkipsUnlessOverdue(endpoints: seq<Endpoint>, first: Time, second: Time)
    ensures ShouldSkip(endpoints, first, second) <==> !Overdue(endpoints, first, second)
  {
  }

  method ShouldSkipFallback(endpoints: seq<Endpoint>, first: Time, second: Time) returns (skip: bool)
    ensures skip <==> !Overdue(endpoints, first, second)
    ensures skip == ShouldSkip(endpoints, first, second)
  {
    var oldest := first;
    for i := 0 to |endpoints|
      invariant oldest <= first && forall j :: 0 <= j < i ==> oldest <= endpoints[j].lastOptimized
      invariant oldest == first || exists j :: 0 <= j < i && oldest == endpoints[j].lastOptimized
    {
      if endpoints[i].lastOptimized < oldest {
        oldest := endpoints[i].lastOptimized;
      }
    }
    skip := second - oldest < FIVE_MINUTES;
  }

  function ResetRecord(pod: PodInfo, stamp: Time): Endpoint {
    Endpoint(pod.address, pod.name, RESET_WEIGHT, ONE, ZERO, ZERO, stamp)
  }

  function ResetRecords(pods: seq<PodInfo>, stamps: seq<Time>): seq<Endpoint>
    requires |pods| == |stamps|
  {
    seq(|pods|, i requires 0 <= i < |pods| => ResetRecord(pods[i], stamps[i]))
  }

  /** One record per pod, in order, with the fixed weight 300 and the multiplier 1. */
  ghost predicate IsReset(pods: seq<PodInfo>, stamps: seq<Time>, endpoints: seq<Endpoint>) {
    |endpoints| == |pods| == |stamps| &&
    forall i :: 0 <= i < |pods| ==>
      endpoints[i] == Endpoint(pods[i].address, pods[i].name, 300, Fin(1.0), Fin(0.0), Fin(0.0), stamps[i])
  }

  lemma ResetRecordsReset(pods: seq<PodInfo>, stamps: seq<Time>)
    requires |pods| == |stamps|
    ensures IsReset(pods, stamps, ResetRecords(pods, stamps))
  {
  }

  /** `fallbackStrategy` on a fetched WeightOptimizer, up to the write. */
  method FallbackStrategy(weightOptimizer: WeightOptimizer, pods: seq<PodInfo>,
                          first: Time, second: Time, stamps: seq<Time>) returns (write: bool)
    requires |pods| == |stamps|
    modifies weightOptimizer
    ensures write <==> Overdue(old(weightOptimizer.endpoints), first, second)
    ensures write ==> IsReset(pods, stamps, weightOptimizer.endpoints)
    ensures write == !ShouldSkip(old(weightOptimizer.endpoints), first, second)
    ensures weightOptimizer.endpoints
            == if write then ResetRecords(pods, stamps) else old(weightOptimizer.endpoints)
  {
    ResetRecordsReset(pods, stamps);
    var skip := ShouldSkipFallback(weightOptimizer.endpoints, first, second);
    if skip {
      return false;
    }
    write := true;
    weightOptimizer.endpoints := [];
    for i := 0 to |pods|
      invariant weightOptimizer.endpoints == ResetRecords(pods[..i], stamps[..i])
    {
      weightOptimizer.endpoints := weightOptimizer.endpoints + [ResetRecord(pods[i], stamps[i])];
    }
    assert pods[..|pods|] == pods && stamps[..|pods|] == stamps;
  }
}
