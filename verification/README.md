# Adaptive request weights for Istio: a verified model

The repository runs two cooperating Kubernetes controllers. The *optimiser* reads the CPU time
of every pod of a service, turns it into multipliers, scales and clamps the current weight of
every endpoint, re-centres all weights so that their median lands on the middle of the
configured range, and stores the result in a `WeightOptimizer`. The *ServiceEntry reconciler*
merges the cluster's endpoints into a `ServiceEntry` and overlays the optimiser's weights. The
next optimisation starts from those weights, so the two form a feedback loop.

This project models both controllers in Dafny and proves what the loop keeps, over single
cycles, over runs of cycles, and over every interleaving of the two controllers with stale
reads, version conflicts, rejected writes, endpoint churn and fallbacks.
`dafny verify dfyconfig.toml` checks everything.

## Main results

- **Safety** (`Safety.WeightsStayInRange`): in every run every weight of every version of both
  objects lies between min(300, Min·middle/Max) and max(1000, Max·middle/Min).
- **Fixed point** (`LoopInSystem.SystemFixedPoint`, `ClosedLoop.ClosedLoopFixedPoint`,
  `Settling.ThreeTurnsSettle`): from any state, with Min·middle >= Max and under balanced load,
  every round of cycle and overlay goes through, and from the fourth round on (one earlier for an odd number of addresses)
  the median is the middle, all weights are in [Min, Max] and no entry changes. The fixed points
  are exactly the ServiceEntries of that kind (`ClosedLoop.FixedIffSteady`), for any number of
  addresses.
- **Re-centring** (`Weights.RecentringTheorem`, `Rounding.RoundedRecentringTheorem`): exact for
  odd counts; for even counts a tight window, and the middle exactly under a condition on the
  remainders of the two middle inputs; under binary64 rounding the odd median is the middle or
  one below, and no weight differs from its exact value by more than one.
- **Conservation and direction** (`ControlLaw`): distances cancel, multipliers nearly add up to
  the number of pods, more CPU never earns a larger multiplier (with a gain that is not negative).
- **Memory** (`Memory.OneCycleOfMemory`): in every run, with stale reads, conflicts, rejected
  writes and resets, a cycle's weights are those of a stateless cycle that sees what the writer
  of the version it read measured; every version has exactly one writer.
- **Outcome of every step** (`CycleLaws.CycleOutcome`, module `Writes`): what a cycle stores, from
  its inputs alone, and, over every run, exactly when each kind of write is stored and what it
  appends.
- **Resets** (`Timing.ResetsAreFiveMinutesApart`) and **gauges** (`GaugeTracking`).
- **Convergence** (`ReconcileLaws.ReconcileConvergesInOnePass`) and the exact reach of
  `addressesChanged` (`ReconcileLaws.ChangedIsExactIffNoDup`).

## What the model found

- The NaN guard (weightoptimizer_controller.go:465-467) makes every multiplier 1 when no CPU time
  is usable, but `Alpha` and `Distance` are still NaN. JSON cannot carry NaN, so the write of any
  such cycle that keeps an endpoint fails (`Safety.WritableExactlyWithAMean`, an equivalence;
  `Witnesses.SomeCycleIsNotStored` is a run in which it happens).
- `addressesChanged` is exact if and only if the endpoints list no address twice
  (`ReconcileLaws.ChangedIsExactIffNoDup`).
- Two orders of Go's map walk join pods with CPU times differently if and only if two metered pods
  share an address (`PodMetricsTable.JoinIsDeterminate`).
- A weight of 0, which the overlay reads as "absent", can come out of re-centring if and only if
  Min·middle < Max (`Weights.ZeroWeightPossibleIff`).
- With an even number of endpoints one re-centring can miss the middle: with the default settings
  (middle 350), 100 and 102 end with the median 349, and 100 and 101 with 351
  (`Weights.EvenMedianCanMiss`); when it hits is an equivalence in `Weights.RecentringTheorem`.
  171 and 172 need three cycles (`Settling.TwoTurnsCanMiss`).
- A reset deletes no gauges; when the exported series still match afterwards is
  `GaugeTracking.ResetTracksIff`. A series that is left over stays for good, through all later
  cycles and resets, unless its pod comes back or a version from before is read
  (`GaugeTracking.LeftoverStays`; `Witnesses.SomeSeriesIsLeft` is a run that leaves one).
- Comments that the code contradicts, where the model follows the code: "median is already 1000"
  (weightoptimizer_controller.go:631) means the middle of the range; the bounds "100" and "1995"
  (:678, :682) are the configured ones; "if len(weights) < 5" (serviceentry_controller.go:222)
  depends on the percentile setting.

## How the code is represented

- A float64 is `NaN`, an infinity or a finite real, with exact arithmetic (`Floats`). Module
  `Rounding` treats the two rounded operations of re-centring. A uint32 is an integer below 2^32
  and wraps where the code adds.
- Go's arbitrary map order is an arbitrary choice of the next key in every loop; contracts hold
  for every choice. `sort.Slice` is an in-place sort with its result specified.
- Objects that the code updates through pointers are classes: `PodMetrics`, `WorkloadEntry`,
  `ServiceEntry`, `WeightOptimizer`, `Gauges`.
- In `System` the API server keeps every version of an object. A step may compute on any version,
  and its write is stored only if it read the latest one. This covers in-flight snapshots, stale
  caches and conflicts; a write may also be rejected for no reason. Timestamps are truncated to a
  resolution when stored. A number that JSON cannot carry makes the write fail.
- A `WeightOptimizer` is created empty, as `ensureWeightOptimizer` does by passing no metrics
  (weightoptimizer_controller.go:411), and a `ServiceEntry` is created once, with the fixed weight.
- A *quiet* cycle is one in which every multiplier, stored or freshly measured, is 1. Load is
  *balanced* when every pod is within the tolerance of the mean.
- Clock readings, pod lists, CPU responses and write outcomes are parameters.

## Model

| member | source | states |
|---|---|---|
| Ordering.SortSlice | internal/controller/weightoptimizer_controller.go:654 | the slice is sorted in place; with `SortedSorts` and `SortedIsUnique` the result is the one ascending permutation |
| Ordering.SortedCommutes | internal/controller/weightoptimizer_controller.go:639-654 | sorting commutes with a nondecreasing map, so order statistics of adjusted weights are adjusted order statistics |
| Ordering.WalksAgree | internal/controller/weightoptimizer_controller.go:649-652 | any two walks over a map collect the same multiset of values |
| Weights.CalculateNewWeight | internal/controller/weightoptimizer_controller.go:674-687 | for a finite multiplier of either sign the result is in [Min, Max], at the end that the product reaches or passes, and otherwise the integer part of the product; 0 times an infinity and NaN escape the clamp as 0 |
| Weights.NewWeightIsClamped | internal/controller/weightoptimizer_controller.go:674-687 | the same, for the function that the cycle applies to every weight |
| Weights.CollectValues | internal/controller/weightoptimizer_controller.go:649-652 | the values collected in any order are the map's values as a multiset |
| Weights.GetMedianWeight | internal/controller/weightoptimizer_controller.go:648-671 | the median does not depend on the order in which the map was walked; 0 for an empty map |
| Weights.MedianSplitsInHalves | internal/controller/weightoptimizer_controller.go:656-670 | at most half of the weights lie below the median and at most half above it, and it is within their range, for odd and even counts |
| Weights.AdjustWeightsToMedian | internal/controller/weightoptimizer_controller.go:627-645 | every weight is re-centred, in any map order; unchanged when the median is 0 or already the middle |
| Weights.RecentreIsOneDivision | internal/controller/weightoptimizer_controller.go:636-642 | float quotient, product and truncation equal one integer division, bounded by Min·middle/Max and Max·middle/Min |
| Weights.RecentreMonotone | internal/controller/weightoptimizer_controller.go:639-642 | re-centring keeps the order of weights |
| Weights.RecentreScales | internal/controller/weightoptimizer_controller.go:627-645 | for any weight and median, in range or not: a median of 0 changes nothing, and any other scales the weight by middle/median as long as the result is a uint32 |
| Weights.EvenMedianIsHalfPair | internal/controller/weightoptimizer_controller.go:636-666 | for an even count the new median is half of the two scaled middle elements, whose sum lies in a narrow window and does not wrap |
| Weights.RecentringTheorem | internal/controller/weightoptimizer_controller.go:560-566 | the median of the adjusted weights is exactly the middle for odd counts; for even counts it is in [middle-1, middle+(middle/median)/2] and equals the middle if and only if, with a ≤ b the two middle inputs, a·middle leaves no remainder modulo the median (a+b even), or the middle less the remainders of a·middle and b·middle is 0 or the median (a+b odd) |
| Weights.EvenMedianCanMiss | internal/controller/weightoptimizer_controller.go:636-666 | with the default settings both ends of the window are met: [100,102] gives 349 and [100,101] gives 351, the middle being 350 |
| Weights.SplitSurvives | internal/controller/weightoptimizer_controller.go:627-645 | for any two adjusted weights, w_i·Min < (w_j+1)·Max |
| Weights.RecentredRangeIsTight | internal/controller/weightoptimizer_controller.go:636-641 | the bounds Min·middle/Max and Max·middle/Min are attained by clamped inputs |
| Weights.ZeroWeightPossibleIff | internal/controller/weightoptimizer_controller.go:636-641 | some clamped input is re-centred to 0 if and only if Min·middle < Max |
| Control.MeanOfAnyWalk | internal/controller/weightoptimizer_controller.go:434-440 | the mean of the nonzero CPU times does not depend on the map order, infinities and NaN included |
| Control.MeanIsFinite | internal/controller/weightoptimizer_controller.go:434-440 | the mean is finite if and only if some pod has a CPU time and every CPU time is finite |
| Control.ProperExactlyWithAMean | internal/controller/weightoptimizer_controller.go:445-468 | distance, alpha and multiplier are all finite if and only if the mean is finite and not zero; without a finite mean every multiplier is 1 |
| Control.UnusableCpuAdjustsNothing | internal/controller/weightoptimizer_controller.go:465-467 | all multipliers are 1 when every CPU time is zero or any is NaN or infinite |
| ControlLaw.ReadingsOfCycle | internal/controller/weightoptimizer_controller.go:442-468 | on any finite mean other than 0 every reading of a cycle has alpha = gain·share outside the tolerance and 0 inside, multiplier = 1 - alpha and distance = share·mean, the share being the distance relative to the mean, 0 for a pod without a CPU time (on a negative mean, which no rate has, the code compares the negated share) |
| ControlLaw.MultiplierIsOneLessAlpha | internal/controller/weightoptimizer_controller.go:458-467 | for any CPU time and any mean, the multiplier is 1 less the stored alpha, and 1 if alpha is NaN |
| ControlLaw.NearConservation | internal/controller/weightoptimizer_controller.go:434-468 | all distances add up to 0, and the multipliers to n within (busy pods in the dead band)·gain·tolerance |
| ControlLaw.MultiplierRange | internal/controller/weightoptimizer_controller.go:445-468 | for finite, nonnegative CPU times that are not all 0, every multiplier is a number between 1-(m-1)·gain and 1+gain with m busy pods, the other way round for a negative gain |
| ControlLaw.MoreCpuNoLargerMultiplier | internal/controller/weightoptimizer_controller.go:446-458 | for such CPU times the multiplier does not increase with CPU, also across the dead-band edges, if the gain is not negative, and does not decrease if it is not positive |
| ControlLaw.BalancedAdjustsNothing | internal/controller/weightoptimizer_controller.go:447-453 | when all pods are within the tolerance of the mean, every multiplier is 1 and the mean is a finite number other than 0 |
| PodMetricsTable.PodMetrics.Update | internal/controller/weightoptimizer_controller.go:445-468 | what is written through the pointer is the reading of the sample as it was: CPU time or mean, distance to the mean, and a multiplier that is 1 less the stored alpha, or 1 for a NaN |
| PodMetricsTable.CollectCpuTimes | internal/controller/weightoptimizer_controller.go:434-440 | the mean of what the first loop collects, in any order, is the mean of the samples |
| PodMetricsTable.UpdatePodMetrics | internal/controller/weightoptimizer_controller.go:428-470 | an error without pods; otherwise both map loops, in any order, leave every pod with its reading of the samples before the call |
| PodMetricsTable.GetCpuMetrics | internal/controller/weightoptimizer_controller.go:265-289 | an error exactly when the query failed or some value is not a number; otherwise exactly the reported pods, each with the value of its last result |
| PodMetricsTable.CpuTimesAreLast | internal/controller/weightoptimizer_controller.go:277-287 | the map of CPU times holds exactly the reported pods, each with the value of its last result |
| PodMetricsTable.IndexByName | internal/controller/weightoptimizer_controller.go:243-246 | the map holds exactly the listed names, each with the address of the last pod of that name |
| PodMetricsTable.LatestIsLast | internal/controller/weightoptimizer_controller.go:243-246 | the same, for the map that the join is stated over |
| PodMetricsTable.GetPodMetrics | internal/controller/weightoptimizer_controller.go:232-263 | an error exactly when the CPU times cannot be read or there are none; otherwise fresh, distinct records keyed by their own address, which hold the join along the order in which the pods were walked |
| PodMetricsTable.JoinAlongIsJoin | internal/controller/weightoptimizer_controller.go:250-260 | along any order, the join has one sample for exactly the addresses of metered pods, taken from such a pod |
| PodMetricsTable.JoinIsDeterminate | internal/controller/weightoptimizer_controller.go:250-260 | all orders of the walk join the same samples if and only if no two metered pods share an address |
| Cycle.GetWeightOptimizerMap | internal/controller/weightoptimizer_controller.go:482-488 | the stored endpoints by address, the last record winning |
| Cycle.ByIpIsKeyed | internal/controller/weightoptimizer_controller.go:482-488 | that map holds, under exactly the listed addresses, a listed record with that address |
| Cycle.ByIpIsLast | internal/controller/weightoptimizer_controller.go:482-488 | and that record is the last one listed with the address |
| Cycle.FilterAndScale | internal/controller/weightoptimizer_controller.go:501-538 | in any map order: weights and records for exactly the addresses with metrics that the ServiceEntry has, each once; each weight is the ServiceEntry weight scaled once, by the stored multiplier if there is one and by the fresh one otherwise, and clamped |
| Cycle.CleanupRemoved | internal/controller/weightoptimizer_controller.go:541-555 | exactly the series of stored endpoints that are not kept are deleted |
| Cycle.WriteBack | internal/controller/weightoptimizer_controller.go:568-575 | each record gets its adjusted weight and its fresh measurement, nothing else changes, and every lookup finds its key |
| Cycle.CalculateNewWeights | internal/controller/weightoptimizer_controller.go:490-577 | whatever the order of its map loops, the stored list is one record per kept address of the function of the inputs that `CycleLaws.CycleOutcome` describes |
| Cycle.UpdateMetrics | internal/controller/weightoptimizer_controller.go:689-699 | the series of all endpoints are exported, no others are touched |
| CycleLaws.CycleOutcome | internal/controller/weightoptimizer_controller.go:490-577 | what a cycle stores, from its inputs alone: with m the weights scaled once and clamped, exactly the addresses of m, each with weight m[a]·middle/median(m), the fresh alpha, distance and multiplier, the old name and timestamp of a known endpoint and new ones for a newcomer |
| CycleLaws.ScaledOnceInRange | internal/controller/weightoptimizer_controller.go:533-536 | all of m is in [Min, Max] unless a factor is NaN or an infinite one meets a weight of 0 |
| CycleLaws.CycleRecentres | internal/controller/weightoptimizer_controller.go:533-566 | the re-centring theorem, with its condition for even counts, for the weights of a whole cycle |
| CycleLaws.CycleRange | internal/controller/weightoptimizer_controller.go:533-575 | every weight of a cycle is in [Min·middle/Max, Max·middle/Min] |
| CycleLaws.CycleKeepsSplit | cmd/main.go:96-97 | the ratio of any two weights of a cycle is limited by Max/Min up to truncation |
| CycleLaws.NewWeightMonotone | internal/controller/weightoptimizer_controller.go:674-687 | scaling and clamping keep the order for factors of any sign |
| CycleLaws.CycleKeepsOrder | internal/controller/weightoptimizer_controller.go:533-575 | an endpoint with no larger weight and no larger factor gets no larger weight from the cycle |
| CycleLaws.CycleStoresMeasured | internal/controller/weightoptimizer_controller.go:568-573 | a cycle keeps exactly the addresses with metrics and a ServiceEntry weight and stores what it measured there |
| History.EveryVersionHasOneWriter | internal/controller/weightoptimizer_controller.go:217-221 | in every run every version of the WeightOptimizer was written by exactly one step |
| Memory.StoredIsMeasuredByWriter | internal/controller/weightoptimizer_controller.go:568-573 | in every run the multipliers of a version are exactly those its writer measured for the pods it kept, or 1 for every pod of a reset |
| Memory.OneCycleOfMemory | internal/controller/weightoptimizer_controller.go:515-537 | in every run, whichever version a cycle reads, its weights are those of a cycle without stored state that sees the writer's measurements for the pods the writer kept and its own for all others |
| ServiceEntries.GetServiceEntryWeightMap | internal/controller/weightoptimizer_controller.go:472-480 | the weights by address, the last entry winning |
| ServiceEntries.WeightMapIsLast | internal/controller/weightoptimizer_controller.go:472-480 | the map holds exactly the listed addresses, each with the weight of its last entry |
| ServiceEntries.SumLowest | internal/controller/serviceentry_controller.go:226-229 | adding with wrap-around at every step gives the sum modulo 2^32 |
| ServiceEntries.CreateDefaultWeightForNewEndpoints | internal/controller/serviceentry_controller.go:202-233 | the middle without weights; otherwise the average of the lowest share, independent of the map order, with no index outside the slice |
| ServiceEntries.LowCountInBounds | cmd/main.go:113-116 | a percentile setting of 0 to 100 averages at least one and at most all weights |
| ServiceEntries.NewcomerAveragesLowest | internal/controller/serviceentry_controller.go:218-232 | however the lowest weights are picked out, P percent of them rounded down but at least one, the newcomer weight is their sum in uint32 arithmetic divided by their number, rounded down |
| ServiceEntries.NewcomerBetweenMinimumAndMean | internal/controller/serviceentry_controller.go:219-232 | the newcomer weight is at least the smallest weight and at most the mean |
| ServiceEntries.NewcomerMonotoneInPercentile | internal/controller/serviceentry_controller.go:219-232 | a higher percentile setting never gives a newcomer a smaller weight |
| ServiceEntries.NewcomerSeesOnlyWeights | internal/controller/serviceentry_controller.go:202-233 | the newcomer weight depends only on the multiset of existing weights |
| ServiceEntries.DefaultWeightInRange | internal/controller/serviceentry_controller.go:202-233 | the newcomer weight stays in any range that holds the existing weights and the middle |
| ServiceEntries.AddressesChanged | internal/controller/serviceentry_controller.go:235-252 | true exactly when the lengths differ or some new address is not among the old ones |
| ServiceEntries.FlattenLists | internal/controller/serviceentry_controller.go:133-145 | the merged addresses are those of all subsets, each in its place and nothing else; `FlattenMember`, `FlattenLength`, `FlattenOne` and `FlattenAppend` say the same piece by piece |
| ServiceEntries.MergeEndpoints | internal/controller/serviceentry_controller.go:132-145 | one fresh entry for every address of every subset, in order, with the weight it had or the newcomer weight |
| ServiceEntries.HandleEndpointUpdate | internal/controller/serviceentry_controller.go:122-154 | writes exactly on a detected change, and then the entries list every address of every subset in its place; otherwise nothing is touched |
| ServiceEntries.ValidateAndUpdateWeights | internal/controller/serviceentry_controller.go:177-186 | weights written through entry pointers, even aliased ones, are the overlay of the old contents |
| ServiceEntries.CreateServiceEntry | internal/controller/istioadaptiverequestoptimizer_controller.go:153-162 | the entries list every address of every subset in its place, each with weight 1000 |
| ReconcileLaws.NoChangeIsPermutation | internal/controller/serviceentry_controller.go:235-252 | for endpoints without repetition, "no change" holds if and only if the ServiceEntry has exactly those addresses |
| ReconcileLaws.ChangedIsExactIffNoDup | internal/controller/serviceentry_controller.go:235-252 | the test is exact for every ServiceEntry if and only if the endpoints list no address twice |
| ReconcileLaws.OverlayKeepsAddresses | internal/controller/serviceentry_controller.go:182-186 | the overlay never adds, drops or reorders addresses |
| ReconcileLaws.ReconcileConvergesInOnePass | internal/controller/serviceentry_controller.go:65-92 | merge then overlay, applied twice, equals applied once, even when addresses repeat |
| ReconcileLaws.MergeOutcome | internal/controller/serviceentry_controller.go:122-154 | after a merge of distinct endpoints the addresses are exactly theirs, each with its old weight or the newcomer weight |
| ReconcileLaws.ReconcileOutcome | internal/controller/serviceentry_controller.go:122-186 | after a pass over distinct endpoints the addresses are exactly theirs, and each weight is the optimiser's if there is one and it is not 0, else the old one, else the newcomer weight |
| ReconcileLaws.SentinelIsHarmlessIff | internal/controller/serviceentry_controller.go:183 | the `!= 0` overlay equals "take the optimiser's weight when it has the address" exactly when no listed address is hit by a differing 0 |
| Settling.SettleCentres | internal/controller/weightoptimizer_controller.go:560-566 | a quiet cycle over an odd number of weights puts their median on the middle |
| Settling.SettledOnlyClips | internal/controller/weightoptimizer_controller.go:633-635 | with the median on the middle and an odd count, a quiet cycle only clips the weights and keeps the median |
| Settling.SettledIff | internal/controller/weightoptimizer_controller.go:533-566 | the weights that a quiet cycle leaves alone are exactly those in [Min, Max] with their median on the middle |
| Settling.ThreeTurnsSettle | internal/controller/weightoptimizer_controller.go:533-566 | with Min·middle >= Max, two quiet cycles bring any odd number of weights there, and three any number |
| Settling.TwoTurnsCanMiss | internal/controller/weightoptimizer_controller.go:533-566 | with the default settings 171 and 172 have a median of 349 after two cycles, so three are needed |
| ClosedLoop.FixedIffSteady | internal/controller/weightoptimizer_controller.go:490-577 | a quiet cycle and overlay leave the ServiceEntry, entry by entry, unchanged if and only if it is empty or its median is the middle, its weights are in [Min, Max] and entries of one address agree; for any number of addresses |
| ClosedLoop.ClosedLoopFixedPoint | internal/controller/weightoptimizer_controller.go:490-577 | from the third quiet cycle on the ServiceEntry is such a fixed point and every cycle leaves every entry unchanged; with an odd number of addresses the first cycle centres the median and the second does the rest |
| LoopInSystem.StoredWeights | internal/controller/serviceentry_controller.go:178-181 | what is stored of a cycle, in whatever order and with truncated timestamps, is read back with the cycle's weights |
| LoopInSystem.RoundIsTurn | internal/controller/weightoptimizer_controller.go:217-221 | a cycle and an overlay on the latest versions, with their writes stored, are one turn of the loop up to timestamps |
| LoopInSystem.SystemFixedPoint | internal/controller/weightoptimizer_controller.go:428-577 | from any state, under balanced load, every round is stored, and from the fourth on (the third for an odd number of addresses) no round changes any entry |
| Fallback.ShouldSkipFallback | internal/controller/weightoptimizer_controller.go:366-374 | does not skip if and only if some timestamp, or the first clock reading, is at least five minutes old |
| Fallback.FallbackStrategy | internal/controller/weightoptimizer_controller.go:341-400 | writes if and only if some timestamp or the first clock reading is five minutes old, and then one record per pod, in order, with weight 300 and multiplier 1 |
| Writes.FallBackWrites | internal/controller/weightoptimizer_controller.go:351-398 | over every run, a reset is stored if and only if it was accepted, read the latest version and the oldest timestamp it read is five minutes old; it appends one such record per pod, and otherwise nothing changes |
| Writes.CycleWrites | internal/controller/weightoptimizer_controller.go:217-221 | over every run, a cycle is stored if and only if it is enabled and accepted, read the latest version, and keeps no address or has a finite mean other than 0; otherwise both objects stay |
| Writes.CycleResult | internal/controller/weightoptimizer_controller.go:490-577 | the result of every enabled cycle is one record for each address with metrics and a weight, each the outcome that `CycleLaws.CycleOutcome` describes |
| Writes.CycleGauges | internal/controller/weightoptimizer_controller.go:541-558 | after an enabled cycle, exactly the series of endpoints it read and does not keep are gone, whether it was stored or not, and exactly those of its result are added if it was |
| Writes.MergeWrites | internal/controller/serviceentry_controller.go:122-154 | over every run, a merge is stored if and only if it was accepted, read the latest ServiceEntry and found another number of addresses or an unknown one; otherwise nothing changes |
| Writes.OverlayWrites | internal/controller/serviceentry_controller.go:164-200 | over every run, an overlay is stored if and only if it was accepted and read the latest ServiceEntry; every entry takes the weight of the last record of its address unless there is none or it is 0 |
| Writes.CreationWrites | internal/controller/istioadaptiverequestoptimizer_controller.go:147-162 | both objects are created once: the ServiceEntry with weight 1000 everywhere, the WeightOptimizer empty |
| Reconcilers.OptimisePort | internal/controller/weightoptimizer_controller.go:156-224 | one pass over a port has the effect of the `Optimise` step on endpoints and gauges, falls back exactly when the query failed, a value is unreadable or there is none, and changes nothing on its other exits |
| Reconcilers.ReconcileServiceEntry | internal/controller/serviceentry_controller.go:65-92 | the imperative pass computes merge then overlay; if no address repeats, it ends with exactly the addresses of all subsets, whatever was there |
| Safety.CycleResultIsGood | internal/controller/weightoptimizer_controller.go:533-575 | a cycle result that can be written has weights in range and finite multipliers, whatever the metrics were |
| Safety.WeightsStayInRange | internal/controller/weightoptimizer_controller.go:377-394 | in every run every weight of every version of both objects is in [min(300, Min·middle/Max), max(1000, Max·middle/Min)] |
| Safety.SentinelIsSound | internal/controller/serviceentry_controller.go:177-186 | in every run with Min·middle >= Max the overlay takes the optimiser's weight exactly when the address is present |
| Safety.WritableExactlyWithAMean | internal/controller/weightoptimizer_controller.go:217-221 | a cycle can be stored if and only if no address has both metrics and a weight, or its mean is finite and not zero |
| Witnesses.SomeCycleIsNotStored | internal/controller/weightoptimizer_controller.go:460-468 | a run, under any settings, in which a cycle on an idle pod keeps its endpoint with multiplier 1 and its accepted write stores nothing |
| Timing.CycleNotBefore | internal/controller/weightoptimizer_controller.go:515-537 | no timestamp of a cycle is older than the stored ones and the clock |
| Timing.ResetsAreFiveMinutesApart | internal/controller/weightoptimizer_controller.go:351-394 | two stored resets are decided at least five minutes apart, up to the truncation of stored timestamps, through all cycles in between |
| GaugeTracking.GaugesFollowOptimiser | internal/controller/weightoptimizer_controller.go:541-558 | on every run that stored no reset, skipped and rejected fallbacks and failed writes included, every exported series belongs to a current endpoint |
| GaugeTracking.GaugesExactAfterCycle | internal/controller/weightoptimizer_controller.go:217-224 | on such a run, after a successful cycle the exported series are exactly those of the current endpoints |
| GaugeTracking.ResetTracksIff | internal/controller/weightoptimizer_controller.go:356-398 | after a reset the exported series belong to current endpoints if and only if each is a series of a reset pod |
| GaugeTracking.SeriesOfCycle | internal/controller/weightoptimizer_controller.go:515-530 | every series of a cycle's result is one of the version it read or of a pod it has a sample of |
| GaugeTracking.LeftoverStays | internal/controller/weightoptimizer_controller.go:541-558 | a series that the current version does not list stays exported through any further steps, unless one reads an older version or its pod returns under its address |
| Witnesses.SomeSeriesIsLeft | internal/controller/weightoptimizer_controller.go:341-398 | a run, under any settings, in which a reset leaves such a series |
| Ports.KeyInjective | internal/controller/istioadaptiverequestoptimizer_controller.go:286 | the printed key determines number and protocol, even for a protocol with a slash |
| Ports.ProtocolsAgree | internal/controller/istioadaptiverequestoptimizer_controller.go:304-313 | two protocols are the same if and only if they are in lower case, or each is http, grpc or tcp |
| Ports.SelectedPicks | internal/controller/istioadaptiverequestoptimizer_controller.go:290-298 | the selected ports are those at exactly the positions that some request names by number and protocol, in ascending order |
| Ports.CollectPortsToProcess | internal/controller/istioadaptiverequestoptimizer_controller.go:278-303 | picks, in order, exactly the service ports that some request names by number and protocol; all ports when none is requested |
| Rounding.RoundedIsWithinOne | internal/controller/weightoptimizer_controller.go:636-641 | with both operations rounded as in binary64, every re-centred weight is within one of the exact result and the median is the middle or one below |
| Rounding.RoundedMonotone | internal/controller/weightoptimizer_controller.go:636-641 | rounded re-centring keeps the order of weights |
| Rounding.RoundedRecentringTheorem | internal/controller/weightoptimizer_controller.go:560-566 | in rounded arithmetic the odd median lands on the middle or one below it |

## Left out

- SystemFixedPoint: exact arithmetic; when rounding leaves the median one below the middle, the next cycle re-centres again and the fixed point is not claimed. The condition Min·middle >= Max, which the defaults meet, keeps weights away from the sentinel 0. The same holds for ClosedLoopFixedPoint and FixedIffSteady.
- CalculateNewWeights: products of weights and multipliers, and the control law, are exact reals; only the two operations of re-centring are also treated with rounding.
- WeightsStayInRange: assumes that no uint32 overflows (twice Max, Max·middle/Min, and the largest weight times the number of endpoints are below 2^32) and 0 < Min <= Max; wrap-around itself is modelled in the functions.
- NearConservation: assumes finite, nonnegative CPU times that are not all zero, as a rate has; so do MultiplierRange, MoreCpuNoLargerMultiplier and BalancedAdjustsNothing. When all are 0 or one is not finite, UnusableCpuAdjustsNothing applies; negative CPU times are not covered.
- The values of gauges, in particular the normalised weight, whose denominator adds the weights before the update; only which series exist is modelled.
- ResponseTime, Optimized, StandardDeviation and the service labels of an endpoint: constant or unused by any decision.
- Signed zeros; the conversion of a value outside uint32, which Go leaves to the platform, keeps the low 32 bits, and is 0 for NaN and infinities.
- HTTP and JSON access to the metrics store; its answer (a failure, or a list of pod names and values that may not be numbers) is an arbitrary input.
- The Kubernetes client, informers, finalizers, annotations, events and deletion; users editing the objects by hand; missing objects and labels.
- The endpoint controller: it only triggers merges, which may happen at any time in the transition system.
- Lower-casing of protocol names is a parameter of `Ports`.
- Several ports and services share no state in the model; one ServiceEntry and one WeightOptimizer are modelled.
