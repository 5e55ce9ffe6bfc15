/** The ServiceEntry reconciler: merge the cluster's endpoints, then overlay the weights of
    the WeightOptimizer. */
module ServiceEntries {
  import opened Arithmetic
  import opened Floats
  import opened Ordering
  import opened Weights
  import opened Cycle

  const DEFAULT_WEIGHT_FOR_NEW_ENDPOINTS: Weight := 1000

  datatype Entry = Entry(address: Address, weight: Weight)

  /** The entries as a map by address: the last of several entries wins. */
  function WeightMap(entries: seq<Entry>): map<Address, Weight> {
    if entries == [] then map[]
    else WeightMap(entries[..|entries| - 1])[entries[|entries| - 1].address := entries[|entries| - 1].weight]
  }

  function Addresses(entries: seq<Entry>): seq<Address> {
    seq(|entries|, i requires 0 <= i < |entries| => entries[i].address)
  }

  function EntryWeights(entries: seq<Entry>): seq<Weight> {
    seq(|entries|, i requires 0 <= i < |entries| => entries[i].weight)
  }

  /** The map holds exactly the listed addresses, each with the weight of its last entry. */
  lemma {:induction false} WeightMapIsLast(entries: seq<Entry>)
    ensures LastWins(WeightMap(entries), Addresses(entries), EntryWeights(entries))
  {
    if entries == [] {
      NothingListed<Address, Weight>();
    } else {
      hide LastWins;
      var front, x := entries[..|entries| - 1], entries[|entries| - 1];
      WeightMapIsLast(front);
      LastWinsSnoc(WeightMap(front), Addresses(front), EntryWeights(front), x.address, x.weight);
      assert Addresses(entries) == Addresses(front) + [x.address];
      assert EntryWeights(entries) == EntryWeights(front) + [x.weight];
    }
  }

  /* ---- The addresses of an Endpoints object ---- */

  /** The addresses of all subsets of an Endpoints object, in order. */
  function Flatten(subsets: seq<seq<Address>>): seq<Address> {
    if subsets == [] then [] else Flatten(subsets[..|subsets| - 1]) + subsets[|subsets| - 1]
  }

  function SumLengths(subsets: seq<seq<Address>>): nat {
    if subsets == [] then 0 else SumLengths(subsets[..|subsets| - 1]) + |subsets[|subsets| - 1]|
  }

  /** Address `j` of subset `i` comes after all addresses of earlier subsets and the first `j` of
      its own. */
  ghost predicate InPlace(addresses: seq<Address>, subsets: seq<seq<Address>>, i: nat, j: nat)
    requires i < |subsets| && j < |subsets[i]|
  {
    var place := SumLengths(subsets[..i]) + j;
    place < |addresses| && addresses[place] == subsets[i][j]
  }

  /** `addresses` lists every address of every subset, in its place, and nothing else. */
  ghost predicate ListsSubsets(addresses: seq<Address>, subsets: seq<seq<Address>>) {
    |addresses| == SumLengths(subsets) &&
    (forall a :: a in addresses <==> exists i :: 0 <= i < |subsets| && a in subsets[i]) &&
    forall i: nat, j: nat :: i < |subsets| && j < |subsets[i]| ==> InPlace(addresses, subsets, i, j)
  }

  lemma {:induction false} FlattenLength(subsets: seq<seq<Address>>)
    ensures |Flatten(subsets)| == SumLengths(subsets)
  {
    if subsets != [] { FlattenLength(subsets[..|subsets| - 1]); }
  }

  lemma {:induction false} FlattenMember(subsets: seq<seq<Address>>, a: Address)
    ensures a in Flatten(subsets) <==> exists i :: 0 <= i < |subsets| && a in subsets[i]
  {
    if subsets != [] {
      var n := |subsets| - 1;
      var front := subsets[..n];
      FlattenMember(front, a);
      assert a in Flatten(subsets) <==> a in Flatten(front) || a in subsets[n];
      if i :| 0 <= i < n && a in front[i] { assert a in subsets[i]; }
      if i :| 0 <= i < |subsets| && a in subsets[i] { assert i == n || a in front[i]; }
    }
  }

  lemma {:induction false} FlattenAt(subsets: seq<seq<Address>>, i: nat, j: nat)
    requires i < |subsets| && j < |subsets[i]|
    ensures InPlace(Flatten(subsets), subsets, i, j)
  {
    var n := |subsets| - 1;
    if i < n {
      var front := subsets[..n];
      assert front[..i] == subsets[..i] && front[i] == subsets[i];
      FlattenAt(front, i, j);
    } else {
      FlattenLength(subsets[..n]);
    }
  }

  lemma FlattenLists(subsets: seq<seq<Address>>)
    ensures ListsSubsets(Flatten(subsets), subsets)
  {
    hide Flatten, SumLengths, InPlace;
    FlattenLength(subsets);
    forall a ensures a in Flatten(subsets) <==> exists i :: 0 <= i < |subsets| && a in subsets[i] {
      FlattenMember(subsets, a);
    }
    forall i: nat, j: nat | i < |subsets| && j < |subsets[i]| ensures InPlace(Flatten(subsets), subsets, i, j) {
      FlattenAt(subsets, i, j);
    }
  }

  lemma FlattenOne(x: seq<Address>)
    ensures Flatten([x]) == x
  {
    assert [x][..0] == [];
  }

  lemma {:induction false} FlattenAppend(s: seq<seq<Address>>, t: seq<seq<Address>>)
    ensures Flatten(s + t) == Flatten(s) + Flatten(t)
  {
    if t == [] {
      assert s + t == s;
    } else {
      var n := |t| - 1;
      FlattenAppend(s, t[..n]);
      assert (s + t)[..|s + t| - 1] == s + t[..n];
    }
  }

  /* ---- The weight of a newcomer ---- */

  function Total(s: seq<int>, n: nat): int
    requires n <= |s|
  {
    if n == 0 then 0 else Total(s, n - 1) + s[n - 1]
  }

  /** How many of the lowest weights are averaged. */
  function LowCount(percentile: int, n: nat): int {
    if n * percentile / 100 == 0 then 1 else n * percentile / 100
  }

  /** The flag range that main enforces keeps the loop inside the slice. */
  ghost predicate PercentileInRange(cfg: Config) {
    0 <= cfg.newEndpointsPercentileWeight <= 100
  }

  lemma LowCountInBounds(percentile: int, n: nat)
    requires 0 <= percentile <= 100 && n > 0
    ensures 1 <= LowCount(percentile, n) <= n
  {
    MulMono(0, percentile, n);
    MulMono(percentile, 100, n);
    assert n * percentile <= 100 * n;
  }

  function LowAverage(s: seq<int>, n: nat): Weight
    requires 1 <= n <= |s|
  {
    Average(Wrap(Total(s, n)), n)
  }

  ghost function DefaultWeight(cfg: Config, existing: map<Address, Weight>): Weight
    requires PercentileInRange(cfg)
  {
    if |existing| == 0 then Wrap(cfg.Middle())
    else
      LowCountInBounds(cfg.newEndpointsPercentileWeight, |existing|);
      LowAverage(Sorted(Values(existing)), LowCount(cfg.newEndpointsPercentileWeight, |existing|))
  }

  /** The sum of the lowest weights, in uint32 arithmetic. */
  method SumLowest(weights: array<int>, n: nat) returns (sum: Weight)
    requires n <= weights.Length
    ensures sum == Wrap(Total(weights[..], n))
  {
    sum := 0;
    for i := 0 to n
      invariant sum == Wrap(Total(weights[..], i))
    {
      WrapAdd(Total(weights[..], i), weights[i]);
      sum := Wrap(sum + weights[i]);
    }
  }

  /** `CreateDefaultWeightForNewEndpoints`: the weights are collected in any order, sorted in
      place, and the lowest ones are summed and averaged. */
  method CreateDefaultWeightForNewEndpoints(cfg: Config, existing: map<Address, Weight>) returns (w: Weight)
    requires PercentileInRange(cfg)
    ensures w == DefaultWeight(cfg, existing)
  {
    hide Sorted, Total, Values;
    if |existing| == 0 {
      var middle := cfg.Middle();
      return Wrap(middle);
    }
    var values := CollectValues(existing);
    SortedOfPermutation(values, Values(existing));
    var weights := new int[|values|](i requires 0 <= i < |values| => values[i]);
    assert weights[..] == values;
    SortSlice(weights);
    LowCountInBounds(cfg.newEndpointsPercentileWeight, weights.Length);
    var n := weights.Length * cfg.newEndpointsPercentileWeight / 100;
    if n == 0 {
      n := 1;
    }
    var sum := SumLowest(weights, n);
    w := Average(sum, n);
  }

  /** Which address has which weight does not matter, only the multiset of weights. */
  lemma NewcomerSeesOnlyWeights(cfg: Config, m: map<Address, Weight>, n: map<Address, Weight>)
    requires PercentileInRange(cfg) && multiset(Values(m)) == multiset(Values(n))
    ensures DefaultWeight(cfg, m) == DefaultWeight(cfg, n)
  {
    hide Values, Sorted;
    assert |Values(m)| == |multiset(Values(m))| && |Values(n)| == |multiset(Values(n))|;
    SortedOfPermutation(Values(m), Values(n));
  }

  function Average(sum: Weight, n: int): (w: Weight)
    requires 0 < n
  {
    DivNonneg(sum, n);
    DivAnti(sum, 1, n);
    sum / n
  }

  /** Adding up with wrap-around is adding up and wrapping once. */
  lemma WrapAdd(a: int, b: int)
    ensures Wrap(Wrap(a) + b) == Wrap(a + b)
  {
  }

  lemma {:induction false} TotalBounds(s: seq<int>, n: nat, lo: int, hi: int)
    requires n <= |s| && forall i :: 0 <= i < n ==> lo <= s[i] <= hi
    ensures lo * n <= Total(s, n) <= hi * n
  {
    if n > 0 {
      TotalBounds(s, n - 1, lo, hi);
    }
  }

  /** One more element of a sorted sequence does not lower the mean. */
  lemma PrefixMeanStep(s: seq<int>, n: nat)
    requires IsSorted(s) && n < |s|
    ensures Total(s, n) * (n + 1) <= Total(s, n + 1) * n
  {
    if n > 0 {
      TotalBounds(s, n, s[0], s[n]);
      CrossProducts(Total(s, n), s[n], n);
    }
  }

  lemma CrossProducts(t: int, x: int, n: nat)
    requires t <= x * n
    ensures t * (n + 1) <= (t + x) * n
  {
    assert t * (n + 1) == t * n + t;
    assert (t + x) * n == t * n + x * n;
  }

  lemma CrossTransitive(a: int, b: int, c: int, n: int, m: int, k: int)
    requires 0 < n && 0 < m && 0 < k && a * m <= b * n && b * k <= c * m
    ensures a * k <= c * n
  {
    MulMono(a * m, b * n, k);
    MulMono(b * k, c * m, n);
    SwapFactors(a, m, k);
    SwapFactors(b, n, k);
    SwapFactors(c, m, n);
    Cancel(a * k, c * n, m, a * k * m, c * n * m);
  }

  lemma {:induction false} PrefixMeans(s: seq<int>, n: nat, m: nat)
    requires IsSorted(s) && 1 <= n <= m <= |s|
    ensures Total(s, n) * m <= Total(s, m) * n
  {
    if n < m {
      PrefixMeans(s, n, m - 1);
      PrefixMeanStep(s, m - 1);
      CrossTransitive(Total(s, n), Total(s, m - 1), Total(s, m), n, m - 1, m);
    }
  }

  lemma QuotientsOrdered(a: int, n: int, b: int, m: int)
    requires 0 < n && 0 < m && a * m <= b * n
    ensures a / n <= b / m
  {
    DivMod(a, n);
    DivMod(b, m);
    var p, q := a / n, b / m;
    MulMono(p * n, a, m);
    SwapFactors(p, n, m);
    Cancel(p * m, b, n, p * m * n, b * n);
    SuccProduct(q, m);
    Cancel(p, q + 1, m, p * m, q * m + m);
  }

  /* ---- Which weights are averaged ---- */

  /** `k` of `n` is the share of `percentile` hundredths, rounded down, but at least one. */
  predicate IsShare(k: int, n: int, percentile: int) {
    (k == 1 && n * percentile < 100) || (1 <= k && 100 * k <= n * percentile < 100 * k + 100)
  }

  lemma LowCountIsShare(percentile: int, n: nat, k: int)
    requires 0 <= percentile <= 100 && n > 0
    ensures IsShare(k, n, percentile) <==> k == LowCount(percentile, n)
  {
    var p := n * percentile;
    MulMono(0, percentile, n);
    assert LowCount(percentile, n) == if p / 100 == 0 then 1 else p / 100;
  }

  /** `low` and `high` are the weights of `s`, split so that none of `low` is above any of `high`. */
  ghost predicate Splits(s: seq<int>, low: seq<int>, high: seq<int>) {
    multiset(low + high) == multiset(s) && forall x, y :: x in low && y in high ==> x <= y
  }

  lemma {:induction false} TotalAppend(a: seq<int>, b: seq<int>, n: nat)
    requires n <= |a|
    ensures Total(a + b, n) == Total(a, n)
  {
    if n > 0 { TotalAppend(a, b, n - 1); }
  }

  lemma {:induction false} TotalHead(s: seq<int>, n: nat)
    requires 1 <= n <= |s|
    ensures Total(s, n) == s[0] + Total(s[1..], n - 1)
  {
    if n > 1 { TotalHead(s, n - 1); }
  }

  lemma {:induction false} TotalWithout(s: seq<int>, j: nat)
    requires j < |s|
    ensures Total(s, |s|) == s[j] + Total(Without(s, j), |s| - 1)
  {
    hide Total;
    TotalHead(s, |s|);
    if j == 0 {
      WithoutHead(s);
    } else {
      WithoutTail(s, j);
      TotalWithout(s[1..], j - 1);
      TotalHead(Without(s, j), |s| - 1);
    }
  }

  lemma {:induction false} TotalPermutation(a: seq<int>, b: seq<int>)
    requires multiset(a) == multiset(b)
    ensures |a| == |b| && Total(a, |a|) == Total(b, |b|)
  {
    assert |multiset(a)| == |multiset(b)|;
    if a != [] {
      hide Total;
      var j := SplitAt(a, b);
      TotalPermutation(a[1..], Without(b, j));
      TotalHead(a, |a|);
      TotalWithout(b, j);
    }
  }

  /** The lowest weights, sorted, are a prefix of all weights, sorted. */
  lemma SplitIsPrefix(s: seq<int>, low: seq<int>, high: seq<int>)
    requires Splits(s, low, high)
    ensures Sorted(s) == Sorted(low) + Sorted(high)
  {
    var a, b := Sorted(low), Sorted(high);
    SortedSorts(s);
    SortedSorts(low);
    SortedSorts(high);
    forall i, j | 0 <= i < |a| && 0 <= j < |b| ensures a[i] <= b[j] {
      SortedMember(low, i);
      SortedMember(high, j);
    }
    assert IsSorted(a + b);
    SortedIsUnique(Sorted(s), a + b);
  }

  /** A newcomer gets the average, rounded down, of the lowest share of the weights (in uint32
      arithmetic), however that share is picked out. */
  lemma NewcomerAveragesLowest(cfg: Config, existing: map<Address, Weight>, low: seq<int>, high: seq<int>)
    requires PercentileInRange(cfg) && Splits(Values(existing), low, high)
    requires IsShare(|low|, |existing|, cfg.newEndpointsPercentileWeight)
    ensures var w, sum := DefaultWeight(cfg, existing), Total(low, |low|) % 0x1_0000_0000;
            w * |low| <= sum < w * |low| + |low|
  {
    hide Sorted, Values, Total, Splits;
    SplitLengths(Values(existing), low, high);
    LowCountIsShare(cfg.newEndpointsPercentileWeight, |existing|, |low|);
    SplitIsPrefix(Values(existing), low, high);
    TotalAppend(Sorted(low), Sorted(high), |low|);
    SortedSorts(low);
    TotalPermutation(Sorted(low), low);
    DivMod(Wrap(Total(low, |low|)), |low|);
  }

  lemma SplitLengths(s: seq<int>, low: seq<int>, high: seq<int>)
    requires Splits(s, low, high)
    ensures |low| + |high| == |s|
  {
    assert |multiset(low + high)| == |multiset(s)|;
  }

  /** No sum of the existing weights wraps around. */
  ghost predicate SumsFit(existing: map<Address, Weight>) {
    forall n :: 0 <= n <= |existing| ==> IsWeight(Total(Sorted(Values(existing)), n))
  }

  /** A newcomer starts at or above the smallest existing weight and at or below the mean. */
  lemma NewcomerBetweenMinimumAndMean(cfg: Config, existing: map<Address, Weight>)
    requires PercentileInRange(cfg) && existing != map[] && SumsFit(existing)
    ensures var s, w := Sorted(Values(existing)), DefaultWeight(cfg, existing);
            s[0] <= w <= Total(s, |s|) / |s|
  {
    hide Sorted, Values, LowCount;
    var s, len := Sorted(Values(existing)), |existing|;
    SortedSorts(Values(existing));
    LowCountInBounds(cfg.newEndpointsPercentileWeight, len);
    var n := LowCount(cfg.newEndpointsPercentileWeight, len);
    PrefixMeans(s, 1, n);
    assert Total(s, 0) == 0 && Total(s, 1) == s[0];
    QuotientsOrdered(s[0], 1, Total(s, n), n);
    QuotientIs(s[0], 1, s[0], s[0]);
    PrefixMeans(s, n, len);
    QuotientsOrdered(Total(s, n), n, Total(s, len), len);
    assert Wrap(Total(s, n)) == Total(s, n);
  }

  lemma LowCountMonotone(p: int, q: int, n: nat)
    requires 0 <= p <= q <= 100 && n > 0
    ensures LowCount(p, n) <= LowCount(q, n)
  {
    MulMono(p, q, n);
    DivMono(n * p, n * q, 100);
    LowCountInBounds(q, n);
  }

  /** A higher percentile setting never gives a newcomer less. */
  lemma NewcomerMonotoneInPercentile(low: Config, high: Config, existing: map<Address, Weight>)
    requires PercentileInRange(low) && PercentileInRange(high) && existing != map[] && SumsFit(existing)
    requires low.newEndpointsPercentileWeight <= high.newEndpointsPercentileWeight
    ensures DefaultWeight(low, existing) <= DefaultWeight(high, existing)
  {
    hide Sorted, Values, LowCount;
    var s, len := Sorted(Values(existing)), |existing|;
    SortedSorts(Values(existing));
    LowCountMonotone(low.newEndpointsPercentileWeight, high.newEndpointsPercentileWeight, len);
    LowCountInBounds(low.newEndpointsPercentileWeight, len);
    LowCountInBounds(high.newEndpointsPercentileWeight, len);
    var n := LowCount(low.newEndpointsPercentileWeight, len);
    var m := LowCount(high.newEndpointsPercentileWeight, len);
    PrefixMeans(s, n, m);
    QuotientsOrdered(Total(s, n), n, Total(s, m), m);
  }

  /** A newcomer's weight stays within any range that holds the existing weights. */
  lemma DefaultWeightInRange(cfg: Config, existing: map<Address, Weight>, lo: int, hi: int)
    requires PercentileInRange(cfg) && 0 <= lo <= hi && IsWeight(hi * |existing|)
    requires Within(Values(existing), lo, hi)
    requires lo <= Wrap(cfg.Middle()) <= hi
    ensures lo <= DefaultWeight(cfg, existing) <= hi
  {
    if |existing| != 0 {
      hide Sorted, Values, LowCount;
      var s, n := Sorted(Values(existing)), LowCount(cfg.newEndpointsPercentileWeight, |existing|);
      LowCountInBounds(cfg.newEndpointsPercentileWeight, |existing|);
      SortedWithin(Values(existing), lo, hi);
      TotalBounds(s, n, lo, hi);
      MulMono(0, lo, n);
      MulMono(n, |existing|, hi);
      DivMono(lo * n, Total(s, n), n);
      DivMono(Total(s, n), hi * n, n);
      QuotientIs(lo * n, n, lo, lo * n);
      QuotientIs(hi * n, n, hi, hi * n);
    }
  }

  /* ---- Merging the cluster's endpoints ---- */

  ghost function MergedWeight(cfg: Config, existing: map<Address, Weight>, a: Address): Weight
    requires PercentileInRange(cfg)
  {
    if a in existing then existing[a] else DefaultWeight(cfg, existing)
  }

  ghost function Merged(cfg: Config, entries: seq<Entry>, addresses: seq<Address>): seq<Entry>
    requires PercentileInRange(cfg)
  {
    var existing := WeightMap(entries);
    seq(|addresses|, i requires 0 <= i < |addresses| => Entry(addresses[i], MergedWeight(cfg, existing, addresses[i])))
  }

  predicate Changed(existing: seq<Address>, merged: seq<Address>) {
    |existing| != |merged| || exists i :: 0 <= i < |merged| && merged[i] !in existing
  }

  /** `HandleEndpointUpdate`, when its write goes through. */
  ghost function AfterMerge(cfg: Config, entries: seq<Entry>, addresses: seq<Address>): seq<Entry>
    requires PercentileInRange(cfg)
  {
    if Changed(Addresses(entries), addresses) then Merged(cfg, entries, addresses) else entries
  }

  /* ---- Overlaying the optimiser's weights ---- */

  function OptimisedWeights(endpoints: seq<Endpoint>): map<Address, Weight> {
    var m := ByIp(endpoints);
    map a | a in m :: m[a].weight
  }

  /** A lookup in a Go map: 0 when the key is absent. */
  function Lookup0(weights: map<Address, Weight>, a: Address): Weight {
    if a in weights then weights[a] else 0
  }

  function OverlaidEntry(weights: map<Address, Weight>, e: Entry): Entry {
    if Lookup0(weights, e.address) != 0 then Entry(e.address, weights[e.address]) else e
  }

  function Overlaid(weights: map<Address, Weight>, entries: seq<Entry>): seq<Entry> {
    seq(|entries|, i requires 0 <= i < |entries| => OverlaidEntry(weights, entries[i]))
  }

  /* ---- The reconciler over the objects of the API ---- */

  class WorkloadEntry {
    const address: Address
    var weight: Weight

    constructor (address: Address, weight: Weight)
      ensures this.address == address && this.weight == weight
    {
      this.address, this.weight := address, weight;
    }

    function AsEntry(): Entry
      reads this
    {
      Entry(address, weight)
    }
  }

  function Contents(endpoints: seq<WorkloadEntry>): seq<Entry>
    reads endpoints
  {
    seq(|endpoints|, i requires 0 <= i < |endpoints| reads endpoints => endpoints[i].AsEntry())
  }

  class ServiceEntry {
    var endpoints: seq<WorkloadEntry>

    constructor (endpoints: seq<WorkloadEntry>)
      ensures this.endpoints == endpoints
    {
      this.endpoints := endpoints;
    }
  }

  /** `getServiceEntryWeightMap`, and the same loop in `HandleEndpointUpdate`. */
  method GetServiceEntryWeightMap(endpoints: seq<WorkloadEntry>) returns (m: map<Address, Weight>)
    ensures m == WeightMap(Contents(endpoints))
  {
    m := map[];
    ghost var entries := Contents(endpoints);
    for i := 0 to |endpoints|
      invariant m == WeightMap(entries[..i])
    {
      m := m[endpoints[i].address := endpoints[i].weight];
      assert entries[..i + 1][..i] == entries[..i];
    }
    assert entries[..|endpoints|] == entries;
  }

  /** `addressesChanged`, with its early returns. */
  method AddressesChanged(existing: seq<WorkloadEntry>, merged: seq<WorkloadEntry>) returns (changed: bool)
    ensures changed <==> Changed(Addresses(Contents(existing)), Addresses(Contents(merged)))
  {
    ghost var before, after := Addresses(Contents(existing)), Addresses(Contents(merged));
    if |existing| != |merged| {
      return true;
    }
    var existingAddresses: set<Address> := {};
    for i := 0 to |existing|
      invariant forall a :: a in existingAddresses <==> a in before[..i]
    {
      existingAddresses := existingAddresses + {existing[i].address};
      assert before[..i + 1] == before[..i] + [existing[i].address];
    }
    assert before[..|existing|] == before;
    for i := 0 to |merged|
      invariant forall j :: 0 <= j < i ==> after[j] in before
    {
      assert after[i] == merged[i].address;
      if merged[i].address !in existingAddresses {
        return true;
      }
    }
    return false;
  }

  /** The nested loops of `HandleEndpointUpdate`: one fresh entry for each listed address. */
  method MergeEndpoints(cfg: Config, existing: map<Address, Weight>, averageWeight: Weight,
                        subsets: seq<seq<Address>>) returns (merged: seq<WorkloadEntry>)
    requires PercentileInRange(cfg) && averageWeight == DefaultWeight(cfg, existing)
    ensures forall e :: e in merged ==> fresh(e)
    ensures ListsSubsets(Addresses(Contents(merged)), subsets)
    ensures |merged| == |Flatten(subsets)|
    ensures forall i :: 0 <= i < |merged| ==>
              var a := Flatten(subsets)[i];
              merged[i].address == a && merged[i].weight == MergedWeight(cfg, existing, a)
  {
    hide ListsSubsets;
    FlattenLists(subsets);
    merged := [];
    for i := 0 to |subsets|
      invariant forall e :: e in merged ==> fresh(e)
      invariant |merged| == |Flatten(subsets[..i])|
      invariant forall k :: 0 <= k < |merged| ==>
                  merged[k].address == Flatten(subsets[..i])[k] &&
                  merged[k].weight == MergedWeight(cfg, existing, Flatten(subsets[..i])[k])
    {
      ghost var before := Flatten(subsets[..i]);
      for j := 0 to |subsets[i]|
        invariant forall e :: e in merged ==> fresh(e)
        invariant |merged| == |before| + j
        invariant forall k :: 0 <= k < |merged| ==>
                    merged[k].address == (before + subsets[i][..j])[k] &&
                    merged[k].weight == MergedWeight(cfg, existing, (before + subsets[i][..j])[k])
      {
        var ip := subsets[i][j];
        var weight := if ip in existing then existing[ip] else averageWeight;
        var entry := new WorkloadEntry(ip, weight);
        assert before + subsets[i][..j + 1] == before + subsets[i][..j] + [ip];
        merged := merged + [entry];
      }
      assert subsets[..i + 1][..i] == subsets[..i];
      assert subsets[i][..|subsets[i]|] == subsets[i];
      assert Flatten(subsets[..i + 1]) == before + subsets[i];
    }
    assert subsets[..|subsets|] == subsets;
    assert Addresses(Contents(merged)) == Flatten(subsets);
  }

  /** `HandleEndpointUpdate` on a fetched ServiceEntry: says whether it writes, and what. */
  method HandleEndpointUpdate(cfg: Config, serviceEntry: ServiceEntry, subsets: seq<seq<Address>>)
    returns (write: bool)
    requires PercentileInRange(cfg)
    modifies serviceEntry
    ensures write == Changed(Addresses(old(Contents(serviceEntry.endpoints))), Flatten(subsets))
    ensures write ==> ListsSubsets(Addresses(Contents(serviceEntry.endpoints)), subsets)
    ensures !write ==> serviceEntry.endpoints == old(serviceEntry.endpoints)
    ensures Contents(serviceEntry.endpoints)
            == AfterMerge(cfg, old(Contents(serviceEntry.endpoints)), Flatten(subsets))
    ensures forall e :: e in serviceEntry.endpoints ==> fresh(e) || e in old(serviceEntry.endpoints)
  {
    hide WeightMap, DefaultWeight, Changed, ListsSubsets;
    FlattenLists(subsets);
    ghost var entries := Contents(serviceEntry.endpoints);
    var existingWeights := GetServiceEntryWeightMap(serviceEntry.endpoints);
    var averageWeight := CreateDefaultWeightForNewEndpoints(cfg, existingWeights);
    var merged := MergeEndpoints(cfg, existingWeights, averageWeight, subsets);
    assert Contents(merged) == Merged(cfg, entries, Flatten(subsets));
    assert Addresses(Contents(merged)) == Flatten(subsets);
    write := AddressesChanged(serviceEntry.endpoints, merged);
    if !write {
      return;
    }
    serviceEntry.endpoints := merged;
  }

  /** `ValidateAndUpdateWeights` on a fetched ServiceEntry: weights are written through the
      entry pointers. It holds even if two pointers are the same object. */
  method ValidateAndUpdateWeights(serviceEntry: ServiceEntry, optimised: seq<Endpoint>)
    modifies set e | e in serviceEntry.endpoints
    ensures Contents(serviceEntry.endpoints)
            == Overlaid(OptimisedWeights(optimised), old(Contents(serviceEntry.endpoints)))
  {
    var weightsMap: map<Address, Weight> := map[];
    for i := 0 to |optimised|
      invariant weightsMap == OptimisedWeights(optimised[..i])
    {
      weightsMap := weightsMap[optimised[i].ip := optimised[i].weight];
      assert optimised[..i + 1][..i] == optimised[..i];
    }
    assert optimised[..|optimised|] == optimised;
    hide OptimisedWeights;
    var endpoints := serviceEntry.endpoints;
    for i := 0 to |endpoints|
      invariant forall j :: 0 <= j < |endpoints| ==>
                  endpoints[j].AsEntry() == old(endpoints[j].AsEntry()) ||
                  endpoints[j].AsEntry() == OverlaidEntry(weightsMap, old(endpoints[j].AsEntry()))
      invariant forall j :: 0 <= j < i ==>
                  endpoints[j].AsEntry() == OverlaidEntry(weightsMap, old(endpoints[j].AsEntry()))
    {
      var ep := endpoints[i];
      if Lookup0(weightsMap, ep.address) != 0 {
        ep.weight := weightsMap[ep.address];
      }
    }
    assert forall j :: 0 <= j < |endpoints| ==>
        Contents(endpoints)[j] == OverlaidEntry(weightsMap, old(endpoints[j].AsEntry()));
  }

  /** `createServiceEntry`: every address starts with the same fixed weight. */
  function InitialEntries(addresses: seq<Address>): seq<Entry> {
    seq(|addresses|, i requires 0 <= i < |addresses| => Entry(addresses[i], DEFAULT_WEIGHT_FOR_NEW_ENDPOINTS))
  }

  method CreateServiceEntry(subsets: seq<seq<Address>>) returns (serviceEntry: ServiceEntry)
    ensures ListsSubsets(Addresses(Contents(serviceEntry.endpoints)), subsets)
    ensures forall e :: e in serviceEntry.endpoints ==> e.weight == 1000
    ensures Contents(serviceEntry.endpoints) == InitialEntries(Flatten(subsets))
  {
    hide ListsSubsets;
    FlattenLists(subsets);
    var endpoints: seq<WorkloadEntry> := [];
    for i := 0 to |subsets|
      invariant Contents(endpoints) == InitialEntries(Flatten(subsets[..i]))
    {
      ghost var before := Flatten(subsets[..i]);
      for j := 0 to |subsets[i]|
        invariant Contents(endpoints) == InitialEntries(before + subsets[i][..j])
      {
        var entry := new WorkloadEntry(subsets[i][j], DEFAULT_WEIGHT_FOR_NEW_ENDPOINTS);
        ghost var c := Contents(endpoints);
        endpoints := endpoints + [entry];
        assert Contents(endpoints) == c + [entry.AsEntry()];
        assert before + subsets[i][..j + 1] == before + subsets[i][..j] + [subsets[i][j]];
      }
      assert subsets[..i + 1][..i] == subsets[..i];
      assert subsets[i][..|subsets[i]|] == subsets[i];
      assert Flatten(subsets[..i + 1]) == before + subsets[i];
    }
    assert subsets[..|subsets|] == subsets;
    serviceEntry := new ServiceEntry(endpoints);
    assert Addresses(Contents(endpoints)) == Flatten(subsets);
    forall i | 0 <= i < |endpoints| ensures endpoints[i].weight == 1000 {
      assert Contents(endpoints)[i] == InitialEntries(Flatten(subsets))[i];
    }
  }
}
