/** The metrics of one optimisation cycle, as the reconciler holds them: a map of pointers
    that is filled from the metrics response and then updated in place. */
module PodMetricsTable {
  import opened Floats
  import opened Ordering
  import opened Weights
  import opened Control

  class PodMetrics {
    const podName: string
    const podAddress: Address
    var average: Float
    var multiplier: Float
    var distance: Float
    var alpha: Float
    var cpuTime: Float

    constructor (podName: string, podAddress: Address, cpuTime: Float)
      ensures this.podName == podName && this.podAddress == podAddress && this.cpuTime == cpuTime
    {
      this.podName, this.podAddress, this.cpuTime := podName, podAddress, cpuTime;
      average, multiplier, distance, alpha := ZERO, ZERO, ZERO, ZERO;
    }

    /** The body of the second loop of `updatePodMetrics`. */
    method Update(cfg: Config, averageCpu: Float)
      modifies this
      ensures cpuTime == (if old(cpuTime) == ZERO then averageCpu else old(cpuTime)) && average == averageCpu
      ensures distance == Sub(cpuTime, averageCpu)
      ensures multiplier == if alpha.NaN? then ONE else Sub(ONE, alpha)
      ensures AsReading() == ReadingOf(cfg, averageCpu, Sample(podName, old(cpuTime)))
    {
      hide Sub, Mul, Div, Abs, Less;
      if cpuTime == ZERO {
        cpuTime := averageCpu;
      }
      var cpuDistance := Sub(cpuTime, averageCpu);
      if Less(Div(Abs(cpuDistance), averageCpu), Fin(cfg.minOptimizeCpuDistancePercent / 100.0)) {
        alpha := ZERO;
      } else {
        alpha := Mul(cpuDistance, Div(Fin(cfg.cpuDistanceMultiplierPercent / 100.0), averageCpu));
      }
      OneLess(alpha);
      multiplier := Sub(ONE, alpha);
      average := averageCpu;
      distance := cpuDistance;
      if multiplier.NaN? {
        multiplier := ONE;
      }
    }

    function AsReading(): Reading
      reads this
    {
      Reading(podName, cpuTime, average, Measured(distance, alpha, multiplier))
    }
  }

  ghost predicate Unaliased(pods: map<Address, PodMetrics>) {
    forall a, b :: a in pods && b in pods && a != b ==> pods[a] != pods[b]
  }

  ghost predicate KeyedByAddress(pods: map<Address, PodMetrics>) {
    forall a :: a in pods ==> pods[a].podAddress == a
  }

  function SamplesOf(pods: map<Address, PodMetrics>): map<Address, Sample>
    reads pods.Values
  {
    map a | a in pods :: Sample(pods[a].podName, pods[a].cpuTime)
  }

  function ReadingsOf(pods: map<Address, PodMetrics>): map<Address, Reading>
    reads pods.Values
  {
    map a | a in pods :: pods[a].AsReading()
  }

  /** First loop of `updatePodMetrics`: the CPU times that are not zero, in walk order. */
  method CollectCpuTimes(pods: map<Address, PodMetrics>) returns (cpuTimes: seq<Float>)
    ensures Mean(cpuTimes) == MeanCpu(SamplesOf(pods))
  {
    hide Busy, Lookup, Mean;
    ghost var cpus := Cpus(SamplesOf(pods));
    cpuTimes := [];
    var rest := pods.Keys;
    ghost var walked: seq<Address> := [];
    BusyNone(cpus);
    while rest != {}
      invariant rest <= pods.Keys
      invariant IsOrderOf(walked, pods.Keys - rest)
      invariant cpuTimes == Busy(Lookup(cpus, walked))
    {
      var a :| a in rest;
      ghost var visited := pods.Keys - rest;
      OrderExtends(walked, visited, a);
      LookupSnoc(cpus, walked, a);
      BusySnoc(Lookup(cpus, walked), cpus[a]);
      if pods[a].cpuTime != ZERO {
        cpuTimes := cpuTimes + [pods[a].cpuTime];
      }
      walked, rest := walked + [a], rest - {a};
      assert pods.Keys - rest == visited + {a};
    }
    assert pods.Keys - rest == cpus.Keys;
    MeanOfAnyWalk(cpus, walked);
  }

  lemma BusyNone(cpus: map<Address, Float>)
    ensures Busy(Lookup(cpus, [])) == []
  {
  }

  lemma {:induction false} BusySnoc(s: seq<Float>, x: Float)
    ensures Busy(s + [x]) == Busy(s) + BusyOne(x)
  {
    if s == [] {
      assert s + [x] == [x];
    } else {
      BusySnoc(s[1..], x);
      assert (s + [x])[1..] == s[1..] + [x];
    }
  }

  method UpdateAll(cfg: Config, pods: map<Address, PodMetrics>, averageCpu: Float)
    requires Unaliased(pods)
    modifies pods.Values
    ensures forall a :: a in pods ==>
              pods[a].AsReading() == ReadingOf(cfg, averageCpu, Sample(pods[a].podName, old(pods[a].cpuTime)))
  {
    hide ReadingOf, PodMetrics.AsReading;
    var rest := pods.Keys;
    while rest != {}
      invariant rest <= pods.Keys
      invariant forall a :: a in rest ==> pods[a].cpuTime == old(pods[a].cpuTime)
      invariant forall a :: a in pods && a !in rest ==>
                  pods[a].AsReading() == ReadingOf(cfg, averageCpu, Sample(pods[a].podName, old(pods[a].cpuTime)))
    {
      var a :| a in rest;
      assert pods[a] in pods.Values;
      pods[a].Update(cfg, averageCpu);
      rest := rest - {a};
    }
  }

  /** `updatePodMetrics`: two walks over the map, each in its own order; every pod ends up
      with the reading that the control law assigns to the samples as they were. */
  method UpdatePodMetrics(cfg: Config, pods: map<Address, PodMetrics>) returns (ok: bool)
    requires Unaliased(pods)
    modifies pods.Values
    ensures ok == (pods != map[])
    ensures ReadingsOf(pods) == if ok then Readings(cfg, old(SamplesOf(pods))) else map[]
  {
    if |pods| == 0 {
      return false;
    }
    ok := true;
    var cpuTimes := CollectCpuTimes(pods);
    hide ReadingOf, PodMetrics.AsReading, Mean, MeanCpu, Readings, Busy, Values, Cpus;
    ghost var samples := SamplesOf(pods);
    UpdateAll(cfg, pods, Mean(cpuTimes));
    SameReadings(ReadingsOf(pods), cfg, samples);
  }

  lemma SameReadings(r: map<Address, Reading>, cfg: Config, samples: map<Address, Sample>)
    requires r.Keys == samples.Keys
    requires forall a :: a in r ==> r[a] == ReadingOf(cfg, MeanCpu(samples), samples[a])
    ensures r == Readings(cfg, samples)
  {
    hide ReadingOf, MeanCpu;
  }

  /* ---- getCPUMetrics: reading the answer of the metrics store ---- */

  /** The text of a value: what strconv.ParseFloat makes of it, if anything. */
  datatype CpuText = Unparsable | Parsed(value: Float)

  datatype CpuResult = CpuResult(pod: string, cpu: CpuText)

  datatype Answer = QueryFailed | Results(results: seq<CpuResult>)

  predicate Readable(answer: Answer) {
    answer.Results? && forall i :: 0 <= i < |answer.results| ==> answer.results[i].cpu.Parsed?
  }

  /** The CPU times by pod name: the last of several results wins. */
  function CpuTimes(results: seq<CpuResult>): map<string, Float>
    requires Readable(Results(results))
  {
    if results == [] then map[]
    else
      var n := |results| - 1;
      CpuTimes(results[..n])[results[n].pod := results[n].cpu.value]
  }

  function PodNames(results: seq<CpuResult>): seq<string> {
    seq(|results|, i requires 0 <= i < |results| => results[i].pod)
  }

  function CpuValues(results: seq<CpuResult>): seq<Float>
    requires Readable(Results(results))
  {
    seq(|results|, i requires 0 <= i < |results| => results[i].cpu.value)
  }

  /** The map holds exactly the reported pods, each with the value of its last result. */
  lemma {:induction false} CpuTimesAreLast(results: seq<CpuResult>)
    requires Readable(Results(results))
    ensures LastWins(CpuTimes(results), PodNames(results), CpuValues(results))
  {
    if results == [] {
      NothingListed<string, Float>();
    } else {
      hide LastWins;
      var front, x := results[..|results| - 1], results[|results| - 1];
      CpuTimesAreLast(front);
      LastWinsSnoc(CpuTimes(front), PodNames(front), CpuValues(front), x.pod, x.cpu.value);
      assert PodNames(results) == PodNames(front) + [x.pod];
      assert CpuValues(results) == CpuValues(front) + [x.cpu.value];
    }
  }

  lemma SomeCpuTimes(results: seq<CpuResult>)
    requires Readable(Results(results)) && results != []
    ensures CpuTimes(results) != map[]
  {
    assert results[|results| - 1].pod in CpuTimes(results);
  }

  /** `getCPUMetrics`: an error if the query failed or some value is not a number. */
  method GetCpuMetrics(answer: Answer) returns (ok: bool, cpu: map<string, Float>)
    ensures ok <==> Readable(answer)
    ensures ok ==> LastWins(cpu, PodNames(answer.results), CpuValues(answer.results))
    ensures ok ==> cpu == CpuTimes(answer.results)
  {
    cpu := map[];
    if answer.QueryFailed? {
      return false, cpu;
    }
    for i := 0 to |answer.results|
      invariant Readable(Results(answer.results[..i])) && cpu == CpuTimes(answer.results[..i])
    {
      if answer.results[i].cpu.Unparsable? {
        return false, map[];
      }
      cpu := cpu[answer.results[i].pod := answer.results[i].cpu.value];
      assert answer.results[..i + 1][..i] == answer.results[..i];
    }
    assert answer.results[..|answer.results|] == answer.results;
    CpuTimesAreLast(answer.results);
    ok := true;
  }

  /* ---- getPodMetrics: joining pods with their CPU times ---- */

  datatype PodInfo = PodInfo(name: string, address: Address)

  /** The address under which a pod name was listed last. */
  function Latest(pods: seq<PodInfo>): map<string, Address> {
    if pods == [] then map[]
    else Latest(pods[..|pods| - 1])[pods[|pods| - 1].name := pods[|pods| - 1].address]
  }

  function Names(pods: seq<PodInfo>): seq<string> {
    seq(|pods|, i requires 0 <= i < |pods| => pods[i].name)
  }

  function PodAddresses(pods: seq<PodInfo>): seq<Address> {
    seq(|pods|, i requires 0 <= i < |pods| => pods[i].address)
  }

  /** The map holds exactly the listed names, each with the address of the last pod of that
      name. */
  lemma {:induction false} LatestIsLast(pods: seq<PodInfo>)
    ensures LastWins(Latest(pods), Names(pods), PodAddresses(pods))
  {
    if pods == [] {
      NothingListed<string, Address>();
    } else {
      hide LastWins;
      var front, x := pods[..|pods| - 1], pods[|pods| - 1];
      LatestIsLast(front);
      LastWinsSnoc(Latest(front), Names(front), PodAddresses(front), x.name, x.address);
      assert Names(pods) == Names(front) + [x.name];
      assert PodAddresses(pods) == PodAddresses(front) + [x.address];
    }
  }

  /** What the loop over the pods builds along one walk over their names: a pod with a CPU
      time overwrites whatever stood at its address. */
  function JoinAlong(latest: map<string, Address>, cpu: map<string, Float>, walk: seq<string>): map<Address, Sample>
    requires forall n :: n in walk ==> n in latest
  {
    if walk == [] then map[]
    else
      var n, before := walk[|walk| - 1], JoinAlong(latest, cpu, walk[..|walk| - 1]);
      if n in cpu then before[latest[n] := Sample(n, cpu[n])] else before
  }

  /** `samples` holds one sample for every address at which some pod has a CPU time, taken
      from such a pod. */
  ghost predicate IsJoin(latest: map<string, Address>, cpu: map<string, Float>, samples: map<Address, Sample>) {
    (forall n :: n in latest && n in cpu ==> latest[n] in samples) &&
    (forall a :: a in samples ==>
      var s := samples[a]; s.name in latest && s.name in cpu && latest[s.name] == a && s.cpu == cpu[s.name])
  }

  /** No two pods with a CPU time share an address. */
  ghost predicate AddressesDistinct(latest: map<string, Address>, cpu: map<string, Float>) {
    forall m, n :: m in latest && n in latest && m in cpu && n in cpu && latest[m] == latest[n] ==> m == n
  }

  lemma JoinSnoc(latest: map<string, Address>, cpu: map<string, Float>, walk: seq<string>, n: string)
    requires n in latest && forall m :: m in walk ==> m in latest
    ensures JoinAlong(latest, cpu, walk + [n])
            == if n in cpu then JoinAlong(latest, cpu, walk)[latest[n] := Sample(n, cpu[n])]
               else JoinAlong(latest, cpu, walk)
  {
    assert (walk + [n])[..|walk|] == walk;
  }

  lemma {:induction false} WalkJoins(latest: map<string, Address>, cpu: map<string, Float>, walk: seq<string>)
    requires forall n :: n in walk ==> n in latest
    ensures var samples := JoinAlong(latest, cpu, walk);
            (forall n :: n in walk && n in cpu ==> latest[n] in samples) &&
            (forall a :: a in samples ==>
              var s := samples[a]; s.name in walk && s.name in cpu && latest[s.name] == a && s.cpu == cpu[s.name])
  {
    if walk != [] {
      var k := |walk| - 1;
      WalkJoins(latest, cpu, walk[..k]);
      assert walk == walk[..k] + [walk[k]];
    }
  }

  /** Whatever the order, the loop computes a join. */
  lemma JoinAlongIsJoin(latest: map<string, Address>, cpu: map<string, Float>, walk: seq<string>)
    requires IsOrderOf(walk, latest.Keys)
    ensures IsJoin(latest, cpu, JoinAlong(latest, cpu, walk))
  {
    WalkJoins(latest, cpu, walk);
  }

  lemma JoinIsUnique(latest: map<string, Address>, cpu: map<string, Float>,
                     s: map<Address, Sample>, t: map<Address, Sample>)
    requires AddressesDistinct(latest, cpu) && IsJoin(latest, cpu, s) && IsJoin(latest, cpu, t)
    ensures s == t
  {
    forall a | a in s ensures a in t && s[a] == t[a] {
      assert latest[s[a].name] in t;
    }
    forall a | a in t ensures a in s {
      assert latest[t[a].name] in s;
    }
  }

  /** Two pods at one address, visited last in either order. */
  lemma OrdersThatDiffer(latest: map<string, Address>, cpu: map<string, Float>, m: string, n: string)
    returns (v: seq<string>, w: seq<string>)
    requires m in latest && n in latest && m in cpu && n in cpu && latest[m] == latest[n] && m != n
    ensures IsOrderOf(v, latest.Keys) && IsOrderOf(w, latest.Keys)
    ensures JoinAlong(latest, cpu, v) != JoinAlong(latest, cpu, w)
  {
    hide JoinAlong;
    var rest := latest.Keys - {m, n};
    var o := Order(rest);
    OrderExtends(o, rest, m);
    OrderExtends(o + [m], rest + {m}, n);
    OrderExtends(o, rest, n);
    OrderExtends(o + [n], rest + {n}, m);
    assert rest + {m} + {n} == rest + {n} + {m} == latest.Keys;
    v, w := o + [m] + [n], o + [n] + [m];
    JoinSnoc(latest, cpu, o + [m], n);
    JoinSnoc(latest, cpu, o + [n], m);
    var a := latest[m];
    assert JoinAlong(latest, cpu, v)[a].name == n && JoinAlong(latest, cpu, w)[a].name == m;
  }

  /** The join depends on the order in which Go walks the pods exactly when two pods with a
      CPU time share an address. */
  lemma JoinIsDeterminate(latest: map<string, Address>, cpu: map<string, Float>)
    ensures (forall v: seq<string>, w: seq<string> :: IsOrderOf(v, latest.Keys) && IsOrderOf(w, latest.Keys) ==>
              JoinAlong(latest, cpu, v) == JoinAlong(latest, cpu, w))
            <==> AddressesDistinct(latest, cpu)
  {
    hide IsJoin, JoinAlong;
    if AddressesDistinct(latest, cpu) {
      forall v: seq<string>, w: seq<string> | IsOrderOf(v, latest.Keys) && IsOrderOf(w, latest.Keys)
        ensures JoinAlong(latest, cpu, v) == JoinAlong(latest, cpu, w)
      {
        JoinAlongIsJoin(latest, cpu, v);
        JoinAlongIsJoin(latest, cpu, w);
        JoinIsUnique(latest, cpu, JoinAlong(latest, cpu, v), JoinAlong(latest, cpu, w));
      }
    } else {
      var m, n :| m in latest && n in latest && m in cpu && n in cpu && latest[m] == latest[n] && m != n;
      var v, w := OrdersThatDiffer(latest, cpu, m, n);
      assert IsOrderOf(v, latest.Keys) && IsOrderOf(w, latest.Keys);
    }
  }

  method IndexByName(podsInfo: seq<PodInfo>) returns (podInfoMap: map<string, Address>)
    ensures LastWins(podInfoMap, Names(podsInfo), PodAddresses(podsInfo))
    ensures podInfoMap == Latest(podsInfo)
  {
    LatestIsLast(podsInfo);
    podInfoMap := map[];
    for i := 0 to |podsInfo|
      invariant podInfoMap == Latest(podsInfo[..i])
    {
      podInfoMap := podInfoMap[podsInfo[i].name := podsInfo[i].address];
      assert podsInfo[..i + 1][..i] == podsInfo[..i];
    }
    assert podsInfo[..|podsInfo|] == podsInfo;
  }

  /** The loop over the pods, in any order: fresh records keyed by their own address, which hold
      the join along the order that was taken. */
  method JoinPods(podInfoMap: map<string, Address>, cpu: map<string, Float>)
    returns (pods: map<Address, PodMetrics>, ghost walk: seq<string>)
    ensures Unaliased(pods) && KeyedByAddress(pods) && forall a :: a in pods ==> fresh(pods[a])
    ensures IsOrderOf(walk, podInfoMap.Keys) && SamplesOf(pods) == JoinAlong(podInfoMap, cpu, walk)
  {
    hide JoinAlong;
    pods, walk := map[], [];
    var rest := podInfoMap.Keys;
    ghost var samples: map<Address, Sample> := map[];
    NothingJoined(podInfoMap, cpu);
    while rest != {}
      invariant rest <= podInfoMap.Keys
      invariant IsOrderOf(walk, podInfoMap.Keys - rest)
      invariant Unaliased(pods) && KeyedByAddress(pods)
      invariant forall a :: a in pods ==> fresh(pods[a])
      invariant samples == SamplesOf(pods) && samples == JoinAlong(podInfoMap, cpu, walk)
    {
      var name :| name in rest;
      var address := podInfoMap[name];
      ghost var visited := podInfoMap.Keys - rest;
      OrderExtends(walk, visited, name);
      JoinSnoc(podInfoMap, cpu, walk, name);
      if name in cpu {
        var p := new PodMetrics(name, address, cpu[name]);
        pods, samples := pods[address := p], samples[address := Sample(name, cpu[name])];
      }
      walk, rest := walk + [name], rest - {name};
      assert podInfoMap.Keys - rest == visited + {name};
    }
    assert podInfoMap.Keys - rest == podInfoMap.Keys;
  }

  lemma NothingJoined(latest: map<string, Address>, cpu: map<string, Float>)
    ensures JoinAlong(latest, cpu, []) == map[]
  {
  }

  /** `getPodMetrics`: an error if the CPU times cannot be read or there are none; otherwise the
      join of the pods, by name, with their CPU times. */
  method GetPodMetrics(podsInfo: seq<PodInfo>, answer: Answer)
    returns (ok: bool, pods: map<Address, PodMetrics>, ghost walk: seq<string>)
    ensures ok <==> Readable(answer) && answer.results != []
    ensures Unaliased(pods) && KeyedByAddress(pods) && forall a :: a in pods ==> fresh(pods[a])
    ensures ok ==>
              IsOrderOf(walk, Latest(podsInfo).Keys) &&
              SamplesOf(pods) == JoinAlong(Latest(podsInfo), CpuTimes(answer.results), walk)
  {
    hide JoinAlong, Latest, LastWins;
    pods, walk := map[], [];
    var cpu;
    ok, cpu := GetCpuMetrics(answer);
    if !ok {
      return;
    }
    if answer.results != [] { SomeCpuTimes(answer.results); }
    if |cpu| == 0 {
      ok := false;
      return;
    }
    var podInfoMap := IndexByName(podsInfo);
    pods, walk := JoinPods(podInfoMap, cpu);
  }
}
