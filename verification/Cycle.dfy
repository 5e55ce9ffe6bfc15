/** One optimisation cycle: the readings, the ServiceEntry weights and the stored
    WeightOptimizer endpoints give the next WeightOptimizer endpoints. */
module Cycle {
  import opened Floats
  import opened Ordering
  import opened Weights
  import opened Control
  import opened PodMetricsTable

  /** Nanoseconds on the wall clock. */
  type Time = int

  datatype Endpoint = Endpoint(
    ip: Address,
    name: string,
    weight: Weight,
    multiplier: Float,
    alpha: Float,
    distance: Float,
    lastOptimized: Time
  )

  /** The list as a map by address: the last of several records wins. */
  function ByIp(endpoints: seq<Endpoint>): map<Address, Endpoint> {
    if endpoints == [] then map[]
    else ByIp(endpoints[..|endpoints| - 1])[endpoints[|endpoints| - 1].ip := endpoints[|endpoints| - 1]]
  }

  function Ips(endpoints: seq<Endpoint>): seq<Address> {
    seq(|endpoints|, i requires 0 <= i < |endpoints| => endpoints[i].ip)
  }

  /** `endpoints` lists the records of `m`, one for each address, in some order. */
  ghost predicate Lists(endpoints: seq<Endpoint>, m: map<Address, Endpoint>) {
    IsOrderOf(Ips(endpoints), m.Keys) &&
    forall i :: 0 <= i < |endpoints| ==> endpoints[i].ip in m && endpoints[i] == m[endpoints[i].ip]
  }

  /** The factor of an endpoint: the stored multiplier of a known one, the fresh multiplier
      of a newcomer. */
  function Factor(readings: map<Address, Reading>, stored: map<Address, Endpoint>, a: Address): Float
    requires a in readings
  {
    if a in stored then stored[a].multiplier else readings[a].measured.multiplier
  }

  /** Pods with metrics that the ServiceEntry knows, each with its scaled and clamped weight. */
  function Scaled(cfg: Config, readings: map<Address, Reading>, se: map<Address, Weight>,
                  stored: map<Address, Endpoint>): map<Address, Weight>
  {
    map a | a in readings && a in se :: NewWeight(cfg, se[a], Factor(readings, stored, a))
  }

  /** `m` holds a weight for exactly the addresses with metrics and a ServiceEntry weight: that
      weight, scaled once and clamped. The factor is the multiplier stored for the address, or
      the freshly measured one for a newcomer. */
  ghost predicate ScalesOnce(cfg: Config, readings: map<Address, Reading>, se: map<Address, Weight>,
                             stored: map<Address, Endpoint>, m: map<Address, Weight>)
  {
    m.Keys == readings.Keys * se.Keys &&
    forall a :: a in m ==>
      IsClampedProduct(cfg, se[a], if a in stored then stored[a].multiplier else readings[a].measured.multiplier, m[a])
  }

  lemma ScaledScalesOnce(cfg: Config, readings: map<Address, Reading>, se: map<Address, Weight>,
                         stored: map<Address, Endpoint>)
    requires cfg.Ranged()
    ensures ScalesOnce(cfg, readings, se, stored, Scaled(cfg, readings, se, stored))
  {
    hide NewWeight, IsClampedProduct;
    forall a | a in readings && a in se
      ensures IsClampedProduct(cfg, se[a], Factor(readings, stored, a),
                               NewWeight(cfg, se[a], Factor(readings, stored, a)))
    {
      NewWeightIsClamped(cfg, se[a], Factor(readings, stored, a));
    }
  }

  lemma OnlyOneScales(cfg: Config, readings: map<Address, Reading>, se: map<Address, Weight>,
                      stored: map<Address, Endpoint>, m: map<Address, Weight>, n: map<Address, Weight>)
    requires ScalesOnce(cfg, readings, se, stored, m) && ScalesOnce(cfg, readings, se, stored, n)
    ensures m == n
  {
    hide IsClampedProduct;
    forall a | a in m ensures m[a] == n[a] {
      ClampedProductIsUnique(cfg, se[a], if a in stored then stored[a].multiplier else readings[a].measured.multiplier,
                             m[a], n[a]);
    }
  }

  /** The record an address starts the cycle with. */
  function Base(readings: map<Address, Reading>, se: map<Address, Weight>, stored: map<Address, Endpoint>,
                stamp: Time, a: Address): Endpoint
    requires a in readings && a in se
  {
    if a in stored then stored[a]
    else
      var r := readings[a];
      Endpoint(a, r.name, se[a], r.measured.multiplier, r.measured.alpha, r.measured.distance, stamp)
  }

  function Refreshed(base: Endpoint, weight: Weight, m: Measured): Endpoint {
    base.(weight := weight, multiplier := m.multiplier, alpha := m.alpha, distance := m.distance)
  }

  /** The re-centred weights of a cycle. */
  ghost function CycleWeights(cfg: Config, readings: map<Address, Reading>, se: map<Address, Weight>,
                              stored: map<Address, Endpoint>): map<Address, Weight>
  {
    var scaled := Scaled(cfg, readings, se, stored);
    Adjust(cfg, scaled, MedianWeight(scaled))
  }

  /** The whole cycle, as one function of its inputs; `stamp(a)` is the clock as read when a
      newcomer at `a` is added. */
  ghost function Cycled(cfg: Config, readings: map<Address, Reading>, se: map<Address, Weight>,
                        stored: map<Address, Endpoint>, stamp: Address -> Time): map<Address, Endpoint>
  {
    var weights := CycleWeights(cfg, readings, se, stored);
    map a | a in weights ::
      Refreshed(Base(readings, se, stored, stamp(a), a), weights[a], readings[a].measured)
  }

  /* ---- The imperative cycle ---- */

  class WeightOptimizer {
    var endpoints: seq<Endpoint>

    constructor (endpoints: seq<Endpoint>)
      ensures this.endpoints == endpoints
    {
      this.endpoints := endpoints;
    }
  }

  /** The label sets under which gauges are exported: pod name and address. The service
      labels are the same for all series of one WeightOptimizer. */
  type Series = (string, Address)

  class Gauges {
    var series: set<Series>

    constructor ()
      ensures series == {}
    {
      series := {};
    }
  }

  function SeriesOf(endpoints: seq<Endpoint>): set<Series> {
    set i | 0 <= i < |endpoints| :: (endpoints[i].name, endpoints[i].ip)
  }

  function Dropped(endpoints: seq<Endpoint>, kept: set<Address>): set<Series> {
    set i | 0 <= i < |endpoints| && endpoints[i].ip !in kept :: (endpoints[i].name, endpoints[i].ip)
  }

  /** The series exported after a cycle: those of endpoints that are not kept are deleted in any
      case, those of the new endpoints appear only if the write went through. */
  function GaugesAfter(gauges: set<Series>, stored: seq<Endpoint>, kept: set<Address>,
                       result: seq<Endpoint>, written: bool): set<Series>
  {
    gauges - Dropped(stored, kept) + if written then SeriesOf(result) else {}
  }

  /** `getWeightOptimizerMap`. */
  method GetWeightOptimizerMap(endpoints: seq<Endpoint>) returns (m: map<Address, Endpoint>)
    ensures m == ByIp(endpoints)
  {
    m := map[];
    for i := 0 to |endpoints|
      invariant m == ByIp(endpoints[..i])
    {
      m := m[endpoints[i].ip := endpoints[i]];
      assert endpoints[..i + 1][..i] == endpoints[..i];
    }
    assert endpoints[..|endpoints|] == endpoints;
  }

  lemma {:induction false} ByIpIsKeyed(endpoints: seq<Endpoint>)
    ensures forall a :: a in ByIp(endpoints) ==> ByIp(endpoints)[a].ip == a && ByIp(endpoints)[a] in endpoints
    ensures forall a :: a in ByIp(endpoints) <==> a in Ips(endpoints)
  {
    if endpoints != [] {
      var n := |endpoints| - 1;
      ByIpIsKeyed(endpoints[..n]);
      assert Ips(endpoints) == Ips(endpoints[..n]) + [endpoints[n].ip];
      assert endpoints == endpoints[..n] + [endpoints[n]];
    }
  }

  /** The map holds exactly the listed addresses, each with its last record. */
  lemma {:induction false} ByIpIsLast(endpoints: seq<Endpoint>)
    ensures LastWins(ByIp(endpoints), Ips(endpoints), endpoints)
  {
    if endpoints == [] {
      NothingListed<Address, Endpoint>();
    } else {
      hide LastWins;
      var front, x := endpoints[..|endpoints| - 1], endpoints[|endpoints| - 1];
      ByIpIsLast(front);
      LastWinsSnoc(ByIp(front), Ips(front), front, x.ip, x);
      assert Ips(endpoints) == Ips(front) + [x.ip];
      assert endpoints == front + [x];
    }
  }

  /** The record that an address starts with carries the factor by which its weight is scaled. */
  lemma BaseFactor(readings: map<Address, Reading>, se: map<Address, Weight>, stored: map<Address, Endpoint>,
                   stamp: Time, a: Address)
    requires a in readings && a in se && (a in stored ==> stored[a].ip == a)
    ensures Base(readings, se, stored, stamp, a).multiplier == Factor(readings, stored, a)
    ensures Base(readings, se, stored, stamp, a).ip == a
  {
  }

  /** The stored record of a pod, or a new one. */
  method StartRecord(result: PodMetrics, currentWeight: Weight, stored: map<Address, Endpoint>, stamp: Time,
                     ghost readings: map<Address, Reading>, ghost se: map<Address, Weight>)
    returns (endpoint: Endpoint)
    requires result.podAddress in readings && readings[result.podAddress] == result.AsReading()
    requires result.podAddress in se && se[result.podAddress] == currentWeight
    requires forall a :: a in stored ==> stored[a].ip == a
    ensures endpoint.ip == result.podAddress && endpoint.multiplier == Factor(readings, stored, result.podAddress)
    ensures endpoint == Base(readings, se, stored, stamp, result.podAddress)
  {
    BaseFactor(readings, se, stored, stamp, result.podAddress);
    if result.podAddress in stored {
      endpoint := stored[result.podAddress];
    } else {
      endpoint := Endpoint(result.podAddress, result.podName, currentWeight, result.multiplier, result.alpha,
                           result.distance, stamp);
    }
  }

  /** First loop of `calculateNewWeights`, which walks the metrics in any order. */
  method FilterAndScale(cfg: Config, podsMetrics: map<Address, PodMetrics>, se: map<Address, Weight>,
                        stored: map<Address, Endpoint>, stamp: Address -> Time)
    returns (weightsMap: map<Address, Weight>, filtered: seq<Endpoint>)
    requires KeyedByAddress(podsMetrics)
    requires forall a :: a in stored ==> stored[a].ip == a
    ensures cfg.Ranged() ==> ScalesOnce(cfg, ReadingsOf(podsMetrics), se, stored, weightsMap)
    ensures weightsMap == Scaled(cfg, ReadingsOf(podsMetrics), se, stored)
    ensures weightsMap.Keys == podsMetrics.Keys * se.Keys
    ensures IsOrderOf(Ips(filtered), weightsMap.Keys)
    ensures forall i :: 0 <= i < |filtered| ==>
              var a := filtered[i].ip;
              a in podsMetrics && a in se &&
              filtered[i] == Base(ReadingsOf(podsMetrics), se, stored, stamp(a), a)
  {
    hide NewWeight, Factor, Base, IsClampedProduct, ScalesOnce;
    ghost var readings := ReadingsOf(podsMetrics);
    weightsMap, filtered := map[], [];
    var rest := podsMetrics.Keys;
    while rest != {}
      invariant rest <= podsMetrics.Keys
      invariant weightsMap.Keys == (podsMetrics.Keys - rest) * se.Keys
      invariant forall a :: a in weightsMap ==>
                  weightsMap[a] == NewWeight(cfg, se[a], Factor(readings, stored, a))
      invariant IsOrderOf(Ips(filtered), weightsMap.Keys)
      invariant forall i :: 0 <= i < |filtered| ==>
                  var a := filtered[i].ip;
                  a in readings && a in se && filtered[i] == Base(readings, se, stored, stamp(a), a)
    {
      var key :| key in rest;
      var result := podsMetrics[key];
      var address := result.podAddress;
      if address in se {
        var currentWeight := se[address];
        var endpoint := StartRecord(result, currentWeight, stored, stamp(address), readings, se);
        var updatedWeight := CalculateNewWeight(cfg, currentWeight, endpoint.multiplier);
        OrderExtends(Ips(filtered), weightsMap.Keys, address);
        assert Ips(filtered + [endpoint]) == Ips(filtered) + [address];
        weightsMap := weightsMap[address := updatedWeight];
        filtered := filtered + [endpoint];
      }
      rest := rest - {key};
    }
    assert weightsMap == Scaled(cfg, readings, se, stored);
    if cfg.Ranged() { ScaledScalesOnce(cfg, readings, se, stored); }
  }

  /** Second loop of `calculateNewWeights`: series of endpoints that are not kept go away. */
  method CleanupRemoved(stored: seq<Endpoint>, filtered: seq<Endpoint>, gauges: Gauges, ghost kept: set<Address>)
    requires IsOrderOf(Ips(filtered), kept)
    modifies gauges
    ensures gauges.series == old(gauges.series) - Dropped(stored, kept)
  {
    for i := 0 to |stored|
      invariant gauges.series == old(gauges.series) - Dropped(stored[..i], kept)
    {
      var found := false;
      for j := 0 to |filtered|
        invariant found <==> stored[i].ip in Ips(filtered)[..j]
      {
        assert Ips(filtered)[j] == filtered[j].ip;
        assert Ips(filtered)[..j + 1] == Ips(filtered)[..j] + [filtered[j].ip];
        if stored[i].ip == filtered[j].ip {
          found := true;
          assert stored[i].ip in Ips(filtered);
          break;
        }
      }
      assert Ips(filtered)[..|filtered|] == Ips(filtered);
      DroppedStep(stored, i, kept);
      if !found {
        gauges.series := gauges.series - {(stored[i].name, stored[i].ip)};
      }
    }
    assert stored[..|stored|] == stored;
  }

  lemma DroppedStep(stored: seq<Endpoint>, i: nat, kept: set<Address>)
    requires i < |stored|
    ensures Dropped(stored[..i + 1], kept)
            == Dropped(stored[..i], kept)
               + if stored[i].ip in kept then {} else {(stored[i].name, stored[i].ip)}
  {
    var d := Dropped(stored[..i + 1], kept);
    assert stored[i].ip !in kept ==> (stored[..i + 1][i].name, stored[..i + 1][i].ip) in d;
    forall x | x in Dropped(stored[..i], kept) ensures x in d {
      var j :| 0 <= j < i && stored[..i][j].ip !in kept && x == (stored[..i][j].name, stored[..i][j].ip);
      assert x == (stored[..i + 1][j].name, stored[..i + 1][j].ip);
    }
  }

  /** Last loop of `calculateNewWeights`: the new weight and the fresh measurements are written
      into the records in place. */
  method WriteBack(weightOptimizer: WeightOptimizer, adjusted: map<Address, Weight>,
                   podsMetrics: map<Address, PodMetrics>, ghost readings: map<Address, Reading>)
    requires forall i :: 0 <= i < |weightOptimizer.endpoints| ==>
               weightOptimizer.endpoints[i].ip in adjusted && weightOptimizer.endpoints[i].ip in podsMetrics
    requires readings == ReadingsOf(podsMetrics)
    modifies weightOptimizer
    ensures |weightOptimizer.endpoints| == |old(weightOptimizer.endpoints)|
    ensures forall i :: 0 <= i < |weightOptimizer.endpoints| ==>
              var ep := old(weightOptimizer.endpoints)[i];
              weightOptimizer.endpoints[i] == Refreshed(ep, adjusted[ep.ip], readings[ep.ip].measured)
  {
    for i := 0 to |weightOptimizer.endpoints|
      invariant |weightOptimizer.endpoints| == |old(weightOptimizer.endpoints)|
      invariant forall j :: i <= j < |weightOptimizer.endpoints| ==>
                  weightOptimizer.endpoints[j] == old(weightOptimizer.endpoints)[j]
      invariant forall j :: 0 <= j < i ==>
                  var ep := old(weightOptimizer.endpoints)[j];
                  weightOptimizer.endpoints[j] == Refreshed(ep, adjusted[ep.ip], readings[ep.ip].measured)
    {
      var ep := weightOptimizer.endpoints[i];
      var pod := podsMetrics[ep.ip];
      assert readings[ep.ip] == pod.AsReading();
      var updated := ep.(weight := adjusted[ep.ip]);
      updated := updated.(multiplier := pod.multiplier);
      updated := updated.(alpha := pod.alpha);
      updated := updated.(distance := pod.distance);
      weightOptimizer.endpoints := weightOptimizer.endpoints[i := updated];
    }
  }

  lemma WriteBackLists(cfg: Config, readings: map<Address, Reading>, se: map<Address, Weight>,
                       stored: map<Address, Endpoint>, stamp: Address -> Time,
                       filtered: seq<Endpoint>, result: seq<Endpoint>)
    requires IsOrderOf(Ips(filtered), Scaled(cfg, readings, se, stored).Keys)
    requires |result| == |filtered|
    requires forall i :: 0 <= i < |filtered| ==>
               var a := filtered[i].ip;
               a in readings && a in se && filtered[i] == Base(readings, se, stored, stamp(a), a) &&
               a in CycleWeights(cfg, readings, se, stored) &&
               result[i] == Refreshed(filtered[i], CycleWeights(cfg, readings, se, stored)[a], readings[a].measured)
    ensures Lists(result, Cycled(cfg, readings, se, stored, stamp))
  {
    hide NewWeight, Factor, Base, MedianWeight, Recentre;
    assert Ips(result) == Ips(filtered);
    assert Cycled(cfg, readings, se, stored, stamp).Keys == Scaled(cfg, readings, se, stored).Keys;
  }

  /** `calculateNewWeights`: whatever the order of its map walks, it lists exactly the records
      of `Cycled`, one for each address that has metrics and is in the ServiceEntry. */
  method CalculateNewWeights(cfg: Config, podsMetrics: map<Address, PodMetrics>, se: map<Address, Weight>,
                             weightOptimizer: WeightOptimizer, gauges: Gauges, stamp: Address -> Time)
    requires KeyedByAddress(podsMetrics)
    modifies weightOptimizer, gauges
    ensures Lists(weightOptimizer.endpoints,
                  Cycled(cfg, old(ReadingsOf(podsMetrics)), se, ByIp(old(weightOptimizer.endpoints)), stamp))
    ensures gauges.series
            == old(gauges.series) - Dropped(old(weightOptimizer.endpoints), podsMetrics.Keys * se.Keys)
  {
    hide ByIp, Dropped, Base, MedianWeight, Adjust, Cycled, NewWeight, Factor, Lists, Refreshed, Scaled;
    var stored := weightOptimizer.endpoints;
    ghost var readings := ReadingsOf(podsMetrics);
    var storedMap := GetWeightOptimizerMap(stored);
    ByIpIsKeyed(stored);
    var weightsMap, filtered := FilterAndScale(cfg, podsMetrics, se, storedMap, stamp);
    CleanupRemoved(stored, filtered, gauges, weightsMap.Keys);
    weightOptimizer.endpoints := filtered;
    var medianWeight := GetMedianWeight(weightsMap);
    var adjusted := AdjustWeightsToMedian(cfg, weightsMap, medianWeight);
    AdjustKeys(cfg, weightsMap, medianWeight);
    forall i | 0 <= i < |filtered| ensures filtered[i].ip in adjusted {
      assert Ips(filtered)[i] == filtered[i].ip;
    }
    WriteBack(weightOptimizer, adjusted, podsMetrics, readings);
    WriteBackLists(cfg, readings, se, storedMap, stamp, filtered, weightOptimizer.endpoints);
  }

  lemma AdjustKeys(cfg: Config, weights: map<Address, Weight>, median: Weight)
    ensures Adjust(cfg, weights, median).Keys == weights.Keys
  {
  }

  /** `updateMetrics`: every endpoint exports its series. */
  method UpdateMetrics(endpoints: seq<Endpoint>, gauges: Gauges)
    modifies gauges
    ensures gauges.series == old(gauges.series) + SeriesOf(endpoints)
  {
    for i := 0 to |endpoints|
      invariant gauges.series == old(gauges.series) + SeriesOf(endpoints[..i])
    {
      gauges.series := gauges.series + {(endpoints[i].name, endpoints[i].ip)};
      SeriesStep(endpoints, i);
    }
    assert endpoints[..|endpoints|] == endpoints;
  }

  lemma SeriesStep(endpoints: seq<Endpoint>, i: nat)
    requires i < |endpoints|
    ensures SeriesOf(endpoints[..i + 1])
            == SeriesOf(endpoints[..i]) + {(endpoints[i].name, endpoints[i].ip)}
  {
    assert endpoints[..i + 1][i] == endpoints[i];
    forall x | x in SeriesOf(endpoints[..i]) ensures x in SeriesOf(endpoints[..i + 1]) {
      var j :| 0 <= j < i && x == (endpoints[..i][j].name, endpoints[..i][j].ip);
      assert x == (endpoints[..i + 1][j].name, endpoints[..i + 1][j].ip);
    }
  }
}
