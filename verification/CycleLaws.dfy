/** What one optimisation cycle guarantees about the weights. */
module CycleLaws {
  import opened Floats
  import opened Ordering
  import opened Weights
  import opened Control
  import opened Cycle

  /** No product of the cycle is NaN: every factor is a number, and an infinite one meets a
      positive weight. */
  ghost predicate Driven(readings: map<Address, Reading>, se: map<Address, Weight>, stored: map<Address, Endpoint>) {
    forall a :: a in readings && a in se ==>
      var f := Factor(readings, stored, a); f.Fin? || (!f.NaN? && se[a] != 0)
  }

  ghost predicate WithinMap(m: map<Address, Weight>, lo: int, hi: int) {
    forall a :: a in m ==> lo <= m[a] <= hi
  }

  lemma ScaledInRange(cfg: Config, readings: map<Address, Reading>, se: map<Address, Weight>,
                      stored: map<Address, Endpoint>)
    requires cfg.Ranged() && Driven(readings, se, stored)
    ensures WithinMap(Scaled(cfg, readings, se, stored), cfg.minimumWeight, cfg.maximumWeight)
  {
    hide NewWeight, Factor;
    forall a | a in readings && a in se
      ensures cfg.minimumWeight <= NewWeight(cfg, se[a], Factor(readings, stored, a)) <= cfg.maximumWeight
    {
      NewWeightIsClamped(cfg, se[a], Factor(readings, stored, a));
    }
  }

  lemma ValuesWithin(m: map<Address, Weight>, lo: int, hi: int)
    requires WithinMap(m, lo, hi)
    ensures Within(Values(m), lo, hi)
  {
    forall i | 0 <= i < |Values(m)| ensures lo <= Values(m)[i] <= hi {
      assert Order(m.Keys)[i] in Order(m.Keys);
    }
  }

  /** Where an address sits on the walk. */
  lemma PlaceOf(m: map<Address, Weight>, a: Address) returns (i: nat)
    requires a in m
    ensures i < |Values(m)| && Values(m)[i] == m[a]
    ensures Order(m.Keys)[i] == a
  {
    assert a in Order(m.Keys);
    i :| 0 <= i < |Order(m.Keys)| && Order(m.Keys)[i] == a;
  }

  /** The re-centred map, along the walk, is the re-centred sequence. */
  lemma AdjustAlong(cfg: Config, m: map<Address, Weight>)
    ensures Values(Adjust(cfg, m, MedianWeight(m))) == Recentred(cfg, Values(m))
  {
    hide Recentre, Median;
    var n := Adjust(cfg, m, MedianWeight(m));
    assert n.Keys == m.Keys;
    var s, ks := Values(m), Order(m.Keys);
    assert Values(n) == Lookup(n, ks);
    forall i | 0 <= i < |s| ensures Values(n)[i] == Recentred(cfg, s)[i] {
      assert ks[i] in ks;
      assert n[ks[i]] == Recentre(cfg, m[ks[i]], Median(s));
      assert Wrap(s[i]) == s[i];
    }
  }

  /** The re-centring theorem for a cycle. */
  lemma CycleRecentres(cfg: Config, readings: map<Address, Reading>, se: map<Address, Weight>,
                       stored: map<Address, Endpoint>)
    requires cfg.Sane() && Driven(readings, se, stored)
    requires Scaled(cfg, readings, se, stored) != map[]
    ensures var scaled := Scaled(cfg, readings, se, stored);
            var m := MedianWeight(CycleWeights(cfg, readings, se, stored));
            if |scaled| % 2 == 1 then m == cfg.Middle()
            else
              var h, t := |scaled| / 2, Sorted(Values(scaled));
              1 <= t[h - 1] <= t[h] && (t[h - 1] + t[h]) / 2 == MedianWeight(scaled) &&
              cfg.Middle() - 1 <= m <= cfg.Middle() + cfg.Middle() / MedianWeight(scaled) / 2 &&
              (m == cfg.Middle() <==> MiddlesLand(t[h - 1], t[h], cfg.Middle()))
  {
    hide NewWeight, Factor, Median, Recentred, Adjust, MiddlesLand, Sorted, Scaled, Config.Middle, Values;
    var scaled := Scaled(cfg, readings, se, stored);
    ScaledInRange(cfg, readings, se, stored);
    ValuesWithin(scaled, cfg.minimumWeight, cfg.maximumWeight);
    AdjustAlong(cfg, scaled);
    assert |Values(scaled)| == |scaled|;
    RecentringTheorem(cfg, Values(scaled));
  }

  /** Every weight a cycle produces lies between the least and the greatest re-centred weight. */
  lemma CycleRange(cfg: Config, readings: map<Address, Reading>, se: map<Address, Weight>,
                   stored: map<Address, Endpoint>)
    requires cfg.Sane() && Driven(readings, se, stored)
    ensures WithinMap(CycleWeights(cfg, readings, se, stored), cfg.Least(), cfg.Greatest())
  {
    hide NewWeight, Factor, Median, Recentre, Config.Least, Config.Greatest;
    var scaled := Scaled(cfg, readings, se, stored);
    ScaledInRange(cfg, readings, se, stored);
    ValuesWithin(scaled, cfg.minimumWeight, cfg.maximumWeight);
    forall a | a in scaled
      ensures cfg.Least() <= Recentre(cfg, scaled[a], MedianWeight(scaled)) <= cfg.Greatest()
    {
      var i := PlaceOf(scaled, a);
      SaneIsRanged(cfg);
      MedianRank(Values(scaled), cfg.minimumWeight, cfg.maximumWeight);
      RecentreIsOneDivision(cfg, scaled[a], MedianWeight(scaled));
    }
  }

  lemma CycleWeightsKeys(cfg: Config, readings: map<Address, Reading>, se: map<Address, Weight>,
                         stored: map<Address, Endpoint>)
    ensures CycleWeights(cfg, readings, se, stored).Keys == readings.Keys * se.Keys
  {
    hide NewWeight, Factor, MedianWeight, Recentre;
    assert Scaled(cfg, readings, se, stored).Keys == readings.Keys * se.Keys;
  }

  lemma CycleIsAdjusted(cfg: Config, readings: map<Address, Reading>, se: map<Address, Weight>,
                        stored: map<Address, Endpoint>)
    ensures var scaled := Scaled(cfg, readings, se, stored);
            CycleWeights(cfg, readings, se, stored) == Adjust(cfg, scaled, MedianWeight(scaled))
  {
    hide Scaled, Adjust, MedianWeight;
  }

  /** The configured split between the fastest and the slowest endpoint survives the cycle. */
  lemma CycleKeepsSplit(cfg: Config, readings: map<Address, Reading>, se: map<Address, Weight>,
                        stored: map<Address, Endpoint>, a: Address, b: Address)
    requires cfg.Sane() && Driven(readings, se, stored)
    requires a in readings && a in se && b in readings && b in se
    ensures var w := CycleWeights(cfg, readings, se, stored);
            w[a] * cfg.minimumWeight < (w[b] + 1) * cfg.maximumWeight
  {
    hide *;
    var scaled := Scaled(cfg, readings, se, stored);
    var w := CycleWeights(cfg, readings, se, stored);
    CycleWeightsKeys(cfg, readings, se, stored);
    CycleIsAdjusted(cfg, readings, se, stored);
    SaneIsRanged(cfg);
    RecentredLength(cfg, Values(scaled));
    ScaledInRange(cfg, readings, se, stored);
    ValuesWithin(scaled, cfg.minimumWeight, cfg.maximumWeight);
    AdjustAlong(cfg, scaled);
    var i := PlaceOf(w, a);
    var j := PlaceOf(w, b);
    SplitSurvives(cfg, Values(scaled), i, j);
  }

  lemma PositiveProducts(u: real, v: real, m: real, n: real)
    requires 0.0 <= u <= v && 0.0 < m <= n
    ensures u * m <= v * n
  {
  }

  /** Scaling and clamping keep the order, whatever the signs of the multipliers. */
  lemma NewWeightMonotone(cfg: Config, u: Weight, v: Weight, m: real, n: real)
    requires cfg.Ranged() && u <= v && m <= n
    ensures NewWeight(cfg, u, Fin(m)) <= NewWeight(cfg, v, Fin(n))
  {
    hide NewWeight;
    NewWeightIsClamped(cfg, u, Fin(m));
    NewWeightIsClamped(cfg, v, Fin(n));
    if m <= 0.0 {
      NonpositiveProduct(u as real, m);
    } else {
      PositiveProducts(u as real, v as real, m, n);
    }
  }

  lemma NonpositiveProduct(u: real, m: real)
    requires 0.0 <= u && m <= 0.0
    ensures u * m <= 0.0
  {
  }

  /** Direction of one cycle: no larger weight and no larger factor give no larger result. */
  lemma CycleKeepsOrder(cfg: Config, readings: map<Address, Reading>, se: map<Address, Weight>,
                        stored: map<Address, Endpoint>, a: Address, b: Address)
    requires cfg.Sane() && Driven(readings, se, stored)
    requires a in readings && a in se && b in readings && b in se
    requires var f, g := Factor(readings, stored, a), Factor(readings, stored, b);
             f.Fin? && g.Fin? && se[a] <= se[b] && f.value <= g.value
    ensures CycleWeights(cfg, readings, se, stored)[a] <= CycleWeights(cfg, readings, se, stored)[b]
  {
    hide NewWeight, Factor, Median, Recentre;
    var scaled := Scaled(cfg, readings, se, stored);
    ScaledInRange(cfg, readings, se, stored);
    ValuesWithin(scaled, cfg.minimumWeight, cfg.maximumWeight);
    SaneIsRanged(cfg);
    NewWeightMonotone(cfg, se[a], se[b], Factor(readings, stored, a).value, Factor(readings, stored, b).value);
    assert scaled[a] <= scaled[b];
    var i := PlaceOf(scaled, a);
    MedianRank(Values(scaled), cfg.minimumWeight, cfg.maximumWeight);
    RecentreMonotone(cfg, scaled[a], scaled[b], MedianWeight(scaled));
  }

  /* ---- What a cycle takes from the stored records ---- */

  /** A list of the records of `m`, read back as a map, is `m`. */
  lemma ListedMap(endpoints: seq<Endpoint>, m: map<Address, Endpoint>)
    requires Lists(endpoints, m)
    ensures ByIp(endpoints) == m
  {
    ByIpIsKeyed(endpoints);
    forall a | a in m ensures a in ByIp(endpoints) && ByIp(endpoints)[a] == m[a] {
      assert a in Ips(endpoints);
      var x := ByIp(endpoints)[a];
      var i :| 0 <= i < |endpoints| && endpoints[i] == x;
    }
    forall a | a in ByIp(endpoints) ensures a in m {
      assert a in Ips(endpoints);
    }
  }

  /** Every cycle has a result: its records can be listed. */
  lemma ResultExists(cfg: Config, readings: map<Address, Reading>, se: map<Address, Weight>,
                     stored: map<Address, Endpoint>, stamp: Address -> Time) returns (result: seq<Endpoint>)
    requires forall a :: a in stored ==> stored[a].ip == a
    ensures Lists(result, Cycled(cfg, readings, se, stored, stamp))
  {
    hide CycleWeights;
    var m := Cycled(cfg, readings, se, stored, stamp);
    var ks := Order(m.Keys);
    result := Lookup(m, ks);
    forall i | 0 <= i < |ks| ensures ks[i] in m && result[i].ip == ks[i] {
      assert ks[i] in ks;
    }
    assert Ips(result) == ks;
  }

  /** A cycle keeps the addresses it has metrics and weights for, and stores what it measured. */
  lemma CycleStoresMeasured(cfg: Config, readings: map<Address, Reading>, se: map<Address, Weight>,
                            stored: map<Address, Endpoint>, stamp: Address -> Time)
    ensures var m := Cycled(cfg, readings, se, stored, stamp);
            m.Keys == readings.Keys * se.Keys &&
            forall a :: a in m ==>
              m[a].multiplier == readings[a].measured.multiplier &&
              m[a].alpha == readings[a].measured.alpha && m[a].distance == readings[a].measured.distance
  {
    hide NewWeight, Factor, MedianWeight, Recentre;
    assert Scaled(cfg, readings, se, stored).Keys == readings.Keys * se.Keys;
  }

  /** `e` is what a cycle stores for the address `a`, whose weight `w` was scaled and whose cycle
      has the median `d`: the weight is re-centred, the measurement is fresh, and of a known
      endpoint name and age are kept, while a newcomer is as old as the clock. */
  ghost predicate IsOutcome(cfg: Config, readings: map<Address, Reading>, stored: map<Address, Endpoint>,
                            stamp: Address -> Time, a: Address, w: Weight, d: Weight, e: Endpoint)
    requires a in readings
  {
    (d == 0 ==> e.weight == w) &&
    (d != 0 && IsWeight(w * cfg.Middle() / d) ==> e.weight == w * cfg.Middle() / d) &&
    e.multiplier == readings[a].measured.multiplier && e.alpha == readings[a].measured.alpha &&
    e.distance == readings[a].measured.distance &&
    if a in stored then e.ip == stored[a].ip && e.name == stored[a].name && e.lastOptimized == stored[a].lastOptimized
    else e.ip == a && e.name == readings[a].name && e.lastOptimized == stamp(a)
  }

  /** What a cycle stores, from its inputs alone. Let `m` hold the ServiceEntry weights of the
      addresses with metrics, each scaled once by its factor and clamped. Then exactly these
      addresses are stored, each with `m[a] * middle / median`, its fresh measurement and its
      old or new timestamp. When all of `m` is in [Min, Max], as it is unless a factor is NaN or
      an infinite one meets a weight of 0, that quotient never leaves the uint32 range. */
  lemma CycleOutcome(cfg: Config, readings: map<Address, Reading>, se: map<Address, Weight>,
                     stored: map<Address, Endpoint>, stamp: Address -> Time, m: map<Address, Weight>)
    requires cfg.Ranged() && ScalesOnce(cfg, readings, se, stored, m)
    ensures Cycled(cfg, readings, se, stored, stamp).Keys == m.Keys == readings.Keys * se.Keys
    ensures forall a :: a in m ==>
              IsOutcome(cfg, readings, stored, stamp, a, m[a], MedianWeight(m), Cycled(cfg, readings, se, stored, stamp)[a])
    ensures cfg.Sane() && WithinMap(m, cfg.minimumWeight, cfg.maximumWeight) ==>
              forall a :: a in m ==>
                0 < MedianWeight(m) &&
                Cycled(cfg, readings, se, stored, stamp)[a].weight == m[a] * cfg.Middle() / MedianWeight(m)
  {
    hide ScalesOnce, MedianWeight, Recentre, Config.Sane, Config.Middle, Cycled, Scaled, IsOutcome;
    ScaledScalesOnce(cfg, readings, se, stored);
    OnlyOneScales(cfg, readings, se, stored, m, Scaled(cfg, readings, se, stored));
    ScalesKeys(cfg, readings, se, stored, m);
    CycleStoresMeasured(cfg, readings, se, stored, stamp);
    forall a | a in m
      ensures IsOutcome(cfg, readings, stored, stamp, a, m[a], MedianWeight(m), Cycled(cfg, readings, se, stored, stamp)[a])
      ensures cfg.Sane() && WithinMap(m, cfg.minimumWeight, cfg.maximumWeight) ==>
                0 < MedianWeight(m) &&
                Cycled(cfg, readings, se, stored, stamp)[a].weight == m[a] * cfg.Middle() / MedianWeight(m)
    {
      CycledRecord(cfg, readings, se, stored, stamp, a);
      RecordIsOutcome(cfg, readings, se, stored, stamp, a, m[a], MedianWeight(m));
      if cfg.Sane() && WithinMap(m, cfg.minimumWeight, cfg.maximumWeight) { RecentredInRange(cfg, m, a); }
    }
  }

  lemma CycledRecord(cfg: Config, readings: map<Address, Reading>, se: map<Address, Weight>,
                     stored: map<Address, Endpoint>, stamp: Address -> Time, a: Address)
    requires a in readings && a in se
    ensures var m := Scaled(cfg, readings, se, stored);
            a in m && a in Cycled(cfg, readings, se, stored, stamp) &&
            Cycled(cfg, readings, se, stored, stamp)[a]
            == Refreshed(Base(readings, se, stored, stamp(a), a), Recentre(cfg, m[a], MedianWeight(m)), readings[a].measured)
  {
    hide NewWeight, MedianWeight, Recentre, Base, Refreshed, Factor;
  }

  lemma RecordIsOutcome(cfg: Config, readings: map<Address, Reading>, se: map<Address, Weight>,
                        stored: map<Address, Endpoint>, stamp: Address -> Time, a: Address, w: Weight, d: Weight)
    requires cfg.Ranged() && a in readings && a in se
    ensures var e := Refreshed(Base(readings, se, stored, stamp(a), a), Recentre(cfg, w, d), readings[a].measured);
            e.weight == Recentre(cfg, w, d) && IsOutcome(cfg, readings, stored, stamp, a, w, d, e)
  {
    hide Recentre, Config.Middle;
    RecentreScales(cfg, w, d);
  }

  lemma ScalesKeys(cfg: Config, readings: map<Address, Reading>, se: map<Address, Weight>,
                   stored: map<Address, Endpoint>, m: map<Address, Weight>)
    requires ScalesOnce(cfg, readings, se, stored, m)
    ensures m.Keys == readings.Keys * se.Keys
  {
  }

  lemma RecentredInRange(cfg: Config, m: map<Address, Weight>, a: Address)
    requires cfg.Sane() && a in m && WithinMap(m, cfg.minimumWeight, cfg.maximumWeight)
    ensures 0 < MedianWeight(m)
    ensures Recentre(cfg, m[a], MedianWeight(m)) == m[a] * cfg.Middle() / MedianWeight(m)
  {
    hide Median, Recentre, Config.Sane;
    SaneIsRanged(cfg);
    ValuesWithin(m, cfg.minimumWeight, cfg.maximumWeight);
    var i := PlaceOf(m, a);
    MedianRank(Values(m), cfg.minimumWeight, cfg.maximumWeight);
    RecentreIsOneDivision(cfg, m[a], MedianWeight(m));
  }

  /** Unless a factor is NaN, or an infinite one meets a weight of 0, the scaled weights are in
      [Min, Max]. */
  lemma ScaledOnceInRange(cfg: Config, readings: map<Address, Reading>, se: map<Address, Weight>,
                          stored: map<Address, Endpoint>, m: map<Address, Weight>)
    requires cfg.Ranged() && Driven(readings, se, stored) && ScalesOnce(cfg, readings, se, stored, m)
    ensures WithinMap(m, cfg.minimumWeight, cfg.maximumWeight)
  {
    hide ScalesOnce, Scaled;
    ScaledScalesOnce(cfg, readings, se, stored);
    OnlyOneScales(cfg, readings, se, stored, m, Scaled(cfg, readings, se, stored));
    ScaledInRange(cfg, readings, se, stored);
  }

  /** The weights of a cycle depend on readings and stored records only through the factors. */
  lemma SameScaled(cfg: Config, r: map<Address, Reading>, q: map<Address, Reading>, se: map<Address, Weight>,
                   stored: map<Address, Endpoint>, other: map<Address, Endpoint>)
    requires r.Keys == q.Keys
    requires forall a :: a in r ==> Factor(r, stored, a) == Factor(q, other, a)
    ensures CycleWeights(cfg, r, se, stored) == CycleWeights(cfg, q, se, other)
  {
    hide NewWeight, Factor, MedianWeight, Adjust;
    assert Scaled(cfg, r, se, stored) == Scaled(cfg, q, se, other);
  }
}
