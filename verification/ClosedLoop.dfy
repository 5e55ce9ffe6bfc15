/** The two controllers in a loop: a cycle writes the WeightOptimizer, the reconciler writes
    its weights into the ServiceEntry, and the next cycle starts from there. */
module ClosedLoop {
  import opened Floats
  import opened Weights
  import opened Control
  import opened Cycle
  import opened CycleLaws
  import opened ServiceEntries
  import opened ReconcileLaws
  import opened Settling

  datatype Loop = Loop(entries: seq<Entry>, stored: map<Address, Endpoint>)

  function WeightsOf(m: map<Address, Endpoint>): map<Address, Weight> {
    map a | a in m :: m[a].weight
  }

  /** One turn of the loop: a cycle over the ServiceEntry's weights, then an overlay. */
  ghost function Turn(cfg: Config, s: Loop, readings: map<Address, Reading>, stamp: Address -> Time): Loop {
    var stored := Cycled(cfg, readings, WeightMap(s.entries), s.stored, stamp);
    Loop(Overlaid(WeightsOf(stored), s.entries), stored)
  }

  /** The first `n` turns; turn `k` sees `readings(k)` at the times `stamps(k)`. */
  ghost function Turns(cfg: Config, s: Loop, readings: nat -> map<Address, Reading>, stamps: nat -> Address -> Time,
                       n: nat): Loop
  {
    if n == 0 then s else Turn(cfg, Turns(cfg, s, readings, stamps, n - 1), readings(n - 1), stamps(n - 1))
  }

  /** Every address of the ServiceEntry has metrics and a multiplier of 1, freshly measured and,
      if it is stored, stored. */
  ghost predicate Quiet(s: Loop, readings: map<Address, Reading>) {
    forall a :: a in WeightMap(s.entries) ==>
      a in readings && readings[a].measured.multiplier == ONE &&
      (a in s.stored ==> s.stored[a].multiplier == ONE)
  }

  /* ---- The loop on entries ---- */

  lemma ScaledWhenQuiet(cfg: Config, s: Loop, readings: map<Address, Reading>)
    requires cfg.Ranged() && Quiet(s, readings)
    ensures Scaled(cfg, readings, WeightMap(s.entries), s.stored) == ClippedMap(cfg, WeightMap(s.entries))
  {
    hide NewWeight, Clipped;
    var w := WeightMap(s.entries);
    forall a | a in w ensures NewWeight(cfg, w[a], Factor(readings, s.stored, a)) == Clipped(cfg, w[a]) {
      UnitFactorClips(cfg, w[a]);
    }
  }

  lemma {:induction false} WeightMapOfOverlaid(weights: map<Address, Weight>, entries: seq<Entry>)
    ensures WeightMap(Overlaid(weights, entries)).Keys == WeightMap(entries).Keys
    ensures forall a :: a in WeightMap(entries) && Lookup0(weights, a) != 0 ==>
              WeightMap(Overlaid(weights, entries))[a] == weights[a]
  {
    if entries != [] {
      var n := |entries| - 1;
      WeightMapOfOverlaid(weights, entries[..n]);
      assert Overlaid(weights, entries)[..n] == Overlaid(weights, entries[..n]);
    }
  }

  lemma TurnWeights(cfg: Config, s: Loop, readings: map<Address, Reading>, stamp: Address -> Time)
    requires cfg.Ranged() && Quiet(s, readings)
    ensures WeightsOf(Turn(cfg, s, readings, stamp).stored) == Settle(cfg, WeightMap(s.entries))
    ensures forall a :: a in Turn(cfg, s, readings, stamp).stored ==>
              a in readings && Turn(cfg, s, readings, stamp).stored[a].multiplier == readings[a].measured.multiplier
  {
    hide NewWeight, Clipped, Recentre, MedianWeight, Factor, WeightMap, Quiet, Overlaid;
    ScaledWhenQuiet(cfg, s, readings);
  }

  /** A quiet turn settles the weights. */
  lemma QuietTurn(cfg: Config, s: Loop, readings: map<Address, Reading>, stamp: Address -> Time)
    requires cfg.Sane() && cfg.Least() >= 1 && Quiet(s, readings)
    ensures var w, t := WeightMap(s.entries), Turn(cfg, s, readings, stamp);
            WeightMap(t.entries) == Settle(cfg, w) && t.entries == Overlaid(Settle(cfg, w), s.entries)
    ensures forall a :: a in Turn(cfg, s, readings, stamp).stored ==>
              Turn(cfg, s, readings, stamp).stored[a].multiplier == ONE
  {
    hide Settle, WeightMap, Config.Least, Overlaid, Cycled, WeightsOf;
    var w, t := WeightMap(s.entries), Turn(cfg, s, readings, stamp);
    SaneIsRanged(cfg);
    TurnWeights(cfg, s, readings, stamp);
    SettlePositive(cfg, w);
    SettleKeys(cfg, w);
    WeightMapOfOverlaid(Settle(cfg, w), s.entries);
    TurnKeys(cfg, s, readings, stamp);
  }

  lemma TurnKeys(cfg: Config, s: Loop, readings: map<Address, Reading>, stamp: Address -> Time)
    ensures Turn(cfg, s, readings, stamp).stored.Keys == readings.Keys * WeightMap(s.entries).Keys
  {
    CycleStoresMeasured(cfg, readings, WeightMap(s.entries), s.stored, stamp);
  }

  /** After a quiet turn the next one is quiet too if its measurements are. */
  lemma StaysQuiet(cfg: Config, s: Loop, readings: map<Address, Reading>, next: map<Address, Reading>,
                   stamp: Address -> Time)
    requires cfg.Sane() && cfg.Least() >= 1 && Quiet(s, readings)
    requires forall a :: a in WeightMap(s.entries) ==> a in next && next[a].measured.multiplier == ONE
    ensures Quiet(Turn(cfg, s, readings, stamp), next)
  {
    hide Turn, Settle, WeightMap, Config.Least;
    QuietTurn(cfg, s, readings, stamp);
    SettleKeys(cfg, WeightMap(s.entries));
  }

  /** Entries of one address agree. */
  ghost predicate Consistent(entries: seq<Entry>) {
    forall i :: 0 <= i < |entries| ==>
      entries[i].address in WeightMap(entries) && entries[i].weight == WeightMap(entries)[entries[i].address]
  }

  /** The median is the middle, every weight is in the range, and entries of one address agree. */
  ghost predicate Steady(cfg: Config, s: Loop) {
    MedianWeight(WeightMap(s.entries)) == cfg.Middle() &&
    WithinMap(WeightMap(s.entries), cfg.minimumWeight, cfg.maximumWeight) && Consistent(s.entries)
  }

  lemma OverlaidEntriesAgree(weights: map<Address, Weight>, entries: seq<Entry>)
    requires forall a :: a in weights ==> weights[a] != 0
    requires weights.Keys == WeightMap(entries).Keys
    ensures var o := Overlaid(weights, entries);
            forall i :: 0 <= i < |o| ==> o[i].address in weights && o[i].weight == weights[o[i].address]
  {
    WeightMapKeys(entries);
    forall i | 0 <= i < |entries| ensures entries[i].address in weights {
      assert Addresses(entries)[i] == entries[i].address;
    }
  }

  /** Overlaying weights for all addresses, none of them 0, changes nothing exactly when the
      entries already have these weights. */
  lemma OverlayFixedIff(weights: map<Address, Weight>, entries: seq<Entry>)
    requires weights.Keys == WeightMap(entries).Keys && forall a :: a in weights ==> weights[a] != 0
    ensures Overlaid(weights, entries) == entries <==> weights == WeightMap(entries) && Consistent(entries)
  {
    hide WeightMap;
    OverlaidEntriesAgree(weights, entries);
    WeightMapOfOverlaid(weights, entries);
    if weights == WeightMap(entries) && Consistent(entries) {
      forall i | 0 <= i < |entries| ensures OverlaidEntry(weights, entries[i]) == entries[i] {
        assert entries[i].address in weights;
      }
    }
  }

  /** The fixed points of the quiet loop are exactly the steady states: a quiet turn leaves
      the ServiceEntry, entry by entry, as it was if and only if it has no entries or is
      steady. This holds for any number of addresses. */
  lemma FixedIffSteady(cfg: Config, s: Loop, readings: map<Address, Reading>, stamp: Address -> Time)
    requires cfg.Sane() && cfg.minimumWeight * cfg.Middle() >= cfg.maximumWeight && Quiet(s, readings)
    ensures Turn(cfg, s, readings, stamp).entries == s.entries <==> s.entries == [] || Steady(cfg, s)
  {
    hide Turn, Quiet, Settle, ClippedMap, MedianWeight, Config.Least, Config.Sane, Overlaid, Consistent, WithinMap;
    var w := WeightMap(s.entries);
    SaneIsRanged(cfg);
    LeastPositive(cfg);
    QuietTurn(cfg, s, readings, stamp);
    SettlePositive(cfg, w);
    SettleKeys(cfg, w);
    OverlayFixedIff(Settle(cfg, w), s.entries);
    if s.entries == [] {
      NothingToOverlay(Settle(cfg, w));
    } else {
      SomeWeights(s.entries);
      SettledIff(cfg, w);
    }
  }

  lemma NothingToOverlay(weights: map<Address, Weight>)
    ensures Overlaid(weights, []) == []
  {
  }

  lemma SomeWeights(entries: seq<Entry>)
    requires entries != []
    ensures WeightMap(entries) != map[]
  {
    assert entries[|entries| - 1].address in WeightMap(entries);
  }

  /** The addresses of the loop never change. */
  lemma {:induction false} TurnsKeepAddresses(cfg: Config, s: Loop, readings: nat -> map<Address, Reading>,
                                              stamps: nat -> Address -> Time, n: nat)
    ensures WeightMap(Turns(cfg, s, readings, stamps, n).entries).Keys == WeightMap(s.entries).Keys
  {
    hide Cycled, WeightMap, Overlaid;
    if n > 0 {
      TurnsKeepAddresses(cfg, s, readings, stamps, n - 1);
      var t := Turns(cfg, s, readings, stamps, n - 1);
      WeightMapOfOverlaid(WeightsOf(Turn(cfg, t, readings(n - 1), stamps(n - 1)).stored), t.entries);
    }
  }

  ghost predicate AlwaysQuiet(s: Loop, readings: nat -> map<Address, Reading>) {
    Quiet(s, readings(0)) &&
    forall k: nat :: forall a :: a in WeightMap(s.entries) ==>
      a in readings(k) && readings(k)[a].measured.multiplier == ONE
  }

  lemma {:induction false} TurnsStayQuiet(cfg: Config, s: Loop, readings: nat -> map<Address, Reading>,
                                          stamps: nat -> Address -> Time, n: nat)
    requires cfg.Sane() && cfg.Least() >= 1 && AlwaysQuiet(s, readings)
    ensures Quiet(Turns(cfg, s, readings, stamps, n), readings(n))
  {
    hide Turn, Quiet, WeightMap, Config.Least, Config.Sane;
    if n > 0 {
      TurnsStayQuiet(cfg, s, readings, stamps, n - 1);
      TurnsKeepAddresses(cfg, s, readings, stamps, n - 1);
      StaysQuiet(cfg, Turns(cfg, s, readings, stamps, n - 1), readings(n - 1), readings(n), stamps(n - 1));
    }
  }

  lemma NextTurn(cfg: Config, s: Loop, readings: nat -> map<Address, Reading>, stamps: nat -> Address -> Time, n: nat)
    requires cfg.Sane() && cfg.Least() >= 1 && AlwaysQuiet(s, readings)
    ensures var t, u := Turns(cfg, s, readings, stamps, n), Turns(cfg, s, readings, stamps, n + 1);
            u == Turn(cfg, t, readings(n), stamps(n)) && Quiet(t, readings(n)) &&
            WeightMap(u.entries) == Settle(cfg, WeightMap(t.entries)) &&
            u.entries == Overlaid(Settle(cfg, WeightMap(t.entries)), t.entries) &&
            |WeightMap(t.entries)| == |WeightMap(s.entries)| &&
            forall a :: a in WeightMap(t.entries) ==>
              a in readings(n + 1) && readings(n + 1)[a].measured.multiplier == ONE
  {
    hide Turn, Quiet, WeightMap, Config.Least, Config.Sane, Settle, Overlaid;
    TurnsStayQuiet(cfg, s, readings, stamps, n);
    TurnsKeepAddresses(cfg, s, readings, stamps, n);
    var t := Turns(cfg, s, readings, stamps, n);
    SameSize(WeightMap(t.entries), WeightMap(s.entries));
    QuietTurn(cfg, t, readings(n), stamps(n));
  }

  /** A settled ServiceEntry after an overlay is steady. */
  lemma SettledIsSteady(cfg: Config, s: Loop, weights: map<Address, Weight>, entries: seq<Entry>)
    requires s.entries == Overlaid(weights, entries) && weights == WeightMap(s.entries)
    requires weights.Keys == WeightMap(entries).Keys && forall a :: a in weights ==> weights[a] != 0
    requires Settled(cfg, weights)
    ensures Steady(cfg, s)
  {
    hide WeightMap, MedianWeight;
    OverlaidEntriesAgree(weights, entries);
  }

  /** After one turn the median of an odd number of weights is the middle, after two the loop is
      steady; with any number of weights it is steady after three turns. */
  lemma TurnsSettle(cfg: Config, s: Loop, readings: nat -> map<Address, Reading>,
                    stamps: nat -> Address -> Time, n: nat)
    requires cfg.Sane() && cfg.minimumWeight * cfg.Middle() >= cfg.maximumWeight
    requires AlwaysQuiet(s, readings) && s.entries != []
    ensures |WeightMap(s.entries)| % 2 == 1 ==>
              MedianWeight(WeightMap(Turns(cfg, s, readings, stamps, n + 1).entries)) == cfg.Middle() &&
              Steady(cfg, Turns(cfg, s, readings, stamps, n + 2))
    ensures Steady(cfg, Turns(cfg, s, readings, stamps, n + 3))
  {
    hide *;
    SaneIsRanged(cfg);
    LeastPositive(cfg);
    var odd := |WeightMap(s.entries)| % 2 == 1;
    var t, u, v := Turns(cfg, s, readings, stamps, n), Turns(cfg, s, readings, stamps, n + 1),
                   Turns(cfg, s, readings, stamps, n + 2);
    NextTurn(cfg, s, readings, stamps, n);
    NextTurn(cfg, s, readings, stamps, n + 1);
    NextTurn(cfg, s, readings, stamps, n + 2);
    SomeWeights(s.entries);
    var w := WeightMap(t.entries);
    NotEmpty(WeightMap(s.entries), w);
    if odd { SettleCentres(cfg, w); }
    ThreeTurnsSettle(cfg, w);
    SettledTurn(cfg, v, Turns(cfg, s, readings, stamps, n + 3));
    if odd { SettledTurn(cfg, u, v); }
  }

  lemma NotEmpty(m: map<Address, Weight>, n: map<Address, Weight>)
    requires m != map[] && |m| == |n|
    ensures n != map[]
  {
  }

  lemma SettledTurn(cfg: Config, s: Loop, t: Loop)
    requires cfg.Sane() && cfg.Least() >= 1
    requires WeightMap(t.entries) == Settle(cfg, WeightMap(s.entries))
    requires t.entries == Overlaid(Settle(cfg, WeightMap(s.entries)), s.entries)
    requires Settled(cfg, WeightMap(t.entries))
    ensures Steady(cfg, t)
  {
    hide *;
    SettleKeys(cfg, WeightMap(s.entries));
    SettlePositive(cfg, WeightMap(s.entries));
    SettledIsSteady(cfg, t, WeightMap(t.entries), s.entries);
  }

  lemma SteadyStays(cfg: Config, s: Loop, readings: nat -> map<Address, Reading>, stamps: nat -> Address -> Time,
                    n: nat)
    requires cfg.Sane() && cfg.minimumWeight * cfg.Middle() >= cfg.maximumWeight
    requires AlwaysQuiet(s, readings) && Steady(cfg, Turns(cfg, s, readings, stamps, n))
    ensures Turns(cfg, s, readings, stamps, n + 1).entries == Turns(cfg, s, readings, stamps, n).entries
  {
    hide Turn, AlwaysQuiet, Quiet, Steady, Config.Least, Config.Sane;
    SaneIsRanged(cfg);
    LeastPositive(cfg);
    TurnsStayQuiet(cfg, s, readings, stamps, n);
    FixedIffSteady(cfg, Turns(cfg, s, readings, stamps, n), readings(n), stamps(n));
  }

  /** The fixed point of the closed loop. With metrics and multipliers of 1 for every address,
      and Min * middle >= Max: from the third cycle on the median of the ServiceEntry is the
      middle, every weight is in [Min, Max], and no cycle changes any entry. With an odd number
      of addresses the first cycle already centres the median and the second does the rest. */
  lemma {:induction false} ClosedLoopFixedPoint(cfg: Config, s: Loop, readings: nat -> map<Address, Reading>,
                                                stamps: nat -> Address -> Time, n: nat)
    requires cfg.Sane() && cfg.minimumWeight * cfg.Middle() >= cfg.maximumWeight
    requires AlwaysQuiet(s, readings) && s.entries != []
    ensures Steady(cfg, Turns(cfg, s, readings, stamps, n + 3))
    ensures Turns(cfg, s, readings, stamps, n + 3).entries == Turns(cfg, s, readings, stamps, 3).entries
    ensures |WeightMap(s.entries)| % 2 == 1 ==>
              MedianWeight(WeightMap(Turns(cfg, s, readings, stamps, n + 1).entries)) == cfg.Middle() &&
              Steady(cfg, Turns(cfg, s, readings, stamps, n + 2)) &&
              Turns(cfg, s, readings, stamps, n + 2).entries == Turns(cfg, s, readings, stamps, 2).entries
  {
    hide *;
    TurnsSettle(cfg, s, readings, stamps, n);
    if n > 0 {
      ClosedLoopFixedPoint(cfg, s, readings, stamps, n - 1);
      SteadyStays(cfg, s, readings, stamps, n + 2);
      if |WeightMap(s.entries)| % 2 == 1 { SteadyStays(cfg, s, readings, stamps, n + 1); }
    }
  }
}
