/** The closed loop as the transition system runs it: rounds of a cycle and an overlay whose
    writes go through are turns of the loop, and balanced load makes them quiet. */
module LoopInSystem {
  import opened Floats
  import opened Weights
  import opened Control
  import opened ControlLaw
  import opened Cycle
  import opened CycleLaws
  import opened ServiceEntries
  import opened Settling
  import opened ClosedLoop
  import opened System
  import opened History
  import opened Safety

  /** Some time passes, a cycle runs on the latest versions, and the overlay follows. */
  datatype Round = Round(elapsed: nat, samples: map<Address, Sample>, stamp: Address -> Time, result: seq<Endpoint>)

  function CycleOf(s: State, r: Round): Step
    requires s.entries != [] && s.optimisers != []
  {
    Optimise(|s.entries| - 1, |s.optimisers| - 1, r.samples, r.stamp, r.result, true)
  }

  ghost function AfterWait(settings: Settings, s: State, r: Round): (t: State)
    requires Fits(settings)
    ensures t.entries == s.entries && t.optimisers == s.optimisers
  {
    Next(settings, s, Tick(r.elapsed))
  }

  ghost function AfterCycle(settings: Settings, s: State, r: Round): (t: State)
    requires Fits(settings) && s.entries != [] && s.optimisers != []
    ensures t.entries == s.entries && s.optimisers <= t.optimisers
  {
    hide OptimiseEnabled, Encodable, Stored, GaugesAfter;
    Next(settings, AfterWait(settings, s, r), CycleOf(s, r))
  }

  ghost function AfterRound(settings: Settings, s: State, r: Round): (t: State)
    requires Fits(settings) && s.entries != [] && s.optimisers != []
    ensures t.entries != [] && t.optimisers != []
  {
    var c := AfterCycle(settings, s, r);
    Next(settings, c, Overlay(|c.entries| - 1, |c.optimisers| - 1, true))
  }

  /** The state after `n` rounds. */
  ghost function Rounds(settings: Settings, s: State, rounds: nat -> Round, n: nat): (t: State)
    requires Fits(settings) && s.entries != [] && s.optimisers != []
    ensures t.entries != [] && t.optimisers != []
  {
    if n == 0 then s else AfterRound(settings, Rounds(settings, s, rounds, n - 1), rounds(n - 1))
  }

  function LoopOf(s: State): Loop
    requires s.entries != [] && s.optimisers != []
  {
    Loop(s.entries[|s.entries| - 1], ByIp(s.optimisers[|s.optimisers| - 1].endpoints))
  }

  /** The same records, up to their timestamps, which the API truncates. */
  ghost predicate SameButTimes(m: map<Address, Endpoint>, n: map<Address, Endpoint>) {
    m.Keys == n.Keys && forall a :: a in m ==> m[a] == n[a].(lastOptimized := m[a].lastOptimized)
  }

  ghost predicate Alike(l: Loop, k: Loop) {
    l.entries == k.entries && SameButTimes(l.stored, k.stored)
  }

  /* ---- A turn does not look at timestamps ---- */

  lemma SameWeights(cfg: Config, readings: map<Address, Reading>, se: map<Address, Weight>,
                    m: map<Address, Endpoint>, n: map<Address, Endpoint>)
    requires SameButTimes(m, n)
    ensures CycleWeights(cfg, readings, se, m) == CycleWeights(cfg, readings, se, n)
  {
    hide CycleWeights;
    forall a | a in readings ensures Factor(readings, m, a) == Factor(readings, n, a) {}
    SameScaled(cfg, readings, readings, se, m, n);
  }

  lemma SameCycled(cfg: Config, readings: map<Address, Reading>, se: map<Address, Weight>,
                   m: map<Address, Endpoint>, n: map<Address, Endpoint>, stamp: Address -> Time)
    requires SameButTimes(m, n)
    ensures SameButTimes(Cycled(cfg, readings, se, m, stamp), Cycled(cfg, readings, se, n, stamp))
    ensures WeightsOf(Cycled(cfg, readings, se, m, stamp)) == WeightsOf(Cycled(cfg, readings, se, n, stamp))
  {
    hide CycleWeights, Base;
    SameWeights(cfg, readings, se, m, n);
    CycleWeightsKeys(cfg, readings, se, m);
    var w, x, y := CycleWeights(cfg, readings, se, m), Cycled(cfg, readings, se, m, stamp),
                   Cycled(cfg, readings, se, n, stamp);
    forall a | a in w ensures x[a] == y[a].(lastOptimized := x[a].lastOptimized) && x[a].weight == y[a].weight {
      SameRecord(readings, se, m, n, stamp(a), a, w[a]);
    }
  }

  lemma SameRecord(readings: map<Address, Reading>, se: map<Address, Weight>, m: map<Address, Endpoint>,
                   n: map<Address, Endpoint>, stamp: Time, a: Address, weight: Weight)
    requires SameButTimes(m, n) && a in readings && a in se
    ensures var x := Refreshed(Base(readings, se, m, stamp, a), weight, readings[a].measured);
            var y := Refreshed(Base(readings, se, n, stamp, a), weight, readings[a].measured);
            x == y.(lastOptimized := x.lastOptimized)
  {
  }

  lemma TurnsAlike(cfg: Config, l: Loop, k: Loop, readings: map<Address, Reading>, stamp: Address -> Time)
    requires Alike(l, k)
    ensures Alike(Turn(cfg, l, readings, stamp), Turn(cfg, k, readings, stamp))
  {
    hide Cycled, WeightsOf, WeightMap, Overlaid, SameButTimes;
    SameCycled(cfg, readings, WeightMap(l.entries), l.stored, k.stored, stamp);
  }

  lemma AlikeTransitive(l: Loop, k: Loop, j: Loop)
    requires Alike(l, k) && Alike(k, j)
    ensures Alike(l, j)
  {
  }

  /* ---- A round is a turn ---- */

  /** The cycle of a round is enabled and its numbers can be written. */
  ghost predicate GoesThrough(settings: Settings, s: State, r: Round)
    requires Fits(settings) && s.entries != [] && s.optimisers != []
  {
    OptimiseEnabled(settings, AfterWait(settings, s, r), CycleOf(s, r)) && Encodable(r.result)
  }

  /** What the API stores of the list of a cycle, read back by the reconciler, has the cycle's
      weights, and read back by the next cycle is the cycle's map up to timestamps. */
  lemma StoredWeights(resolution: int, endpoints: seq<Endpoint>, m: map<Address, Endpoint>)
    requires resolution > 0 && Lists(endpoints, m)
    ensures OptimisedWeights(Stored(resolution, endpoints)) == WeightsOf(m)
    ensures SameButTimes(ByIp(Stored(resolution, endpoints)), m)
  {
    hide Stored, Truncated, ByIp, Lists;
    ListedMap(endpoints, m);
    ByIpOfStored(resolution, endpoints);
  }

  /** A round whose write goes through takes the loop one turn on; only timestamps differ. */
  lemma RoundIsTurn(settings: Settings, s: State, r: Round)
    requires Fits(settings) && s.entries != [] && s.optimisers != [] && GoesThrough(settings, s, r)
    ensures Alike(LoopOf(AfterRound(settings, s, r)),
                  Turn(settings.cfg, LoopOf(s), Readings(settings.cfg, r.samples), r.stamp))
  {
    hide Cycled, WeightMap, Overlaid, Readings, ByIp, Stored, OptimisedWeights, Encodable, GaugesAfter, SameButTimes,
      WeightsOf;
    var se, stored := WeightMap(LoopOf(s).entries), LoopOf(s).stored;
    var m := Cycled(settings.cfg, Readings(settings.cfg, r.samples), se, stored, r.stamp);
    StoredWeights(settings.resolution, r.result, m);
  }

  lemma RoundsAreTurns(settings: Settings, s: State, rounds: nat -> Round, readings: nat -> map<Address, Reading>,
                       stamps: nat -> Address -> Time, n: nat)
    requires Fits(settings) && s.entries != [] && s.optimisers != []
    requires forall k: nat :: GoesThrough(settings, Rounds(settings, s, rounds, k), rounds(k))
    requires forall k: nat :: readings(k) == Readings(settings.cfg, rounds(k).samples) && stamps(k) == rounds(k).stamp
    ensures Alike(LoopOf(Rounds(settings, s, rounds, n)), Turns(settings.cfg, LoopOf(s), readings, stamps, n))
  {
    hide GoesThrough, AfterRound, LoopOf, Alike, Turn, Readings;
    if n == 0 {
      AlikeToItself(LoopOf(s));
    } else {
      RoundsAreTurns(settings, s, rounds, readings, stamps, n - 1);
      var t, l := Rounds(settings, s, rounds, n - 1), Turns(settings.cfg, LoopOf(s), readings, stamps, n - 1);
      RoundIsTurn(settings, t, rounds(n - 1));
      TurnsAlike(settings.cfg, LoopOf(t), l, readings(n - 1), stamps(n - 1));
      AlikeTransitive(LoopOf(Rounds(settings, s, rounds, n)),
                      Turn(settings.cfg, LoopOf(t), readings(n - 1), stamps(n - 1)),
                      Turn(settings.cfg, l, readings(n - 1), stamps(n - 1)));
    }
  }

  lemma AlikeToItself(l: Loop)
    ensures Alike(l, l)
  {
  }

  /* ---- Balanced load ---- */

  /** The load is balanced, the addresses all have metrics, and the cycle is enabled. */
  ghost predicate BalancedRound(settings: Settings, s: State, r: Round, addresses: set<Address>)
    requires Fits(settings) && s.entries != [] && s.optimisers != []
  {
    OptimiseEnabled(settings, AfterWait(settings, s, r), CycleOf(s, r)) && Balanced(settings.cfg, r.samples) &&
    addresses <= r.samples.Keys
  }

  /** Every round has balanced load on all addresses of the ServiceEntry. */
  ghost predicate AlwaysBalanced(settings: Settings, s: State, rounds: nat -> Round)
    requires Fits(settings) && s.entries != [] && s.optimisers != []
  {
    forall k: nat ::
      BalancedRound(settings, Rounds(settings, s, rounds, k), rounds(k), WeightMap(LoopOf(s).entries).Keys)
  }

  ghost predicate StoredOnes(l: Loop) {
    forall a :: a in l.stored ==> l.stored[a].multiplier == ONE
  }

  /** Balanced load writes what JSON can carry. */
  lemma BalancedGoesThrough(settings: Settings, s: State, r: Round)
    requires Fits(settings) && s.entries != [] && s.optimisers != [] && Balanced(settings.cfg, r.samples)
    requires OptimiseEnabled(settings, AfterWait(settings, s, r), CycleOf(s, r))
    ensures GoesThrough(settings, s, r)
  {
    hide Balanced, OptimiseEnabled, Encodable, AfterWait, MeanCpu, WeightMap;
    BalancedAdjustsNothing(settings.cfg, r.samples);
    WritableExactlyWithAMean(settings, AfterWait(settings, s, r), CycleOf(s, r));
  }

  lemma BalancedReadings(cfg: Config, samples: map<Address, Sample>)
    requires Balanced(cfg, samples)
    ensures var readings := Readings(cfg, samples);
            readings.Keys == samples.Keys && forall a :: a in readings ==> readings[a].measured.multiplier == ONE
  {
    hide Balanced, MeanCpu, Readings;
    BalancedAdjustsNothing(cfg, samples);
    ReadingsKeys(cfg, samples);
    forall a | a in samples ensures Readings(cfg, samples)[a].measured.multiplier == ONE {
      assert Multipliers(cfg, samples)[a] == ONE;
    }
  }

  lemma EnabledHasEntries(settings: Settings, s: State, r: Round)
    requires Fits(settings) && s.entries != [] && s.optimisers != []
    requires OptimiseEnabled(settings, AfterWait(settings, s, r), CycleOf(s, r))
    ensures LoopOf(s).entries != []
  {
    hide Lists, Cycled, WeightMap, Readings;
  }

  lemma BalancedRoundIsQuiet(settings: Settings, s: State, r: Round, addresses: set<Address>)
    requires Fits(settings) && s.entries != [] && s.optimisers != [] && BalancedRound(settings, s, r, addresses)
    ensures GoesThrough(settings, s, r) && LoopOf(s).entries != []
    ensures forall a :: a in addresses ==>
              var readings := Readings(settings.cfg, r.samples);
              a in readings && readings[a].measured.multiplier == ONE
  {
    hide OptimiseEnabled, Balanced, Readings, GoesThrough, LoopOf;
    BalancedGoesThrough(settings, s, r);
    BalancedReadings(settings.cfg, r.samples);
    EnabledHasEntries(settings, s, r);
  }

  lemma BalancedIsQuiet(settings: Settings, s: State, rounds: nat -> Round, readings: nat -> map<Address, Reading>)
    requires Fits(settings) && s.entries != [] && s.optimisers != [] && AlwaysBalanced(settings, s, rounds)
    requires StoredOnes(LoopOf(s)) && forall k: nat :: readings(k) == Readings(settings.cfg, rounds(k).samples)
    ensures AlwaysQuiet(LoopOf(s), readings) && LoopOf(s).entries != []
    ensures forall k: nat :: GoesThrough(settings, Rounds(settings, s, rounds, k), rounds(k))
  {
    hide BalancedRound, WeightMap, Readings, GoesThrough, LoopOf, AfterRound, Rounds;
    var addresses := WeightMap(LoopOf(s).entries).Keys;
    forall k: nat
      ensures GoesThrough(settings, Rounds(settings, s, rounds, k), rounds(k))
      ensures forall a :: a in addresses ==> a in readings(k) && readings(k)[a].measured.multiplier == ONE
    {
      BalancedRoundIsQuiet(settings, Rounds(settings, s, rounds, k), rounds(k), addresses);
    }
    NoRounds(settings, s, rounds);
    BalancedRoundIsQuiet(settings, s, rounds(0), addresses);
  }

  lemma NoRounds(settings: Settings, s: State, rounds: nat -> Round)
    requires Fits(settings) && s.entries != [] && s.optimisers != []
    ensures Rounds(settings, s, rounds, 0) == s
  {
  }

  lemma ForEntries(settings: Settings, s: State, rounds: nat -> Round, readings: nat -> map<Address, Reading>,
                   stamps: nat -> Address -> Time, n: nat)
    requires Fits(settings) && s.entries != [] && s.optimisers != []
    requires forall k: nat :: GoesThrough(settings, Rounds(settings, s, rounds, k), rounds(k))
    requires forall k: nat :: readings(k) == Readings(settings.cfg, rounds(k).samples) && stamps(k) == rounds(k).stamp
    ensures var l, t := LoopOf(Rounds(settings, s, rounds, n)), Turns(settings.cfg, LoopOf(s), readings, stamps, n);
            l.entries == t.entries && (Steady(settings.cfg, l) <==> Steady(settings.cfg, t))
  {
    hide GoesThrough, LoopOf, Rounds, Turns, WeightMap, Readings;
    RoundsAreTurns(settings, s, rounds, readings, stamps, n);
  }

  /** From stored multipliers of 1, as a reset leaves them. */
  lemma FixedPointFromOnes(settings: Settings, s: State, rounds: nat -> Round, n: nat)
    requires Fits(settings) && settings.cfg.Sane() && s.entries != [] && s.optimisers != []
    requires settings.cfg.minimumWeight * settings.cfg.Middle() >= settings.cfg.maximumWeight
    requires AlwaysBalanced(settings, s, rounds) && StoredOnes(LoopOf(s))
    ensures var t := Rounds(settings, s, rounds, n + 3);
            Steady(settings.cfg, LoopOf(t)) &&
            LoopOf(t).entries == LoopOf(Rounds(settings, s, rounds, 3)).entries
    ensures |WeightMap(LoopOf(s).entries)| % 2 == 1 ==>
              var t := Rounds(settings, s, rounds, n + 2);
              Steady(settings.cfg, LoopOf(t)) &&
              LoopOf(t).entries == LoopOf(Rounds(settings, s, rounds, 2)).entries
  {
    hide AlwaysBalanced, AlwaysQuiet, GoesThrough, LoopOf, Rounds, Turns, WeightMap, Readings, Steady, Config.Sane,
      StoredOnes;
    var readings := (k: nat) => Readings(settings.cfg, rounds(k).samples);
    var stamps := (k: nat) => rounds(k).stamp;
    BalancedIsQuiet(settings, s, rounds, readings);
    ClosedLoopFixedPoint(settings.cfg, LoopOf(s), readings, stamps, n);
    ForEntries(settings, s, rounds, readings, stamps, n + 3);
    ForEntries(settings, s, rounds, readings, stamps, n + 2);
    ForEntries(settings, s, rounds, readings, stamps, 3);
    ForEntries(settings, s, rounds, readings, stamps, 2);
  }

  lemma {:induction false} ShiftedRounds(settings: Settings, s: State, rounds: nat -> Round, later: nat -> Round, n: nat)
    requires Fits(settings) && s.entries != [] && s.optimisers != []
    requires forall k: nat :: later(k) == rounds(k + 1)
    ensures Rounds(settings, s, rounds, n + 1) == Rounds(settings, AfterRound(settings, s, rounds(0)), later, n)
  {
    hide AfterRound;
    if n == 0 {
      assert Rounds(settings, s, rounds, 0) == s;
    } else {
      ShiftedRounds(settings, s, rounds, later, n - 1);
    }
  }

  /** A balanced round leaves multipliers of 1, whatever was stored, and the same addresses. */
  lemma BalancedRoundLeavesOnes(settings: Settings, s: State, r: Round, addresses: set<Address>)
    requires Fits(settings) && s.entries != [] && s.optimisers != [] && BalancedRound(settings, s, r, addresses)
    ensures StoredOnes(LoopOf(AfterRound(settings, s, r)))
    ensures WeightMap(LoopOf(AfterRound(settings, s, r)).entries).Keys == WeightMap(LoopOf(s).entries).Keys
  {
    hide LoopOf, AfterRound, WeightMap, GoesThrough, Balanced, OptimiseEnabled, Readings, Cycled, Overlaid;
    var l, readings := LoopOf(s), Readings(settings.cfg, r.samples);
    BalancedRoundIsQuiet(settings, s, r, addresses);
    BalancedReadings(settings.cfg, r.samples);
    RoundIsTurn(settings, s, r);
    CycleStoresMeasured(settings.cfg, readings, WeightMap(l.entries), l.stored, r.stamp);
    WeightMapOfOverlaid(WeightsOf(Turn(settings.cfg, l, readings, r.stamp).stored), l.entries);
  }

  lemma BalancedLater(settings: Settings, s: State, rounds: nat -> Round, later: nat -> Round)
    requires Fits(settings) && s.entries != [] && s.optimisers != [] && AlwaysBalanced(settings, s, rounds)
    requires forall k: nat :: later(k) == rounds(k + 1)
    ensures var t := AfterRound(settings, s, rounds(0));
            AlwaysBalanced(settings, t, later) && StoredOnes(LoopOf(t)) &&
            WeightMap(LoopOf(t).entries).Keys == WeightMap(LoopOf(s).entries).Keys
  {
    hide LoopOf, AfterRound, WeightMap, BalancedRound, Rounds, StoredOnes;
    var t, addresses := AfterRound(settings, s, rounds(0)), WeightMap(LoopOf(s).entries).Keys;
    NoRounds(settings, s, rounds);
    BalancedRoundLeavesOnes(settings, s, rounds(0), addresses);
    forall k: nat ensures BalancedRound(settings, Rounds(settings, t, later, k), later(k), addresses) {
      ShiftedRounds(settings, s, rounds, later, k);
      assert BalancedRound(settings, Rounds(settings, s, rounds, k + 1), rounds(k + 1), addresses);
    }
  }

  /** The fixed point, for the system. From any state, under balanced load on all addresses and
      Min * middle >= Max: from the fourth round on the median of the ServiceEntry is the middle,
      all its weights are in [Min, Max], and no round changes any entry; with an odd number of
      addresses already from the third on. */
  lemma SystemFixedPoint(settings: Settings, s: State, rounds: nat -> Round, n: nat)
    requires Fits(settings) && settings.cfg.Sane() && s.entries != [] && s.optimisers != []
    requires settings.cfg.minimumWeight * settings.cfg.Middle() >= settings.cfg.maximumWeight
    requires AlwaysBalanced(settings, s, rounds)
    ensures var t := Rounds(settings, s, rounds, n + 4);
            Steady(settings.cfg, LoopOf(t)) &&
            LoopOf(t).entries == LoopOf(Rounds(settings, s, rounds, 4)).entries
    ensures |WeightMap(LoopOf(s).entries)| % 2 == 1 ==>
              var t := Rounds(settings, s, rounds, n + 3);
              Steady(settings.cfg, LoopOf(t)) &&
              LoopOf(t).entries == LoopOf(Rounds(settings, s, rounds, 3)).entries
  {
    hide *;
    var t, later := AfterRound(settings, s, rounds(0)), (k: nat) => rounds(k + 1);
    BalancedLater(settings, s, rounds, later);
    FixedPointFromOnes(settings, t, later, n);
    ShiftedRounds(settings, s, rounds, later, n + 3);
    ShiftedRounds(settings, s, rounds, later, n + 2);
    ShiftedRounds(settings, s, rounds, later, 3);
    ShiftedRounds(settings, s, rounds, later, 2);
    SameSize(WeightMap(LoopOf(t).entries), WeightMap(LoopOf(s).entries));
  }
}
