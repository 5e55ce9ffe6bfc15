/** What the control law guarantees when the CPU times are what a rate can be: finite and
    not negative, and not all zero. */
module ControlLaw {
  import opened Arithmetic
  import opened Floats
  import opened Ordering
  import opened Weights
  import opened Control

  ghost predicate Rate(x: Float) { x.Fin? && x.value >= 0.0 }

  ghost predicate Rates(s: seq<Float>) {
    forall x :: x in s ==> Rate(x)
  }

  /** Finite CPU times, none negative, not all zero. */
  ghost predicate Healthy(samples: map<Address, Sample>) {
    (forall a :: a in samples ==> Rate(samples[a].cpu)) &&
    (exists a :: a in samples && samples[a].cpu != ZERO)
  }

  /** The two percentages, as fractions. */
  function Gain(cfg: Config): real { cfg.cpuDistanceMultiplierPercent / 100.0 }

  function Tolerance(cfg: Config): real { cfg.minOptimizeCpuDistancePercent / 100.0 }

  function AbsReal(x: real): real { if x < 0.0 then -x else x }

  /** Busy pods whose distance is too small to act on. */
  function DeadCount(cfg: Config, mean: Float, s: seq<Float>): nat {
    if s == [] then 0
    else (if s[0] != ZERO && InDeadBand(cfg, mean, Sub(s[0], mean)) then 1 else 0)
         + DeadCount(cfg, mean, s[1..])
  }

  /* ---- One pod ---- */

  /** The distance relative to the mean, as a share. */
  function Share(mean: real, cpu: real): real
    requires mean > 0.0
  {
    if cpu == 0.0 then 0.0 else (cpu - mean) / mean
  }

  lemma QuotientOfProduct(x: real, y: real)
    requires y != 0.0
    ensures x / y * y == x
  {
  }

  lemma MeasureOfRate(cfg: Config, mean: real, cpu: real)
    requires mean > 0.0
    ensures var r, u := Measure(cfg, Fin(mean), Fin(cpu)), Share(mean, cpu);
            r.distance == Fin(if cpu == 0.0 then 0.0 else cpu - mean) &&
            r.alpha == Fin(if AbsReal(u) < Tolerance(cfg) then 0.0 else Gain(cfg) * u) &&
            r.multiplier == Fin(1.0 - if AbsReal(u) < Tolerance(cfg) then 0.0 else Gain(cfg) * u)
    ensures InDeadBand(cfg, Fin(mean), Measure(cfg, Fin(mean), Fin(cpu)).distance)
            <==> AbsReal(Share(mean, cpu)) < Tolerance(cfg)
  {
    var d := if cpu == 0.0 then 0.0 else cpu - mean;
    assert Sub(Effective(Fin(mean), Fin(cpu)), Fin(mean)) == Fin(d);
    AbsOfQuotient(d, mean);
    FiniteQuotient(AbsReal(d), mean);
    assert Abs(Fin(d)) == Fin(AbsReal(d));
    FiniteQuotient(Gain(cfg), mean);
    FiniteProduct(d, Gain(cfg) / mean);
    MoveQuotient(d, Gain(cfg), mean);
    assert Share(mean, cpu) == d / mean;
  }

  lemma MoveQuotient(x: real, k: real, m: real)
    requires m > 0.0
    ensures x * (k / m) == k * (x / m)
  {
  }

  lemma AbsOfQuotient(d: real, m: real)
    requires m > 0.0
    ensures AbsReal(d) / m == AbsReal(d / m)
  {
  }

  lemma ScaleBound(k: real, u: real, t: real)
    requires AbsReal(u) < t
    ensures AbsReal(k * u) <= AbsReal(k) * t
  {
    assert AbsReal(k * u) == AbsReal(k) * AbsReal(u);
  }

  /* ---- Sums over all pods ---- */

  function TotalMultiplier(cfg: Config, mean: Float, s: seq<Float>): Float {
    if s == [] then ZERO else Add(Measure(cfg, mean, s[0]).multiplier, TotalMultiplier(cfg, mean, s[1..]))
  }

  function TotalDistance(cfg: Config, mean: Float, s: seq<Float>): Float {
    if s == [] then ZERO else Add(Measure(cfg, mean, s[0]).distance, TotalDistance(cfg, mean, s[1..]))
  }

  ghost function TotalShare(mean: real, s: seq<Float>): real
    requires mean > 0.0 && AllFinite(s)
  {
    if s == [] then 0.0 else assert s[0] in s; Share(mean, s[0].value) + TotalShare(mean, s[1..])
  }

  lemma {:induction false} SumIsTotalMultiplier(cfg: Config, mean: Float, s: seq<Float>, t: seq<Float>)
    requires |t| == |s| && forall i :: 0 <= i < |s| ==> t[i] == Measure(cfg, mean, s[i]).multiplier
    ensures Sum(t) == TotalMultiplier(cfg, mean, s)
  {
    if s != [] { SumIsTotalMultiplier(cfg, mean, s[1..], t[1..]); }
  }

  lemma {:induction false} SumIsTotalDistance(cfg: Config, mean: Float, s: seq<Float>, t: seq<Float>)
    requires |t| == |s| && forall i :: 0 <= i < |s| ==> t[i] == Measure(cfg, mean, s[i]).distance
    ensures Sum(t) == TotalDistance(cfg, mean, s)
  {
    if s != [] { SumIsTotalDistance(cfg, mean, s[1..], t[1..]); }
  }

  /** The mean, once for each busy pod. */
  function Level(mean: real, s: seq<Float>): real {
    if s == [] then 0.0 else (if s[0] != ZERO then mean else 0.0) + Level(mean, s[1..])
  }

  lemma LevelStep(mean: real, s: seq<Float>)
    ensures s == [] ==> Level(mean, s) == 0.0 && |Busy(s)| == 0
    ensures s != [] ==>
              var b := if s[0] != ZERO then 1 else 0;
              Level(mean, s) == (if b == 1 then mean else 0.0) + Level(mean, s[1..]) &&
              |Busy(s)| == b + |Busy(s[1..])|
  {
  }

  lemma {:induction false} LevelIsProduct(mean: real, s: seq<Float>)
    ensures Level(mean, s) == mean * |Busy(s)| as real
  {
    hide *;
    LevelStep(mean, s);
    if s != [] {
      LevelIsProduct(mean, s[1..]);
      CountTimesMean(mean, |Busy(s[1..])|);
    }
  }

  lemma {:induction false} DistancesCancel(cfg: Config, mean: real, s: seq<Float>)
    requires mean > 0.0 && Rates(s)
    ensures Sum(s).Fin? && TotalDistance(cfg, Fin(mean), s) == Fin(Sum(s).value - Level(mean, s))
  {
    hide Measure;
    HeadsAndTails(s);
    if s != [] {
      DistancesCancel(cfg, mean, s[1..]);
      MeasureOfRate(cfg, mean, s[0].value);
    }
  }

  lemma ShareUnfold(mean: real, s: seq<Float>)
    requires mean > 0.0 && Rates(s)
    ensures AllFinite(s) && Sum(s).Fin?
    ensures s == [] ==> TotalShare(mean, s) == Sum(s).value == Level(mean, s) == 0.0
    ensures s != [] ==>
              Rates(s[1..]) && AllFinite(s[1..]) && Sum(s[1..]).Fin? && s[0].Fin? &&
              var x := s[0].value;
              TotalShare(mean, s) == Share(mean, x) + TotalShare(mean, s[1..]) &&
              Sum(s).value == x + Sum(s[1..]).value &&
              Level(mean, s) == (if x != 0.0 then mean else 0.0) + Level(mean, s[1..])
  {
    hide Share;
    HeadsAndTails(s);
    SumFinite(s);
    SumFinite(s[if s == [] then 0 else 1..]);
  }

  lemma {:induction false} SharesCancel(mean: real, s: seq<Float>)
    requires mean > 0.0 && Rates(s)
    ensures AllFinite(s) && Sum(s).Fin?
    ensures TotalShare(mean, s) * mean == Sum(s).value - Level(mean, s)
  {
    hide *;
    ShareUnfold(mean, s);
    if s != [] {
      var x, t := s[0].value, s[1..];
      SharesCancel(mean, t);
      ShareTimesMean(mean, x);
      ShareStep(Share(mean, x), TotalShare(mean, t), mean, if x == 0.0 then 0.0 else x - mean,
                Sum(t).value - Level(mean, t));
    }
  }

  lemma ShareStep(u: real, w: real, mean: real, d: real, rest: real)
    requires u * mean == d && w * mean == rest
    ensures (u + w) * mean == d + rest
  {
    Distribute(u, w, mean);
  }

  lemma HeadsAndTails(s: seq<Float>)
    requires Rates(s)
    ensures s != [] ==> Rate(s[0]) && Rates(s[1..]) && AllFinite(s) && AllFinite(s[1..])
  {
    if s != [] { HeadAndTail(s); }
  }

  lemma HeadAndTail(s: seq<Float>)
    requires Rates(s) && s != []
    ensures Rate(s[0]) && Rates(s[1..]) && AllFinite(s) && AllFinite(s[1..])
  {
    assert s[0] in s;
    assert s == [s[0]] + s[1..];
  }

  lemma Distribute(x: real, y: real, z: real)
    ensures (x + y) * z == x * z + y * z
  {
  }

  lemma ShareTimesMean(mean: real, cpu: real)
    requires mean > 0.0
    ensures Share(mean, cpu) * mean == if cpu == 0.0 then 0.0 else cpu - mean
  {
  }

  lemma CountTimesMean(mean: real, n: nat)
    ensures mean * (n + 1) as real == mean * n as real + mean
  {
    assert (n + 1) as real == n as real + 1.0;
  }

  /** The exact law would subtract this from the multiplier of a pod. */
  function Push(cfg: Config, mean: real, cpu: real): real
    requires mean > 0.0
  {
    Gain(cfg) * Share(mean, cpu)
  }

  lemma PushBound(cfg: Config, mean: real, cpu: real)
    requires mean > 0.0
    ensures AbsReal(Share(mean, cpu)) < Tolerance(cfg) ==> AbsReal(Push(cfg, mean, cpu)) <= Slack(cfg)
    ensures cpu == 0.0 ==> Push(cfg, mean, cpu) == 0.0
  {
    var u := Share(mean, cpu);
    if AbsReal(u) < Tolerance(cfg) { ScaleBound(Gain(cfg), u, Tolerance(cfg)); }
  }

  lemma MultiplierOfRate(cfg: Config, mean: real, cpu: real)
    requires mean > 0.0
    ensures var r, p := Measure(cfg, Fin(mean), Fin(cpu)).multiplier, Push(cfg, mean, cpu);
            var dead := cpu != 0.0 && InDeadBand(cfg, Fin(mean), Sub(Fin(cpu), Fin(mean)));
            r.Fin? && AbsReal(r.value - 1.0 + p) <= if dead then Slack(cfg) else 0.0
  {
    hide Measure, Share, Gain, Tolerance, InDeadBand, Slack;
    MeasureOfRate(cfg, mean, cpu);
    PushBound(cfg, mean, cpu);
    assert Sub(Fin(cpu), Fin(mean)) == Fin(cpu - mean);
  }

  function Slack(cfg: Config): real { AbsReal(Gain(cfg)) * Tolerance(cfg) }

  ghost function TotalPush(cfg: Config, mean: real, s: seq<Float>): real
    requires mean > 0.0 && AllFinite(s)
  {
    if s == [] then 0.0 else assert s[0] in s; Push(cfg, mean, s[0].value) + TotalPush(cfg, mean, s[1..])
  }

  /** `slack`, once for each busy pod in the dead band. */
  function Allowance(cfg: Config, mean: Float, slack: real, s: seq<Float>): real {
    if s == [] then 0.0
    else (if s[0] != ZERO && InDeadBand(cfg, mean, Sub(s[0], mean)) then slack else 0.0)
         + Allowance(cfg, mean, slack, s[1..])
  }

  lemma AllowanceStep(cfg: Config, mean: Float, slack: real, s: seq<Float>)
    ensures s == [] ==> Allowance(cfg, mean, slack, s) == 0.0 && DeadCount(cfg, mean, s) == 0
    ensures s != [] ==>
              var b := if s[0] != ZERO && InDeadBand(cfg, mean, Sub(s[0], mean)) then 1 else 0;
              Allowance(cfg, mean, slack, s) == (if b == 1 then slack else 0.0) + Allowance(cfg, mean, slack, s[1..]) &&
              DeadCount(cfg, mean, s) == b + DeadCount(cfg, mean, s[1..])
  {
    hide InDeadBand;
  }

  lemma {:induction false} AllowanceIsProduct(cfg: Config, mean: Float, slack: real, s: seq<Float>)
    ensures Allowance(cfg, mean, slack, s) == slack * DeadCount(cfg, mean, s) as real
  {
    hide *;
    AllowanceStep(cfg, mean, slack, s);
    if s != [] {
      AllowanceIsProduct(cfg, mean, slack, s[1..]);
      CountTimesMean(slack, DeadCount(cfg, mean, s[1..]));
    }
  }

  lemma PushIs(cfg: Config, mean: real, cpu: real)
    requires mean > 0.0
    ensures Push(cfg, mean, cpu) == Gain(cfg) * Share(mean, cpu)
  {
    hide Share, Gain;
  }

  lemma PushStep(cfg: Config, mean: real, s: seq<Float>)
    requires mean > 0.0 && AllFinite(s)
    ensures s == [] ==> TotalPush(cfg, mean, s) == 0.0 && TotalShare(mean, s) == 0.0
    ensures s != [] ==>
              s[0].Fin? && AllFinite(s[1..]) &&
              TotalPush(cfg, mean, s) == Push(cfg, mean, s[0].value) + TotalPush(cfg, mean, s[1..]) &&
              TotalShare(mean, s) == Share(mean, s[0].value) + TotalShare(mean, s[1..])
  {
    hide Share, Push;
    if s != [] { assert s[0] in s; assert s == [s[0]] + s[1..]; }
  }

  lemma {:induction false} PushIsProduct(cfg: Config, mean: real, s: seq<Float>)
    requires mean > 0.0 && AllFinite(s)
    ensures TotalPush(cfg, mean, s) == Gain(cfg) * TotalShare(mean, s)
  {
    hide *;
    PushStep(cfg, mean, s);
    if s != [] {
      PushIsProduct(cfg, mean, s[1..]);
      PushIs(cfg, mean, s[0].value);
      DistributeLeft(Gain(cfg), Share(mean, s[0].value), TotalShare(mean, s[1..]));
    }
  }

  lemma DistributeLeft(k: real, x: real, y: real)
    ensures k * (x + y) == k * x + k * y
  {
  }

  lemma {:induction false} MultipliersNearlyConserved(cfg: Config, mean: real, s: seq<Float>)
    requires mean > 0.0 && Rates(s)
    ensures AllFinite(s) && TotalMultiplier(cfg, Fin(mean), s).Fin?
    ensures AbsReal(TotalMultiplier(cfg, Fin(mean), s).value - |s| as real + TotalPush(cfg, mean, s))
            <= Allowance(cfg, Fin(mean), Slack(cfg), s)
  {
    hide Measure, Push, Slack, InDeadBand;
    HeadsAndTails(s);
    if s != [] {
      MultipliersNearlyConserved(cfg, mean, s[1..]);
      MultiplierOfRate(cfg, mean, s[0].value);
      assert s[0] == Fin(s[0].value);
    }
  }

  /* ---- The mean ---- */

  lemma {:induction false} SumOfRates(s: seq<Float>)
    requires Rates(s)
    ensures Sum(s).Fin? && Sum(s).value >= 0.0
    ensures forall x :: x in s ==> x.value <= Sum(s).value
  {
    if s != [] {
      HeadAndTail(s);
      SumOfRates(s[1..]);
      assert s == [s[0]] + s[1..];
    }
  }

  lemma SumUnfold(s: seq<Float>)
    requires s != []
    ensures Sum(s) == Add(s[0], Sum(s[1..]))
  {
    hide Add;
  }

  lemma BusyUnfold(s: seq<Float>)
    requires s != []
    ensures s[0] == ZERO ==> Busy(s) == Busy(s[1..])
    ensures s[0] != ZERO ==> Busy(s) != [] && Busy(s)[0] == s[0] && Busy(s)[1..] == Busy(s[1..])
  {
  }

  lemma {:induction false} SumOfBusy(s: seq<Float>)
    ensures Sum(Busy(s)) == Sum(s)
  {
    if s != [] {
      hide Add, Sum, Busy;
      SumOfBusy(s[1..]);
      SumUnfold(s);
      BusyUnfold(s);
      if s[0] == ZERO {
        AddZero(Sum(s[1..]));
      } else {
        SumUnfold(Busy(s));
      }
    }
  }

  lemma MeanOfRates(s: seq<Float>)
    requires Rates(s) && Busy(s) != []
    ensures var mean := Mean(Busy(s));
            Sum(s).Fin? && mean.Fin? && mean.value > 0.0 && mean.value * |Busy(s)| as real == Sum(s).value
  {
    hide *;
    SumOfRates(s);
    SumOfBusy(s);
    BusyMembers(s);
    var x := Busy(s)[0];
    assert x in Busy(s);
    RatesMember(s, x);
    MeanOfSome(Busy(s));
    RateOfNonzero(x);
    MeanValue(Sum(s).value, |Busy(s)|);
  }

  lemma RateOfNonzero(x: Float)
    requires Rate(x) && x != ZERO
    ensures x.Fin? && x.value > 0.0
  {
  }

  lemma RatesMember(s: seq<Float>, x: Float)
    requires Rates(s) && x in s
    ensures Rate(x) && x.Fin? && x.value >= 0.0
  {
  }

  lemma MeanOfSome(s: seq<Float>)
    requires s != []
    ensures Mean(s) == Div(Sum(s), Fin(|s| as real))
  {
  }

  lemma MeanValue(x: real, n: nat)
    requires x > 0.0 && n > 0
    ensures var q := Div(Fin(x), Fin(n as real));
            q.Fin? && q.value > 0.0 && q.value * n as real == x
  {
    FiniteQuotient(x, n as real);
    QuotientOfProduct(x, n as real);
    PositiveQuotient(x, n as real);
  }

  lemma HealthyRates(samples: map<Address, Sample>)
    requires Healthy(samples)
    ensures Rates(Values(Cpus(samples))) && Busy(Values(Cpus(samples))) != []
    ensures forall a :: a in samples ==> Rate(samples[a].cpu) && samples[a].cpu in Values(Cpus(samples))
    ensures MeanCpu(samples) == Mean(Busy(Values(Cpus(samples))))
  {
    hide Mean;
    var cpus := Cpus(samples);
    var s := Values(cpus);
    forall x | x in s ensures Rate(x) {
      ValuesAreValues(cpus, x);
      var a :| a in cpus && cpus[a] == x;
      assert Rate(samples[a].cpu);
    }
    forall a | a in samples ensures samples[a].cpu in s { ValueOf(cpus, a); }
    BusyMembers(s);
    var a :| a in samples && samples[a].cpu != ZERO;
    assert samples[a].cpu in Busy(s);
  }

  lemma HealthyMean(samples: map<Address, Sample>)
    requires Healthy(samples)
    ensures MeanCpu(samples).Fin? && MeanCpu(samples).value > 0.0
  {
    hide *;
    HealthyRates(samples);
    MeanOfRates(Values(Cpus(samples)));
  }

  lemma MultiplierIs(cfg: Config, samples: map<Address, Sample>, a: Address)
    requires a in samples
    ensures Multipliers(cfg, samples)[a] == Measure(cfg, MeanCpu(samples), samples[a].cpu).multiplier
    ensures Distances(cfg, samples)[a] == Measure(cfg, MeanCpu(samples), samples[a].cpu).distance
  {
  }

  lemma PositiveQuotient(x: real, y: real)
    requires x > 0.0 && y > 0.0
    ensures x / y > 0.0
  {
  }

  lemma AlongTheWalk(cfg: Config, samples: map<Address, Sample>, i: nat)
    requires i < |samples|
    ensures var s, mean := Values(Cpus(samples)), MeanCpu(samples);
            |s| == |Values(Multipliers(cfg, samples))| == |Values(Distances(cfg, samples))| == |samples| &&
            Values(Multipliers(cfg, samples))[i] == Measure(cfg, mean, s[i]).multiplier &&
            Values(Distances(cfg, samples))[i] == Measure(cfg, mean, s[i]).distance
  {
    SameWalk(samples, Cpus(samples));
    SameWalk(samples, Multipliers(cfg, samples));
    SameWalk(samples, Distances(cfg, samples));
    var a := Order(samples.Keys)[i];
    assert a in Order(samples.Keys);
    MultiplierIs(cfg, samples, a);
  }

  lemma SameWalk<U, V>(m: map<Address, U>, n: map<Address, V>)
    requires m.Keys == n.Keys
    ensures |m| == |n| && |Order(n.Keys)| == |m|
    ensures Values(n) == Lookup(n, Order(m.Keys))
  {
    assert |m| == |m.Keys| && |n| == |n.Keys|;
    OrderIsMultisetOfKeys(Order(n.Keys), n.Keys);
  }

  lemma TotalsAreSums(cfg: Config, samples: map<Address, Sample>)
    ensures var s, mean := Values(Cpus(samples)), MeanCpu(samples);
            Sum(Values(Multipliers(cfg, samples))) == TotalMultiplier(cfg, mean, s) &&
            Sum(Values(Distances(cfg, samples))) == TotalDistance(cfg, mean, s) && |s| == |samples|
  {
    var s, mean := Values(Cpus(samples)), MeanCpu(samples);
    SameWalk(samples, Cpus(samples));
    SameWalk(samples, Multipliers(cfg, samples));
    SameWalk(samples, Distances(cfg, samples));
    forall i | 0 <= i < |s|
      ensures Values(Multipliers(cfg, samples))[i] == Measure(cfg, mean, s[i]).multiplier
      ensures Values(Distances(cfg, samples))[i] == Measure(cfg, mean, s[i]).distance
    {
      AlongTheWalk(cfg, samples, i);
    }
    SumIsTotalMultiplier(cfg, mean, s, Values(Multipliers(cfg, samples)));
    SumIsTotalDistance(cfg, mean, s, Values(Distances(cfg, samples)));
  }

  /** Near-conservation over the CPU times in walk order. */
  lemma NearConservationAlong(cfg: Config, mean: real, s: seq<Float>)
    requires mean > 0.0 && Rates(s) && Sum(s).Fin? && mean * |Busy(s)| as real == Sum(s).value
    ensures TotalDistance(cfg, Fin(mean), s) == ZERO && TotalMultiplier(cfg, Fin(mean), s).Fin?
    ensures AbsReal(TotalMultiplier(cfg, Fin(mean), s).value - |s| as real)
            <= AbsReal(Gain(cfg)) * Tolerance(cfg) * DeadCount(cfg, Fin(mean), s) as real
  {
    hide *;
    DistancesCancel(cfg, mean, s);
    SharesCancel(mean, s);
    LevelIsProduct(mean, s);
    MultipliersNearlyConserved(cfg, mean, s);
    AllowanceIsProduct(cfg, Fin(mean), Slack(cfg), s);
    PushIsProduct(cfg, mean, s);
    ZeroProduct(TotalShare(mean, s), mean);
    ProductWithZero(Gain(cfg), TotalShare(mean, s));
    SlackIs(cfg);
    assert TotalPush(cfg, mean, s) == 0.0;
    ZeroIsFinite();
  }

  lemma ZeroIsFinite()
    ensures ZERO == Fin(0.0)
  {
  }

  lemma ProductWithZero(k: real, x: real)
    requires x == 0.0
    ensures k * x == 0.0
  {
  }

  lemma SlackIs(cfg: Config)
    ensures Slack(cfg) == AbsReal(Gain(cfg)) * Tolerance(cfg)
  {
  }

  /** Near-conservation. The distances of all pods cancel, and the multipliers add up to the
      number of pods within (busy pods in the dead band) * |gain| * tolerance: what the loop
      takes from the hot pods it gives to the cold ones. */
  lemma NearConservation(cfg: Config, samples: map<Address, Sample>)
    requires Healthy(samples)
    ensures Sum(Values(Distances(cfg, samples))) == ZERO
    ensures var total := Sum(Values(Multipliers(cfg, samples)));
            var dead := DeadCount(cfg, MeanCpu(samples), Values(Cpus(samples)));
            total.Fin? &&
            AbsReal(total.value - |samples| as real) <= AbsReal(Gain(cfg)) * Tolerance(cfg) * dead as real
  {
    hide *;
    var s := Values(Cpus(samples));
    HealthyRates(samples);
    MeanOfRates(s);
    TotalsAreSums(cfg, samples);
    NearConservationAlong(cfg, MeanCpu(samples).value, s);
  }

  lemma ZeroProduct(x: real, y: real)
    requires y > 0.0 && x * y == 0.0
    ensures x == 0.0
  {
  }

  /* ---- Range and direction ---- */

  lemma ShareBounds(mean: real, cpu: real, busy: nat, total: real)
    requires mean > 0.0 && 0.0 <= cpu <= total && total == mean * busy as real && busy > 0
    ensures -1.0 <= Share(mean, cpu) <= busy as real - 1.0
  {
    if cpu != 0.0 {
      ShareTimesMean(mean, cpu);
      var u := Share(mean, cpu);
      CancelReal(-1.0, u, mean, -mean, cpu - mean);
      SuccProductReal(busy as real - 1.0, mean);
      CancelReal(u, busy as real - 1.0, mean, cpu - mean, total - mean);
    }
  }

  /** `r` is at a distance from 1 that a gain `k` and shares between -1 and `n` allow: a gain of
      either sign pushes at most `k` one way and `n * k` the other. */
  predicate Pushed(r: real, k: real, n: real) {
    if k >= 0.0 then 1.0 - n * k <= r <= 1.0 + k else 1.0 + k <= r <= 1.0 - n * k
  }

  lemma MeasureRange(cfg: Config, s: seq<Float>, c: Float)
    requires Rates(s) && c in s && Busy(s) != []
    ensures var m, r := |Busy(s)|, Measure(cfg, Mean(Busy(s)), c).multiplier;
            r.Fin? && Pushed(r.value, Gain(cfg), (m - 1) as real)
  {
    hide *;
    MeanOfRates(s);
    SumOfRates(s);
    RatesMember(s, c);
    var m, mean, k := |Busy(s)|, Mean(Busy(s)).value, Gain(cfg);
    MeasureOfRate(cfg, mean, c.value);
    ShareBounds(mean, c.value, m, Sum(s).value);
    assert (m - 1) as real == m as real - 1.0;
    RangeOfShare(k, Share(mean, c.value), (m - 1) as real, Measure(cfg, Fin(mean), c).multiplier.value);
  }

  lemma RangeOfShare(k: real, u: real, n: real, r: real)
    requires -1.0 <= u <= n && 0.0 <= n && (r == 1.0 || r == 1.0 - k * u)
    ensures Pushed(r, k, n)
  {
    Product(k, u, n, k * u, n * k);
  }

  lemma Product(k: real, u: real, n: real, p: real, q: real)
    requires -1.0 <= u <= n && 0.0 <= n && p == k * u && q == n * k
    ensures if k >= 0.0 then -k <= p <= q && 0.0 <= q else q <= p <= -k && q <= 0.0
  {
    if k >= 0.0 {
      MonotoneProduct(k, -1.0, u, -k, p);
      MonotoneProduct(k, u, n, p, q);
      MonotoneProduct(k, 0.0, n, 0.0, q);
    } else {
      Negated(k, u, n);
      MonotoneProduct(-k, -1.0, u, k, -p);
      MonotoneProduct(-k, u, n, -p, -q);
      MonotoneProduct(-k, 0.0, n, 0.0, -q);
    }
  }

  lemma Negated(k: real, u: real, n: real)
    ensures (-k) * u == -(k * u) && (-k) * n == -(n * k) && (-k) * -1.0 == k
  {
  }

  /** Every multiplier is a number between 1 - (m - 1) * gain and 1 + gain (the other way round
      for a negative gain), where m is the number of busy pods: only the cold side of the range
      is independent of the fleet. */
  lemma MultiplierRange(cfg: Config, samples: map<Address, Sample>, a: Address)
    requires Healthy(samples) && a in samples
    ensures var m, r := |Busy(Values(Cpus(samples)))|, Multipliers(cfg, samples)[a];
            m >= 1 && r.Fin? && Pushed(r.value, Gain(cfg), (m - 1) as real)
  {
    hide *;
    HealthyRates(samples);
    MeasureRange(cfg, Values(Cpus(samples)), samples[a].cpu);
    MultiplierIs(cfg, samples, a);
  }

  /** Pods without a CPU time count as average. */
  function EffectiveRate(mean: real, cpu: real): real { if cpu == 0.0 then mean else cpu }

  lemma ShareMonotone(mean: real, c: real, d: real)
    requires mean > 0.0 && EffectiveRate(mean, c) <= EffectiveRate(mean, d)
    ensures Share(mean, c) <= Share(mean, d)
  {
    ShareTimesMean(mean, c);
    ShareTimesMean(mean, d);
    CancelReal(Share(mean, c), Share(mean, d), mean, EffectiveRate(mean, c) - mean, EffectiveRate(mean, d) - mean);
  }

  lemma SignOfProduct(k: real, u: real, p: real)
    requires 0.0 <= k && p == k * u
    ensures u <= 0.0 ==> p <= 0.0
    ensures u >= 0.0 ==> p >= 0.0
  {
  }

  /** What is subtracted from 1: nothing inside the dead band. */
  function Acting(k: real, t: real, u: real): real {
    if AbsReal(u) < t then 0.0 else k * u
  }

  lemma ActingIsMonotone(k: real, t: real, u: real, v: real)
    requires u <= v
    ensures 0.0 <= k ==> Acting(k, t, u) <= Acting(k, t, v)
    ensures k <= 0.0 ==> Acting(k, t, v) <= Acting(k, t, u)
  {
    var j := if 0.0 <= k then k else -k;
    var p, q := j * u, j * v;
    MonotoneProduct(j, u, v, p, q);
    SignOfProduct(j, u, p);
    SignOfProduct(j, v, q);
    ActingCases(t, u, v, p, q);
    Negated(k, u, v);
    Negated(k, v, u);
  }

  lemma MonotoneProduct(k: real, u: real, v: real, p: real, q: real)
    requires 0.0 <= k && u <= v && p == k * u && q == k * v
    ensures p <= q
  {
  }

  /** The dead band replaces products by 0, which lies between those of cold and hot pods. */
  lemma ActingCases(t: real, u: real, v: real, p: real, q: real)
    requires u <= v && p <= q
    requires (u <= 0.0 ==> p <= 0.0) && (u >= 0.0 ==> p >= 0.0)
    requires (v <= 0.0 ==> q <= 0.0) && (v >= 0.0 ==> q >= 0.0)
    ensures (if AbsReal(u) < t then 0.0 else p) <= (if AbsReal(v) < t then 0.0 else q)
  {
  }

  /** With a positive gain the pod with more CPU gets no larger multiplier, with a negative one
      no smaller. */
  ghost predicate PushedApart(gain: real, more: Float, less: Float) {
    (gain >= 0.0 ==> !Less(less, more)) && (gain <= 0.0 ==> !Less(more, less))
  }

  lemma MeasureMonotone(cfg: Config, mean: real, c: real, d: real)
    requires mean > 0.0 && EffectiveRate(mean, c) <= EffectiveRate(mean, d)
    ensures PushedApart(Gain(cfg), Measure(cfg, Fin(mean), Fin(d)).multiplier, Measure(cfg, Fin(mean), Fin(c)).multiplier)
  {
    hide Measure, Share, Gain, Tolerance;
    MeasureOfRate(cfg, mean, c);
    MeasureOfRate(cfg, mean, d);
    ShareMonotone(mean, c, d);
    ActingIsMonotone(Gain(cfg), Tolerance(cfg), Share(mean, c), Share(mean, d));
  }

  /** The control pushes one way: with a gain that is not negative, more CPU never earns a
      larger multiplier, also across the edges of the dead band; a negative gain turns the
      direction around. */
  lemma MoreCpuNoLargerMultiplier(cfg: Config, samples: map<Address, Sample>, a: Address, b: Address)
    requires Healthy(samples) && a in samples && b in samples
    requires var mean := MeanCpu(samples);
             !Less(Effective(mean, samples[b].cpu), Effective(mean, samples[a].cpu))
    ensures PushedApart(Gain(cfg), Multipliers(cfg, samples)[b], Multipliers(cfg, samples)[a])
  {
    hide Measure, Mean, MeanCpu, Multipliers, Values, Cpus, Gain, PushedApart;
    HealthyRates(samples);
    MeanOfRates(Values(Cpus(samples)));
    MultiplierIs(cfg, samples, a);
    MultiplierIs(cfg, samples, b);
    MeasureMonotone(cfg, MeanCpu(samples).value, samples[a].cpu.value, samples[b].cpu.value);
  }

  /* ---- What is stored of a measurement ---- */

  /** Whatever the CPU times are, the multiplier is 1 less alpha, and 1 if that is not a number. */
  lemma MultiplierIsOneLessAlpha(cfg: Config, mean: Float, cpu: Float)
    ensures var r := Measure(cfg, mean, cpu);
            r.multiplier == if r.alpha.NaN? then ONE else Sub(ONE, r.alpha)
  {
    hide InDeadBand, Effective, Mul, Div;
  }

  /** The numbers of one pod on a mean that is not 0: `cpu` is its CPU time, and the share is its
      distance relative to the mean, 0 for a pod without a CPU time. Alpha is the gain times the
      share outside the tolerance and 0 inside, and the multiplier is 1 less alpha. On a negative
      mean, which no rate has, the code compares the negated share. */
  ghost predicate IsMeasured(cfg: Config, mean: real, cpu: real, m: Measured)
    requires mean != 0.0
  {
    var share := if cpu == 0.0 then 0.0 else (cpu - mean) / mean;
    var size := if mean > 0.0 then AbsReal(share) else -AbsReal(share);
    var alpha := if size < Tolerance(cfg) then 0.0 else Gain(cfg) * share;
    m == Measured(Fin(share * mean), Fin(alpha), Fin(1.0 - alpha))
  }

  lemma NegativeQuotient(d: real, mean: real, k: real)
    requires mean < 0.0
    ensures AbsReal(d) / mean == -AbsReal(d / mean)
    ensures d * (k / mean) == k * (d / mean) && d / mean * mean == d
  {
  }

  lemma MeasureOfNegativeMean(cfg: Config, mean: real, cpu: real)
    requires mean < 0.0
    ensures IsMeasured(cfg, mean, cpu, Measure(cfg, Fin(mean), Fin(cpu)))
  {
    var d := if cpu == 0.0 then 0.0 else cpu - mean;
    assert Sub(Effective(Fin(mean), Fin(cpu)), Fin(mean)) == Fin(d);
    NegativeQuotient(d, mean, Gain(cfg));
    FiniteQuotient(AbsReal(d), mean);
    assert Abs(Fin(d)) == Fin(AbsReal(d));
    FiniteQuotient(Gain(cfg), mean);
    FiniteProduct(d, Gain(cfg) / mean);
  }

  lemma MeasuredOnAnyMean(cfg: Config, mean: real, cpu: real)
    requires mean != 0.0
    ensures IsMeasured(cfg, mean, cpu, Measure(cfg, Fin(mean), Fin(cpu)))
  {
    hide Measure, Gain, Tolerance, AbsReal;
    if mean > 0.0 {
      MeasureOfRate(cfg, mean, cpu);
      ShareTimesMean(mean, cpu);
    } else {
      MeasureOfNegativeMean(cfg, mean, cpu);
    }
  }

  /** The readings of every cycle with a usable mean, in and outside the dead band. */
  lemma ReadingsOfCycle(cfg: Config, samples: map<Address, Sample>, a: Address)
    requires a in samples && MeanCpu(samples).Fin? && MeanCpu(samples) != ZERO
    ensures samples[a].cpu.Fin?
    ensures var r, mean, cpu := Readings(cfg, samples)[a], MeanCpu(samples), samples[a].cpu;
            r.name == samples[a].name && r.average == mean && r.cpu == (if cpu == ZERO then mean else cpu) &&
            IsMeasured(cfg, mean.value, cpu.value, r.measured)
  {
    hide MeanCpu, Measure, IsMeasured;
    MeanIsFinite(samples);
    var mean, cpu := MeanCpu(samples).value, samples[a].cpu.value;
    assert MeanCpu(samples) == Fin(mean) && samples[a].cpu == Fin(cpu);
    MeasuredOnAnyMean(cfg, mean, cpu);
  }

  /* ---- The dead band ---- */

  /** Every pod is within the tolerance of the mean; pods without a CPU time count as average. */
  ghost predicate Balanced(cfg: Config, samples: map<Address, Sample>) {
    Healthy(samples) &&
    forall a :: a in samples ==>
      InDeadBand(cfg, MeanCpu(samples), Sub(Effective(MeanCpu(samples), samples[a].cpu), MeanCpu(samples)))
  }

  /** Balanced load leaves every multiplier at 1, on a finite mean that is not zero. */
  lemma BalancedAdjustsNothing(cfg: Config, samples: map<Address, Sample>)
    requires Balanced(cfg, samples)
    ensures MeanCpu(samples).Fin? && MeanCpu(samples) != ZERO
    ensures forall a :: a in samples ==> Multipliers(cfg, samples)[a] == ONE
  {
    hide Measure, Mean, MeanCpu, Values, Cpus, InDeadBand, Effective, Sub;
    HealthyMean(samples);
    var mean := MeanCpu(samples);
    forall a | a in samples ensures Multipliers(cfg, samples)[a] == ONE {
      MultiplierIs(cfg, samples, a);
      DeadBandMeasures(cfg, mean, samples[a].cpu);
    }
  }

  lemma DeadBandMeasures(cfg: Config, mean: Float, cpu: Float)
    requires InDeadBand(cfg, mean, Sub(Effective(mean, cpu), mean))
    ensures Measure(cfg, mean, cpu).multiplier == ONE
  {
    hide InDeadBand;
    ZeroPush();
  }

  lemma ZeroPush()
    ensures Sub(ONE, ZERO) == ONE
  {
  }
}
