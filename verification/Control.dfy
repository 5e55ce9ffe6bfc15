/** The control law: from the CPU time of each pod to the factor applied to its weight. */
module Control {
  import opened Floats
  import opened Ordering
  import opened Weights

  /** One pod of the metrics response. */
  datatype Sample = Sample(name: string, cpu: Float)

  datatype Measured = Measured(distance: Float, alpha: Float, multiplier: Float)

  /** What one optimisation cycle knows about one pod once the metrics are processed. */
  datatype Reading = Reading(name: string, cpu: Float, average: Float, measured: Measured)

  /** Pods with a CPU time: the others take the mean and do not count toward it. */
  function Busy(s: seq<Float>): seq<Float> {
    if s == [] then []
    else (if s[0] != ZERO then [s[0]] else []) + Busy(s[1..])
  }

  /** `stats.Mean`, which is NaN for an empty list. */
  function Mean(s: seq<Float>): Float {
    if s == [] then NaN else Div(Sum(s), Fin(|s| as real))
  }

  predicate InDeadBand(cfg: Config, mean: Float, distance: Float) {
    Less(Div(Abs(distance), mean), Fin(cfg.minOptimizeCpuDistancePercent / 100.0))
  }

  function Effective(mean: Float, cpu: Float): Float {
    if cpu == ZERO then mean else cpu
  }

  function Measure(cfg: Config, mean: Float, cpu: Float): Measured {
    var distance := Sub(Effective(mean, cpu), mean);
    var alpha := if InDeadBand(cfg, mean, distance) then ZERO
                 else Mul(distance, Div(Fin(cfg.cpuDistanceMultiplierPercent / 100.0), mean));
    var multiplier := Sub(ONE, alpha);
    Measured(distance, alpha, if multiplier.NaN? then ONE else multiplier)
  }

  function ReadingOf(cfg: Config, mean: Float, s: Sample): Reading {
    Reading(s.name, Effective(mean, s.cpu), mean, Measure(cfg, mean, s.cpu))
  }

  function Cpus(samples: map<Address, Sample>): map<Address, Float> {
    map a | a in samples :: samples[a].cpu
  }

  ghost function MeanCpu(samples: map<Address, Sample>): Float {
    Mean(Busy(Values(Cpus(samples))))
  }

  ghost function Readings(cfg: Config, samples: map<Address, Sample>): map<Address, Reading> {
    map a | a in samples :: ReadingOf(cfg, MeanCpu(samples), samples[a])
  }

  ghost function Multipliers(cfg: Config, samples: map<Address, Sample>): map<Address, Float> {
    map a | a in samples :: Readings(cfg, samples)[a].measured.multiplier
  }

  ghost function Distances(cfg: Config, samples: map<Address, Sample>): map<Address, Float> {
    map a | a in samples :: Readings(cfg, samples)[a].measured.distance
  }

  lemma ReadingsKeys(cfg: Config, samples: map<Address, Sample>)
    ensures Readings(cfg, samples).Keys == samples.Keys
  {
  }

  /* ---- The mean does not depend on the order of the walk ---- */

  function BusyOne(x: Float): seq<Float> { if x == ZERO then [] else [x] }

  lemma BusyHead(x: Float, t: seq<Float>, s: seq<Float>)
    requires s == [x] + t
    ensures Busy(s) == BusyOne(x) + Busy(t)
  {
    assert s[1..] == t;
  }

  lemma {:induction false} BusyWithout(s: seq<Float>, j: nat)
    requires j < |s|
    ensures multiset(Busy(s)) == multiset(BusyOne(s[j])) + multiset(Busy(Without(s, j)))
  {
    if j == 0 {
      assert Without(s, 0) == s[1..];
    } else {
      hide Busy, BusyOne;
      WithoutTail(s, j);
      BusyWithout(s[1..], j - 1);
      BusyHead(s[0], s[1..], s);
      BusyHead(s[0], Without(s[1..], j - 1), Without(s, j));
    }
  }

  lemma {:induction false} BusyMultiset(a: seq<Float>, b: seq<Float>)
    requires multiset(a) == multiset(b)
    ensures multiset(Busy(a)) == multiset(Busy(b))
  {
    if a == [] {
      assert |multiset(a)| == |multiset(b)|;
    } else {
      hide *;
      var j := SplitAt(a, b);
      BusyMultiset(a[1..], Without(b, j));
      BusyWithout(b, j);
      BusyWithout(a, 0);
      WithoutHead(a);
    }
  }

  lemma SumStep(s: seq<Float>, x: Float, t: seq<Float>, y: Float, w: seq<Float>, r: seq<Float>)
    requires s == [x] + t && w == [x] + r && Sum(t) == Add(y, Sum(r))
    ensures Sum(s) == Add(y, Sum(w))
  {
    assert s[1..] == t && w[1..] == r;
    AddAssociates(x, y, Sum(r));
    AddAssociates(y, x, Sum(r));
    AddCommutes(x, y);
  }

  /** Any element can be added first. */
  lemma {:induction false} SumWithout(s: seq<Float>, j: nat)
    requires j < |s|
    ensures Sum(s) == Add(s[j], Sum(Without(s, j)))
  {
    if j == 0 {
      assert Without(s, 0) == s[1..];
    } else {
      SumWithout(s[1..], j - 1);
      WithoutTail(s, j);
      SumStep(s, s[0], s[1..], s[j], Without(s, j), Without(s[1..], j - 1));
    }
  }

  lemma {:induction false} SumPermutation(a: seq<Float>, b: seq<Float>)
    requires multiset(a) == multiset(b)
    ensures Sum(a) == Sum(b)
  {
    if a == [] {
      assert |multiset(a)| == |multiset(b)|;
    } else {
      var j := SplitAt(a, b);
      SumPermutation(a[1..], Without(b, j));
      SumWithout(b, j);
    }
  }

  lemma MeanOfAnyWalk(cpus: map<Address, Float>, walk: seq<Address>)
    requires IsOrderOf(walk, cpus.Keys)
    ensures Mean(Busy(Lookup(cpus, walk))) == Mean(Busy(Values(cpus)))
  {
    WalksAgree(cpus, walk, Order(cpus.Keys));
    BusyMultiset(Lookup(cpus, walk), Values(cpus));
    var a, b := Busy(Lookup(cpus, walk)), Busy(Values(cpus));
    SumPermutation(a, b);
    assert |multiset(a)| == |multiset(b)|;
  }

  /* ---- Which numbers come out ---- */

  lemma MeasureOfNoMean(cfg: Config, mean: Float, cpu: Float)
    requires !mean.Fin?
    ensures Measure(cfg, mean, cpu).multiplier == ONE
    ensures !Measure(cfg, mean, cpu).distance.Fin?
  {
    var d := Sub(Effective(mean, cpu), mean);
    assert !d.Fin?;
    assert Div(Abs(d), mean).NaN?;
    var q := Div(Fin(cfg.cpuDistanceMultiplierPercent / 100.0), mean);
    assert q == NaN || q == ZERO;
    assert Mul(d, q).NaN?;
  }

  lemma MeasureOfZeroMean(cfg: Config, cpu: Float)
    ensures !Measure(cfg, ZERO, cpu).alpha.Fin?
  {
  }

  lemma MeasureOfProperMean(cfg: Config, mean: real, cpu: Float)
    requires mean != 0.0 && cpu.Fin?
    ensures var r := Measure(cfg, Fin(mean), cpu);
            r.distance.Fin? && r.alpha.Fin? && r.multiplier.Fin?
  {
  }

  predicate Proper(r: Reading) {
    r.measured.distance.Fin? && r.measured.alpha.Fin? && r.measured.multiplier.Fin?
  }

  ghost predicate AllFinite(s: seq<Float>) {
    forall x :: x in s ==> x.Fin?
  }

  lemma {:induction false} SumFinite(s: seq<Float>)
    ensures Sum(s).Fin? <==> AllFinite(s)
  {
    if s != [] {
      SumFinite(s[1..]);
      assert s == [s[0]] + s[1..];
    }
  }

  lemma {:induction false} BusyMembers(s: seq<Float>)
    ensures forall x :: x in Busy(s) <==> x in s && x != ZERO
    ensures |Busy(s)| <= |s|
  {
    if s != [] {
      BusyMembers(s[1..]);
      assert s == [s[0]] + s[1..];
    }
  }

  lemma ValueOf(m: map<Address, Float>, a: Address)
    requires a in m
    ensures m[a] in Values(m)
  {
    var ks := Order(m.Keys);
    assert a in ks;
    var i :| 0 <= i < |ks| && ks[i] == a;
    assert Values(m)[i] == m[a];
  }

  lemma ValuesAreValues(m: map<Address, Float>, x: Float)
    requires x in Values(m)
    ensures exists a :: a in m && m[a] == x
  {
    var i :| 0 <= i < |Values(m)| && Values(m)[i] == x;
    var a := Order(m.Keys)[i];
    assert a in Order(m.Keys);
    assert a in m && m[a] == x;
  }

  /** The mean is a finite number exactly when some pod has a CPU time and every CPU time
      is finite. */
  lemma MeanIsFinite(samples: map<Address, Sample>)
    ensures MeanCpu(samples).Fin? <==>
            (exists a :: a in samples && samples[a].cpu != ZERO) &&
            (forall a :: a in samples ==> samples[a].cpu.Fin?)
  {
    var cpus := Cpus(samples);
    var s := Values(cpus);
    BusyMembers(s);
    SumFinite(Busy(s));
    assert MeanCpu(samples).Fin? <==> Busy(s) != [] && AllFinite(Busy(s));
    if MeanCpu(samples).Fin? {
      assert Busy(s)[0] in Busy(s);
      ValuesAreValues(cpus, Busy(s)[0]);
      forall a | a in samples ensures samples[a].cpu.Fin? { ValueOf(cpus, a); }
    } else if Busy(s) == [] {
      forall a | a in samples ensures samples[a].cpu == ZERO { ValueOf(cpus, a); }
    } else {
      var x :| x in Busy(s) && !x.Fin?;
      ValuesAreValues(cpus, x);
    }
  }

  /** Which cycles yield numbers that JSON can carry (section 6 of RFC 8259 has neither NaN
      nor infinities): exactly those whose mean is finite and not zero. Without a finite mean
      every multiplier is nevertheless 1. */
  lemma ProperExactlyWithAMean(cfg: Config, samples: map<Address, Sample>, a: Address)
    requires a in samples
    ensures var mean := MeanCpu(samples);
            Proper(Readings(cfg, samples)[a]) <==> mean.Fin? && mean != ZERO
    ensures !MeanCpu(samples).Fin? ==> Multipliers(cfg, samples)[a] == ONE
  {
    var mean := MeanCpu(samples);
    MeanIsFinite(samples);
    if !mean.Fin? {
      MeasureOfNoMean(cfg, mean, samples[a].cpu);
    } else if mean == ZERO {
      MeasureOfZeroMean(cfg, samples[a].cpu);
    } else {
      MeasureOfProperMean(cfg, mean.value, samples[a].cpu);
    }
  }

  /** When no pod has a CPU time, or some CPU time is NaN or infinite, nothing is adjusted. */
  lemma UnusableCpuAdjustsNothing(cfg: Config, samples: map<Address, Sample>, a: Address)
    requires a in samples
    requires (forall b :: b in samples ==> samples[b].cpu == ZERO) ||
             (exists b :: b in samples && !samples[b].cpu.Fin?)
    ensures Multipliers(cfg, samples)[a] == ONE
  {
    hide Multipliers, Readings, MeanCpu;
    MeanIsFinite(samples);
    ProperExactlyWithAMean(cfg, samples, a);
  }
}
