/** Re-centring in rounded arithmetic: how far binary64 can move a weight, and the median,
    from the exact result. */
module Rounding {
  import opened Arithmetic
  import opened Floats
  import opened Ordering
  import opened Weights

  /** Half a unit in the last place of a 53-bit significand. */
  const UNIT: real := 1.0 / 9007199254740992.0

  /** What section 4.3 of IEEE 754-2019 gives for rounding to nearest in binary64: rounding is
      monotone and has a small relative error on normal numbers (of which this states the part
      that is used). Conversions of a uint32 to binary64 are exact. */
  ghost predicate RoundsLikeBinary64(rnd: real -> real) {
    (forall x, y :: x <= y ==> rnd(x) <= rnd(y)) &&
    (forall x :: 0.000000000001 <= x <= 1000000000000.0 ==> x * (1.0 - UNIT) <= rnd(x) <= x * (1.0 + UNIT))
  }

  /** `uint32(float64(weight) * (float64(middle) / float64(median)))`, both operations rounded. */
  function RecentreRounded(rnd: real -> real, cfg: Config, w: Weight, median: Weight): int {
    if median == 0 || median == Wrap(cfg.Middle()) then w
    else Trunc(Twice(rnd, w as real, cfg.Middle() as real / median as real))
  }

  /** A weight times a ratio, each rounded. */
  function Twice(rnd: real -> real, w: real, t: real): real { rnd(w * rnd(t)) }

  lemma ScaleInterval(w: real, t: real, q: real, x: real)
    requires 0.0 <= w && w * t == x && t * (1.0 - UNIT) <= q <= t * (1.0 + UNIT)
    ensures x * (1.0 - UNIT) <= w * q <= x * (1.0 + UNIT)
  {
    ScaleBoth(w, t * (1.0 - UNIT), q);
    ScaleBoth(w, q, t * (1.0 + UNIT));
    Associate(w, t, 1.0 - UNIT);
    Associate(w, t, 1.0 + UNIT);
  }

  lemma ScaleBoth(w: real, a: real, b: real)
    requires 0.0 <= w && a <= b
    ensures w * a <= w * b
  {
  }

  /** Two roundings move a number below 2^32 by less than one. */
  lemma TwoRoundings(x: real, p: real, y: real)
    requires 0.0 <= x < 4294967296.0
    requires x * (1.0 - UNIT) <= p <= x * (1.0 + UNIT)
    requires p * (1.0 - UNIT) <= y <= p * (1.0 + UNIT)
    ensures x - 1.0 < y < x + 1.0
  {
    var u := UNIT;
    assert x * (1.0 + u) == x + x * u && x * (1.0 - u) == x - x * u;
    assert p * (1.0 + u) == p + p * u && p * (1.0 - u) == p - p * u;
    ScaleBoth(u, x, 4294967296.0);
    ScaleBoth(u, p, 2.0 * 4294967296.0);
    ScaleBoth(u, 0.0, x);
    assert u * x == x * u && u * p == p * u;
  }

  lemma RatioBounds(mid: int, d: int, t: real)
    requires 0 < mid < 0x1_0000_0000 && 0 < d < 0x1_0000_0000 && t * d as real == mid as real
    ensures 0.0000000001 <= t <= 4294967296.0
  {
    ScaleBoth(0.0000000001, d as real, 4294967296.0);
    CancelReal(0.0000000001, t, d as real, 0.0000000001 * d as real, mid as real);
    ScaleBoth(mid as real, 1.0, d as real);
    CancelReal(t, mid as real, d as real, mid as real, mid as real * d as real);
  }

  /** The exact scaled weight, below 2^32. */
  lemma ExactScale(cfg: Config, w: Weight, median: Weight, t: real)
    requires cfg.Sane() && cfg.minimumWeight <= w <= cfg.maximumWeight
    requires cfg.minimumWeight <= median <= cfg.maximumWeight
    requires t == cfg.Middle() as real / median as real
    ensures 0.0 <= w as real * t < 4294967296.0
    ensures (w as real * t).Floor == Recentre(cfg, w, median)
  {
    hide *;
    SaneIsRanged(cfg);
    MiddleInRange(cfg);
    RecentreIsOneDivision(cfg, w, median);
    ScaledFloor(w, cfg.Middle(), median);
    FloorBelow(w as real * t, Recentre(cfg, w, median));
  }

  lemma FloorBelow(x: real, n: Weight)
    requires x.Floor == n
    ensures 0.0 <= x < 4294967296.0
  {
  }

  lemma ShrunkRatio(t: real, q: real)
    requires 0.0000000001 <= t <= 4294967296.0 && t * (1.0 - UNIT) <= q <= t * (1.0 + UNIT)
    ensures 0.00000000001 <= q <= 10000000000.0
  {
    ScaleBoth(1.0 - UNIT, 0.0000000001, t);
    ScaleBoth(1.0 + UNIT, t, 4294967296.0);
  }

  lemma ProductRange(w: real, q: real, x: real)
    requires 1.0 <= w && 0.00000000001 <= q && w * q <= x * (1.0 + UNIT) && 0.0 <= x < 4294967296.0
    ensures 0.000000000001 <= w * q <= 1000000000000.0
  {
    ScaleBoth(q, 1.0, w);
    ScaleBoth(1.0 + UNIT, x, 4294967296.0);
  }

  lemma FloorsClose(x: real, y: real)
    requires 0.0 <= x && x - 1.0 < y < x + 1.0 && 0.0 <= y
    ensures x.Floor - 1 <= Trunc(y) <= x.Floor + 1
    ensures x == x.Floor as real ==> Trunc(y) <= x.Floor
  {
  }

  lemma RoundsNear(rnd: real -> real, x: real)
    requires RoundsLikeBinary64(rnd) && 0.000000000001 <= x <= 1000000000000.0
    ensures x * (1.0 - UNIT) <= rnd(x) <= x * (1.0 + UNIT)
  {
  }

  lemma PositiveProduct(p: real, y: real)
    requires 0.0 <= p && p * (1.0 - UNIT) <= y
    ensures 0.0 <= y
  {
    ScaleBoth(p, 0.0, 1.0 - UNIT);
  }

  lemma RoundedProduct(rnd: real -> real, w: real, t: real, x: real)
    requires RoundsLikeBinary64(rnd) && 1.0 <= w && 0.0000000001 <= t <= 4294967296.0
    requires x == w * t && 0.0 <= x < 4294967296.0
    ensures x - 1.0 < Twice(rnd, w, t) < x + 1.0 && 0.0 <= Twice(rnd, w, t)
  {
    hide RoundsLikeBinary64;
    RoundsNear(rnd, t);
    ShrunkRatio(t, rnd(t));
    ScaleInterval(w, t, rnd(t), x);
    ProductRange(w, rnd(t), x);
    RoundsNear(rnd, w * rnd(t));
    TwoRoundings(x, w * rnd(t), rnd(w * rnd(t)));
    PositiveProduct(w * rnd(t), rnd(w * rnd(t)));
  }

  lemma QuotientTimes(m: real, d: real, t: real)
    requires d != 0.0 && t == m / d
    ensures t * d == m && d * t == m
  {
  }

  lemma WholeFloor(x: real, n: int)
    requires x == n as real
    ensures x.Floor == n && x == x.Floor as real
  {
  }

  lemma RoundedUnfold(rnd: real -> real, cfg: Config, w: Weight, median: Weight)
    requires cfg.Ranged() && 0 < median
    ensures RecentreRounded(rnd, cfg, w, median)
            == if median == cfg.Middle() then w
               else Trunc(Twice(rnd, w as real, cfg.Middle() as real / median as real))
  {
    hide Twice, Trunc;
    MiddleInRange(cfg);
  }

  /** One weight, when the median is off the middle. */
  lemma RoundedStep(rnd: real -> real, cfg: Config, w: Weight, median: Weight, t: real)
    requires RoundsLikeBinary64(rnd) && cfg.Sane()
    requires cfg.minimumWeight <= w <= cfg.maximumWeight && cfg.minimumWeight <= median <= cfg.maximumWeight
    requires t == cfg.Middle() as real / median as real
    ensures var y, r := Twice(rnd, w as real, t), Recentre(cfg, w, median);
            0.0 <= y && r - 1 <= Trunc(y) <= r + 1 &&
            (w == median ==> cfg.Middle() - 1 <= Trunc(y) <= cfg.Middle())
  {
    hide *;
    SaneIsRanged(cfg);
    MiddleInRange(cfg);
    ExactScale(cfg, w, median, t);
    QuotientTimes(cfg.Middle() as real, median as real, t);
    RatioBounds(cfg.Middle(), median, t);
    var x := w as real * t;
    RoundedProduct(rnd, w as real, t, x);
    FloorsClose(x, Twice(rnd, w as real, t));
    if w == median {
      WholeFloor(x, cfg.Middle());
    }
  }

  /** Rounded re-centring is within one of exact re-centring, for every weight; the median
      itself ends on the middle or one below. */
  lemma RoundedIsWithinOne(rnd: real -> real, cfg: Config, w: Weight, median: Weight)
    requires RoundsLikeBinary64(rnd) && cfg.Sane()
    requires cfg.minimumWeight <= w <= cfg.maximumWeight && cfg.minimumWeight <= median <= cfg.maximumWeight
    ensures Recentre(cfg, w, median) - 1 <= RecentreRounded(rnd, cfg, w, median) <= Recentre(cfg, w, median) + 1
    ensures w == median ==> cfg.Middle() - 1 <= RecentreRounded(rnd, cfg, w, median) <= cfg.Middle()
  {
    hide *;
    SaneIsRanged(cfg);
    MiddleInRange(cfg);
    RoundedUnfold(rnd, cfg, w, median);
    RecentreIsOneDivision(cfg, w, median);
    RoundedStep(rnd, cfg, w, median, cfg.Middle() as real / median as real);
  }

  lemma TruncMonotone(x: real, y: real)
    requires 0.0 <= x <= y
    ensures Trunc(x) <= Trunc(y)
  {
  }

  lemma RoundedRatioPositive(rnd: real -> real, t: real)
    requires RoundsLikeBinary64(rnd) && 0.0000000001 <= t <= 4294967296.0
    ensures 0.0 <= rnd(t)
  {
    RoundsNear(rnd, t);
    PositiveProduct(t, rnd(t));
  }

  lemma TwiceMonotone(rnd: real -> real, v: real, w: real, t: real)
    requires RoundsLikeBinary64(rnd) && v <= w && 0.0 <= rnd(t)
    ensures Twice(rnd, v, t) <= Twice(rnd, w, t)
  {
    var q := rnd(t);
    ScaleBoth(q, v, w);
    assert q * v == v * q && q * w == w * q;
    assert rnd(v * q) <= rnd(w * q);
  }

  lemma RoundedMonotone(rnd: real -> real, cfg: Config, v: Weight, w: Weight, median: Weight)
    requires RoundsLikeBinary64(rnd) && cfg.Sane() && cfg.minimumWeight <= median <= cfg.maximumWeight
    requires cfg.minimumWeight <= v <= w <= cfg.maximumWeight
    ensures RecentreRounded(rnd, cfg, v, median) <= RecentreRounded(rnd, cfg, w, median)
  {
    hide *;
    SaneIsRanged(cfg);
    MiddleInRange(cfg);
    RoundedUnfold(rnd, cfg, v, median);
    RoundedUnfold(rnd, cfg, w, median);
    var t := cfg.Middle() as real / median as real;
    QuotientTimes(cfg.Middle() as real, median as real, t);
    RatioBounds(cfg.Middle(), median, t);
    RoundedRatioPositive(rnd, t);
    RoundedStep(rnd, cfg, v, median, t);
    TwiceMonotone(rnd, v as real, w as real, t);
    TruncMonotone(Twice(rnd, v as real, t), Twice(rnd, w as real, t));
  }

  function RecentringRounded(rnd: real -> real, cfg: Config, median: Weight): int -> int {
    x => RecentreRounded(rnd, cfg, Wrap(x), median)
  }

  /** The re-centring theorem in rounded arithmetic: with an odd number of clamped weights the
      median lands on the middle or one below it. */
  lemma RoundedRecentringTheorem(rnd: real -> real, cfg: Config, s: seq<int>)
    requires RoundsLikeBinary64(rnd) && cfg.Sane() && |s| % 2 == 1
    requires Within(s, cfg.minimumWeight, cfg.maximumWeight)
    ensures var m := Median(Map(RecentringRounded(rnd, cfg, Median(s)), s));
            cfg.Middle() - 1 <= m <= cfg.Middle()
  {
    hide RecentreRounded, RoundsLikeBinary64, Median, Sorted;
    var min, max, d, h := cfg.minimumWeight, cfg.maximumWeight, Median(s), |s| / 2;
    MedianRank(s, min, max);
    var f := RecentringRounded(rnd, cfg, d);
    forall x, y | min <= x <= y <= max ensures f(x) <= f(y) {
      RoundedMonotone(rnd, cfg, x, y, d);
    }
    SortedCommutes(f, s, min, max);
    MedianUnfold(Map(f, s));
    RoundedIsWithinOne(rnd, cfg, d, d);
    MiddleInRange(cfg);
  }
}
