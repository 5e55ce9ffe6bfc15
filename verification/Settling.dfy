/** The closed loop on weights alone, when every factor is 1: which weights stay, and how soon
    all of them do. */
module Settling {
  import opened Arithmetic
  import opened Floats
  import opened Ordering
  import opened Weights
  import opened CycleLaws

  function Clipped(cfg: Config, w: int): int {
    if w < cfg.minimumWeight then cfg.minimumWeight
    else if w > cfg.maximumWeight then cfg.maximumWeight
    else w
  }

  lemma UnitFactorClips(cfg: Config, w: Weight)
    requires cfg.Ranged()
    ensures NewWeight(cfg, w, ONE) == Clipped(cfg, w)
  {
    hide NewWeight;
    NewWeightIsClamped(cfg, w, ONE);
    assert w as real * 1.0 == w as real;
  }

  function ClippedMap(cfg: Config, w: map<Address, Weight>): map<Address, Weight> {
    map a | a in w :: Wrap(Clipped(cfg, w[a]))
  }

  /** The weights after a turn in which every factor is 1. */
  ghost function Settle(cfg: Config, w: map<Address, Weight>): map<Address, Weight> {
    Adjust(cfg, ClippedMap(cfg, w), MedianWeight(ClippedMap(cfg, w)))
  }

  lemma ClippedInRange(cfg: Config, w: map<Address, Weight>)
    requires cfg.Ranged()
    ensures WithinMap(ClippedMap(cfg, w), cfg.minimumWeight, cfg.maximumWeight)
  {
  }

  /** For an odd number of weights the median commutes with a nondecreasing map. */
  lemma OddMedianCommutes(f: int -> int, s: seq<int>, lo: int, hi: int)
    requires |s| % 2 == 1 && Within(s, lo, hi) && Nondecreasing(f, lo, hi)
    requires IsWeight(f(Sorted(s)[|s| / 2])) && IsWeight(Sorted(s)[|s| / 2])
    ensures Median(Map(f, s)) == f(Median(s))
  {
    SortedCommutes(f, s, lo, hi);
    MedianUnfold(s);
    MedianUnfold(Map(f, s));
  }

  function Clipping(cfg: Config): int -> int { x => Clipped(cfg, x) }

  lemma ClippedAlong(cfg: Config, w: map<Address, Weight>)
    requires cfg.Ranged()
    ensures Values(ClippedMap(cfg, w)) == Map(Clipping(cfg), Values(w))
  {
    hide Clipped;
    var n := ClippedMap(cfg, w);
    assert n.Keys == w.Keys;
    assert Values(n) == Lookup(n, Order(w.Keys));
    forall i | 0 <= i < |Values(w)| ensures Values(n)[i] == Clipped(cfg, Values(w)[i]) {
      assert Order(w.Keys)[i] in Order(w.Keys);
      ClippedIsWeight(cfg, Values(w)[i]);
    }
  }

  lemma ClippedIsWeight(cfg: Config, x: int)
    requires cfg.Ranged()
    ensures IsWeight(Clipped(cfg, x)) && Wrap(Clipped(cfg, x)) == Clipped(cfg, x)
  {
  }

  /** Clipping weights whose odd median is the middle leaves the median there. */
  lemma ClippingKeepsMedian(cfg: Config, w: map<Address, Weight>)
    requires cfg.Sane() && |w| % 2 == 1 && MedianWeight(w) == cfg.Middle()
    ensures MedianWeight(ClippedMap(cfg, w)) == cfg.Middle()
  {
    hide Median;
    SaneIsRanged(cfg);
    MiddleInRange(cfg);
    ClippedAlong(cfg, w);
    var s, f := Values(w), Clipping(cfg);
    ValuesAreWeights(w);
    var h := |s| / 2;
    SortedWithin(s, 0, 0xFFFF_FFFF);
    assert 0 <= Sorted(s)[h] <= 0xFFFF_FFFF;
    OddMedianCommutes(f, s, 0, 0xFFFF_FFFF);
  }

  lemma ValuesAreWeights(w: map<Address, Weight>)
    ensures Within(Values(w), 0, 0xFFFF_FFFF)
  {
    ValuesWithin(w, 0, 0xFFFF_FFFF);
  }

  /** With the median on the middle, re-centring does nothing. */
  lemma NothingToAdjust(cfg: Config, c: map<Address, Weight>)
    requires cfg.Ranged() && MedianWeight(c) == cfg.Middle()
    ensures Adjust(cfg, c, MedianWeight(c)) == c
  {
    MiddleInRange(cfg);
  }

  /** The first settling puts the median on the middle. */
  lemma SettleCentres(cfg: Config, w: map<Address, Weight>)
    requires cfg.Sane() && |w| % 2 == 1
    ensures |Settle(cfg, w)| == |w| && Settle(cfg, w).Keys == w.Keys
    ensures MedianWeight(Settle(cfg, w)) == cfg.Middle()
  {
    hide Median, Recentre, Recentred, Clipped;
    var c := ClippedMap(cfg, w);
    assert c.Keys == w.Keys;
    SaneIsRanged(cfg);
    ClippedInRange(cfg, w);
    ValuesWithin(c, cfg.minimumWeight, cfg.maximumWeight);
    AdjustAlong(cfg, c);
    SameSize(w, c);
    SameSize(w, Settle(cfg, w));
    RecentringTheorem(cfg, Values(c));
  }

  lemma SameSize(m: map<Address, Weight>, n: map<Address, Weight>)
    requires m.Keys == n.Keys
    ensures |m| == |n|
  {
    assert |m| == |m.Keys| && |n| == |n.Keys|;
  }

  /** From then on settling only clips. */
  lemma SettledOnlyClips(cfg: Config, w: map<Address, Weight>)
    requires cfg.Sane() && |w| % 2 == 1 && MedianWeight(w) == cfg.Middle()
    ensures Settle(cfg, w) == ClippedMap(cfg, w) && MedianWeight(Settle(cfg, w)) == cfg.Middle()
  {
    hide Median, Clipped;
    SaneIsRanged(cfg);
    ClippingKeepsMedian(cfg, w);
    NothingToAdjust(cfg, ClippedMap(cfg, w));
  }

  /** And clipped weights stay. */
  lemma ClippedIsFixed(cfg: Config, w: map<Address, Weight>)
    requires cfg.Ranged() && WithinMap(w, cfg.minimumWeight, cfg.maximumWeight)
    ensures ClippedMap(cfg, w) == w
  {
  }

  /* ---- Which weights stay ---- */

  /** The upper middle element: it is not below the median, and the median is not below half
      way between it and the lower bound. */
  lemma UpperMiddle(s: seq<int>, lo: int, hi: int) returns (i: nat)
    requires s != [] && 0 <= lo && IsWeight(2 * hi) && Within(s, lo, hi)
    ensures i < |s| && Median(s) <= s[i] && (lo + s[i]) / 2 <= Median(s)
  {
    hide Sorted, Median;
    MedianRank(s, lo, hi);
    SortedMember(s, |s| / 2);
    i :| 0 <= i < |s| && s[i] == Sorted(s)[|s| / 2];
    if |s| % 2 == 0 { assert lo <= Sorted(s)[|s| / 2 - 1] <= Sorted(s)[|s| / 2]; }
  }

  lemma Swap(x: int, y: int)
    ensures x * y == y * x
  {
  }

  lemma ScaledAway(x: int, mid: int, d: int)
    requires 0 < d <= x && 0 <= mid
    ensures d < mid ==> x * mid / d > x
    ensures mid < d ==> x * mid / d < x
  {
    hide *;
    DivMod(x * mid, d);
    var q, r := x * mid / d, x * mid % d;
    Swap(x, mid);
    Swap(x, d);
    if d < mid {
      MulMono(d + 1, mid, x);
      SuccProduct(d, x);
      Cancel(x + 1, q + 1, d, x * d + d, q * d + d);
    } else if mid < d {
      MulMono(mid + 1, d, x);
      SuccProduct(mid, x);
      Cancel(q, x, d, q * d, x * d);
    }
  }

  /** The upper middle weight can only stay if the median is the middle. */
  lemma MiddleStays(cfg: Config, x: Weight, d: Weight, w: Weight)
    requires cfg.Sane() && x == Clipped(cfg, w) && w == Recentre(cfg, x, d)
    requires cfg.minimumWeight <= d <= x <= cfg.maximumWeight && (cfg.minimumWeight + x) / 2 <= d
    ensures d == cfg.Middle()
  {
    hide Recentre, Config.Sane;
    SaneIsRanged(cfg);
    RecentreIsOneDivision(cfg, x, d);
    ScaledAway(x, cfg.Middle(), d);
  }

  /** In the range, with the median on the middle. */
  ghost predicate Settled(cfg: Config, w: map<Address, Weight>) {
    MedianWeight(w) == cfg.Middle() && WithinMap(w, cfg.minimumWeight, cfg.maximumWeight)
  }

  /** The weights that settling leaves alone are the settled ones, and no others. */
  lemma SettledIff(cfg: Config, w: map<Address, Weight>)
    requires cfg.Sane() && w != map[]
    ensures Settle(cfg, w) == w <==> Settled(cfg, w)
  {
    hide Recentre, Median, Clipped, Config.Sane;
    SaneIsRanged(cfg);
    var c := ClippedMap(cfg, w);
    if Settled(cfg, w) {
      ClippedIsFixed(cfg, w);
      NothingToAdjust(cfg, w);
    } else if Settle(cfg, w) == w {
      SettledMedian(cfg, w);
      NothingToAdjust(cfg, c);
      ClippedInRange(cfg, w);
      assert false;
    }
  }

  lemma SettledMedian(cfg: Config, w: map<Address, Weight>)
    requires cfg.Sane() && w != map[] && Settle(cfg, w) == w
    ensures MedianWeight(ClippedMap(cfg, w)) == cfg.Middle()
  {
    hide Recentre, Median, Clipped, Config.Sane;
    SaneIsRanged(cfg);
    var c := ClippedMap(cfg, w);
    ClippedInRange(cfg, w);
    ValuesWithin(c, cfg.minimumWeight, cfg.maximumWeight);
    assert c.Keys == w.Keys;
    SameSize(c, w);
    var i := UpperMiddle(Values(c), cfg.minimumWeight, cfg.maximumWeight);
    MedianRank(Values(c), cfg.minimumWeight, cfg.maximumWeight);
    var a := Order(c.Keys)[i];
    assert a in Order(c.Keys);
    ClippedIsWeight(cfg, w[a]);
    assert w[a] == Settle(cfg, w)[a] == Recentre(cfg, c[a], MedianWeight(c));
    MiddleStays(cfg, c[a], MedianWeight(c), w[a]);
  }

  lemma SettleKeys(cfg: Config, w: map<Address, Weight>)
    ensures Settle(cfg, w).Keys == w.Keys
  {
  }

  lemma SettlePositive(cfg: Config, w: map<Address, Weight>)
    requires cfg.Sane() && cfg.Least() >= 1
    ensures forall a :: a in Settle(cfg, w) ==> Settle(cfg, w)[a] != 0
  {
    hide Recentre, Median, Clipped, Config.Least;
    var c := ClippedMap(cfg, w);
    SaneIsRanged(cfg);
    ClippedInRange(cfg, w);
    ValuesWithin(c, cfg.minimumWeight, cfg.maximumWeight);
    forall a | a in c ensures Recentre(cfg, c[a], MedianWeight(c)) != 0 {
      var i := PlaceOf(c, a);
      MedianRank(Values(c), cfg.minimumWeight, cfg.maximumWeight);
      RecentreIsOneDivision(cfg, c[a], MedianWeight(c));
    }
  }

  /* ---- An even number of weights ---- */

  /** The two middle elements lie on either side of the middle and add up to twice the middle
      less one, or more. */
  predicate Straddles(mid: int, p: int, q: int) {
    0 <= p <= mid <= q && 2 * mid - 1 <= p + q
  }

  /** They lie on either side of the middle and their mean is the middle. */
  predicate Centred(mid: int, p: int, q: int) {
    0 <= p <= mid <= q && 2 * mid <= p + q <= 2 * mid + 1
  }

  lemma ScaledStraddles(a: int, b: int, d: int, mid: int)
    requires 0 < a <= b && d == (a + b) / 2 && 0 < mid
    ensures Straddles(mid, a * mid / d, b * mid / d)
  {
    hide *;
    TwoMiddles(a, b, d, mid);
    MulMono(0, a, mid);
    MulMono(a, d, mid);
    MulMono(d, b, mid);
    DivNonneg(a * mid, d);
    DivMono(a * mid, d * mid, d);
    DivMono(d * mid, b * mid, d);
    QuotientIs(d * mid, d, mid, d * mid);
    StraddlesIf(mid, a * mid / d, b * mid / d);
  }

  lemma StraddlesIf(mid: int, p: int, q: int)
    requires 0 <= p <= mid <= q && 2 * mid - 1 <= p + q
    ensures Straddles(mid, p, q)
  {
  }

  /** Dividing by more than the middle leaves a sum of twice the middle or one less. */
  lemma ScaledDown(a: int, b: int, d: int, mid: int)
    requires 0 < a <= b && d == (a + b) / 2 && 0 < mid < d
    ensures 2 * mid - 1 <= a * mid / d + b * mid / d <= 2 * mid
  {
    hide *;
    TwoMiddles(a, b, d, mid);
    QuotientIs(mid, d, 0, 0);
  }

  lemma ScaledUpByOne(x: int, e: int, k: int)
    requires 0 < e && (k == 0 || k == 1 || k == 2) && k * e <= x < k * e + e
    ensures x * (e + 1) / e == x + k
  {
    assert x * (e + 1) == x * e + x;
    assert (x + k) * e == x * e + k * e;
    QuotientIs(x * (e + 1), e, x + k, (x + k) * e);
  }

  /** A pair that is one short is centred by the next turn. */
  lemma OneShortIsCentred(p: int, q: int, mid: int)
    requires 0 < p <= mid <= q && p + q == 2 * mid - 1 && 3 <= mid
    ensures Centred(mid, p * mid / (mid - 1), q * mid / (mid - 1))
  {
    var e := mid - 1;
    ScaledUpByOne(p, e, if p == e then 1 else 0);
    ScaledUpByOne(q, e, if q == 2 * e then 2 else 1);
  }

  lemma ClippingPairs(cfg: Config, p: int, q: int)
    requires cfg.Ranged() && Straddles(cfg.Middle(), p, q)
    ensures Straddles(cfg.Middle(), Clipped(cfg, p), Clipped(cfg, q))
    ensures Centred(cfg.Middle(), p, q) ==> Centred(cfg.Middle(), Clipped(cfg, p), Clipped(cfg, q))
    ensures p + q == 2 * cfg.Middle() - 1 ==> Clipped(cfg, p) + Clipped(cfg, q) <= 2 * cfg.Middle() + 1
  {
  }

  /** When the sum is one short the middle is at least 3. */
  lemma ShortNeedsRoom(cfg: Config, p: int, q: int)
    requires cfg.Ranged() && cfg.minimumWeight * cfg.Middle() >= cfg.maximumWeight
    requires cfg.minimumWeight <= p <= cfg.Middle() <= q <= cfg.maximumWeight && p + q == 2 * cfg.Middle() - 1
    ensures 3 <= cfg.Middle() && cfg.minimumWeight < cfg.Middle()
  {
  }

  /** Scaled down by more than one part in the middle. */
  lemma Down(max: int, mid: int, d: int, x: int, y: int)
    requires 0 < mid < d && 0 <= x <= max && y == x * mid / d
    ensures 0 <= y <= max && y * (mid + 1) <= max * mid
  {
    hide *;
    MulMono(0, x, mid);
    MulMono(x, max, mid);
    DivNonneg(x * mid, d);
    DivMod(x * mid, d);
    MulMono(mid + 1, d, y);
    Swap(y, mid + 1);
    Swap(y, d);
    SuccProduct(mid, max);
    Swap(mid, max);
    Cancel(y, max, mid + 1, y * (mid + 1), max * (mid + 1));
    Swap(max, mid + 1);
  }

  /** And up again by one. */
  lemma UpFromMinimum(min: int, max: int, mid: int)
    requires 0 < min < mid <= max
    ensures min <= min * mid / (mid - 1) <= max
  {
    ScaledUpByOne(min, mid - 1, if min == mid - 1 then 1 else 0);
  }

  lemma UpFrom(min: int, max: int, mid: int, y: int)
    requires 0 < min < mid <= max && max <= min * mid && min <= y && y * (mid + 1) <= max * mid
    ensures y <= y * mid / (mid - 1) <= max
  {
    hide *;
    var e := mid - 1;
    MulMono(e, mid, y);
    Swap(e, y);
    Swap(mid, y);
    DivMono(y * e, y * mid, e);
    QuotientIs(y * e, e, y, y * e);
    DivMod(y * mid, e);
    SquareIsLarge(min, max, mid);
    BelowSquare(max, mid, y);
    AtMost(max, mid, y * mid / e, y * mid, y * mid - y * mid % e, mid * mid);
  }

  lemma SquareIsLarge(min: int, max: int, mid: int)
    requires 0 < min < mid && max <= min * mid
    ensures mid * mid > max + 1
  {
    MulMono(min + 1, mid, mid);
    SuccProduct(min, mid);
  }

  lemma BelowSquare(max: int, mid: int, y: int)
    requires 0 < mid && y * (mid + 1) <= max * mid
    ensures y * mid * (mid + 1) <= max * (mid * mid)
  {
    hide *;
    SwapFactors(y, mid, mid + 1);
    MulMono(y * (mid + 1), max * mid, mid);
    Associated(max, mid, mid);
  }

  lemma AtMost(max: int, mid: int, z: int, ym: int, ze: int, sq: int)
    requires 1 < mid && sq == mid * mid && sq > max + 1
    requires ze == z * (mid - 1) && ze <= ym && ym * (mid + 1) <= max * sq
    ensures z <= max
  {
    hide *;
    Squares(mid, max + 1, sq);
    SuccProduct(max, sq);
    var bound := (max + 1) * (mid - 1);
    Cancel(ym, bound, mid + 1, ym * (mid + 1), bound * (mid + 1));
    Cancel(z, max + 1, mid - 1, ze, bound);
  }

  lemma Squares(mid: int, m: int, sq: int)
    requires sq == mid * mid
    ensures m * (mid - 1) * (mid + 1) == m * sq - m
  {
    Associated(m, mid - 1, mid + 1);
    assert (mid - 1) * (mid + 1) == sq - 1;
  }

  lemma Associated(x: int, y: int, z: int)
    ensures x * y * z == x * (y * z)
  {
  }

  /* ---- The middle pair of a map ---- */

  ghost function PairLow(s: seq<int>): int
    requires s != [] && |s| % 2 == 0
  {
    Sorted(s)[|s| / 2 - 1]
  }

  ghost function PairHigh(s: seq<int>): int
    requires s != []
  {
    Sorted(s)[|s| / 2]
  }

  lemma MappedPair(f: int -> int, s: seq<int>, lo: int, hi: int)
    requires s != [] && |s| % 2 == 0 && Within(s, lo, hi) && Nondecreasing(f, lo, hi)
    ensures |Map(f, s)| == |s|
    ensures PairLow(Map(f, s)) == f(PairLow(s)) && PairHigh(Map(f, s)) == f(PairHigh(s))
  {
    hide Sorted;
    SortedCommutes(f, s, lo, hi);
  }

  lemma RecentredPair(cfg: Config, s: seq<int>)
    requires cfg.Sane() && s != [] && |s| % 2 == 0 && Within(s, cfg.minimumWeight, cfg.maximumWeight)
    ensures |Recentred(cfg, s)| == |s|
    ensures var p, q, d := PairLow(s), PairHigh(s), Median(s);
            cfg.minimumWeight <= p <= q <= cfg.maximumWeight && d == (p + q) / 2 && 0 < d &&
            PairLow(Recentred(cfg, s)) == p * cfg.Middle() / d && PairHigh(Recentred(cfg, s)) == q * cfg.Middle() / d
  {
    hide Median, Recentred, Sorted, Config.Sane;
    SaneIsRanged(cfg);
    RecentredLength(cfg, s);
    RecentredMiddle(cfg, s, |s| / 2);
    RecentredMiddle(cfg, s, |s| / 2 - 1);
    MedianRank(s, cfg.minimumWeight, cfg.maximumWeight);
  }

  /** One turn of the loop, seen on the two middle elements. */
  lemma SettlePair(cfg: Config, w: map<Address, Weight>)
    requires cfg.Sane() && w != map[] && |w| % 2 == 0
    ensures |Settle(cfg, w)| == |w|
    ensures var p, q := Clipped(cfg, PairLow(Values(w))), Clipped(cfg, PairHigh(Values(w)));
            var d, t := MedianWeight(ClippedMap(cfg, w)), Values(Settle(cfg, w));
            cfg.minimumWeight <= p <= q <= cfg.maximumWeight && d == (p + q) / 2 && 0 < d &&
            PairLow(t) == p * cfg.Middle() / d && PairHigh(t) == q * cfg.Middle() / d
  {
    hide PairLow, PairHigh, Median, Recentred, Adjust, Config.Sane, Config.Middle;
    SaneIsRanged(cfg);
    var c := ClippedMap(cfg, w);
    ClippedAlong(cfg, w);
    ValuesAreWeights(w);
    assert Nondecreasing(Clipping(cfg), 0, 0xFFFF_FFFF);
    MappedPair(Clipping(cfg), Values(w), 0, 0xFFFF_FFFF);
    ClippedInRange(cfg, w);
    ValuesWithin(c, cfg.minimumWeight, cfg.maximumWeight);
    RecentredPair(cfg, Values(c));
    AdjustAlong(cfg, c);
    SettleKeys(cfg, w);
    SameSize(Settle(cfg, w), w);
  }

  /* ---- Three turns settle any number of weights ---- */

  ghost predicate Even(w: map<Address, Weight>) { w != map[] && |w| % 2 == 0 }

  lemma KeptByClipping(cfg: Config, w: map<Address, Weight>)
    requires cfg.Sane() && MedianWeight(ClippedMap(cfg, w)) == cfg.Middle()
    ensures Settled(cfg, Settle(cfg, w))
  {
    hide Median, Clipped, Config.Sane;
    SaneIsRanged(cfg);
    NothingToAdjust(cfg, ClippedMap(cfg, w));
    ClippedInRange(cfg, w);
  }

  lemma SettledStays(cfg: Config, w: map<Address, Weight>)
    requires cfg.Sane() && w != map[] && Settled(cfg, w)
    ensures Settled(cfg, Settle(cfg, w))
  {
    hide Settle, Settled, Config.Sane;
    SettledIff(cfg, w);
  }

  /** Once the middle pair is centred, one turn settles everything. */
  lemma CentredSettles(cfg: Config, w: map<Address, Weight>)
    requires cfg.Sane() && Even(w) && Centred(cfg.Middle(), PairLow(Values(w)), PairHigh(Values(w)))
    ensures Settled(cfg, Settle(cfg, w))
  {
    hide Settle, Settled, PairLow, PairHigh, MedianWeight, Config.Sane, Config.Middle, Clipped;
    SaneIsRanged(cfg);
    SettlePair(cfg, w);
    CentredStraddles(cfg.Middle(), PairLow(Values(w)), PairHigh(Values(w)));
    ClippingPairs(cfg, PairLow(Values(w)), PairHigh(Values(w)));
    KeptByClipping(cfg, w);
  }

  lemma CentredStraddles(mid: int, p: int, q: int)
    requires Centred(mid, p, q)
    ensures Straddles(mid, p, q)
  {
  }

  /** The first turn. */
  lemma SettleStraddles(cfg: Config, w: map<Address, Weight>)
    requires cfg.Sane() && Even(w)
    ensures Even(Settle(cfg, w))
    ensures Straddles(cfg.Middle(), PairLow(Values(Settle(cfg, w))), PairHigh(Values(Settle(cfg, w))))
  {
    hide Settle, PairLow, PairHigh, MedianWeight, Config.Sane, Config.Middle, Clipped, Straddles;
    SaneIsRanged(cfg);
    MiddleInRange(cfg);
    SettlePair(cfg, w);
    ScaledStraddles(Clipped(cfg, PairLow(Values(w))), Clipped(cfg, PairHigh(Values(w))),
                    MedianWeight(ClippedMap(cfg, w)), cfg.Middle());
  }

  /** From a pair on either side of the middle, the median of the next turn is at least one
      below it, and if it is one below, the turn centres the pair. */
  lemma OneBelowIsCentred(cfg: Config, w: map<Address, Weight>)
    requires cfg.Sane() && cfg.minimumWeight * cfg.Middle() >= cfg.maximumWeight && Even(w)
    requires Straddles(cfg.Middle(), PairLow(Values(w)), PairHigh(Values(w)))
    ensures Even(Settle(cfg, w))
    ensures var d := MedianWeight(ClippedMap(cfg, w));
            d >= cfg.Middle() - 1 &&
            (d == cfg.Middle() - 1 ==>
              cfg.minimumWeight < cfg.Middle() && 3 <= cfg.Middle() &&
              Centred(cfg.Middle(), PairLow(Values(Settle(cfg, w))), PairHigh(Values(Settle(cfg, w)))))
  {
    hide Settle, PairLow, PairHigh, MedianWeight, Config.Sane, Config.Middle, Clipped;
    SaneIsRanged(cfg);
    SettlePair(cfg, w);
    ClippingPairs(cfg, PairLow(Values(w)), PairHigh(Values(w)));
    var p, q := Clipped(cfg, PairLow(Values(w))), Clipped(cfg, PairHigh(Values(w)));
    if MedianWeight(ClippedMap(cfg, w)) == cfg.Middle() - 1 {
      ShortNeedsRoom(cfg, p, q);
      OneShortIsCentred(p, q, cfg.Middle());
    }
  }

  /** A turn that divides by more than the middle leaves a pair that is centred or one short. */
  lemma AboveGoesDown(cfg: Config, w: map<Address, Weight>)
    requires cfg.Sane() && Even(w) && MedianWeight(ClippedMap(cfg, w)) > cfg.Middle()
    ensures Even(Settle(cfg, w))
    ensures var p, q := PairLow(Values(Settle(cfg, w))), PairHigh(Values(Settle(cfg, w)));
            Straddles(cfg.Middle(), p, q) && p + q <= 2 * cfg.Middle()
  {
    hide Settle, PairLow, PairHigh, MedianWeight, Config.Sane, Config.Middle, Clipped, Straddles;
    SaneIsRanged(cfg);
    MiddleInRange(cfg);
    SettlePair(cfg, w);
    SettleStraddles(cfg, w);
    ScaledDown(Clipped(cfg, PairLow(Values(w))), Clipped(cfg, PairHigh(Values(w))),
               MedianWeight(ClippedMap(cfg, w)), cfg.Middle());
  }

  lemma DownThenUpOne(cfg: Config, w: Weight, d: Weight)
    requires cfg.Sane() && cfg.minimumWeight * cfg.Middle() >= cfg.maximumWeight
    requires cfg.minimumWeight < cfg.Middle() < d <= cfg.maximumWeight
    ensures var y := Recentre(cfg, Wrap(Clipped(cfg, w)), d);
            cfg.minimumWeight <= Recentre(cfg, Wrap(Clipped(cfg, y)), cfg.Middle() - 1) <= cfg.maximumWeight
  {
    hide Recentre, Config.Sane, Config.Middle;
    SaneIsRanged(cfg);
    MiddleInRange(cfg);
    var min, max, mid := cfg.minimumWeight, cfg.maximumWeight, cfg.Middle();
    ClippedIsWeight(cfg, w);
    var x := Clipped(cfg, w);
    RecentreIsOneDivision(cfg, x, d);
    var y := Recentre(cfg, x, d);
    Down(max, mid, d, x, y);
    ClippedIsWeight(cfg, y);
    RecentreIsOneDivision(cfg, Clipped(cfg, y), mid - 1);
    if y < min {
      UpFromMinimum(min, max, mid);
    } else {
      UpFrom(min, max, mid, y);
    }
  }

  /** A turn down and a turn up by one end in the range. */
  lemma DownThenUpInRange(cfg: Config, w: map<Address, Weight>)
    requires cfg.Sane() && cfg.minimumWeight * cfg.Middle() >= cfg.maximumWeight
    requires cfg.minimumWeight < cfg.Middle() < MedianWeight(ClippedMap(cfg, w)) <= cfg.maximumWeight
    requires MedianWeight(ClippedMap(cfg, Settle(cfg, w))) == cfg.Middle() - 1
    ensures WithinMap(Settle(cfg, Settle(cfg, w)), cfg.minimumWeight, cfg.maximumWeight)
  {
    hide MedianWeight, Recentre, Clipped, Config.Sane, Config.Middle;
    var u := Settle(cfg, Settle(cfg, w));
    forall a | a in u ensures cfg.minimumWeight <= u[a] <= cfg.maximumWeight {
      DownThenUpOne(cfg, w[a], MedianWeight(ClippedMap(cfg, w)));
    }
  }

  lemma MedianOfPair(w: map<Address, Weight>, p: int, q: int)
    requires Even(w) && PairLow(Values(w)) == p && PairHigh(Values(w)) == q && IsWeight(p + q)
    ensures MedianWeight(w) == (p + q) / 2
  {
    hide Sorted;
    MedianUnfold(Values(w));
  }

  /** A pair that is centred has the middle for its median. */
  lemma CentredMedian(cfg: Config, w: map<Address, Weight>)
    requires cfg.Ranged() && Even(w) && Centred(cfg.Middle(), PairLow(Values(w)), PairHigh(Values(w)))
    ensures MedianWeight(w) == cfg.Middle()
  {
    hide Median, PairLow, PairHigh;
    TwiceMiddle(cfg);
    MedianOfPair(w, PairLow(Values(w)), PairHigh(Values(w)));
  }

  /** Two turns settle a pair on either side of the middle. */
  lemma StraddledSettles(cfg: Config, w: map<Address, Weight>)
    requires cfg.Sane() && cfg.minimumWeight * cfg.Middle() >= cfg.maximumWeight && Even(w)
    requires Straddles(cfg.Middle(), PairLow(Values(w)), PairHigh(Values(w)))
    ensures Settled(cfg, Settle(cfg, Settle(cfg, w)))
  {
    hide Settle, Settled, PairLow, PairHigh, MedianWeight, ClippedMap, Config.Sane, Config.Middle, Values;
    SaneIsRanged(cfg);
    OneBelowIsCentred(cfg, w);
    var d, t := MedianWeight(ClippedMap(cfg, w)), Settle(cfg, w);
    if d == cfg.Middle() {
      KeptByClipping(cfg, w);
      SettledStays(cfg, t);
    } else if d < cfg.Middle() {
      CentredSettles(cfg, t);
    } else {
      AboveGoesDown(cfg, w);
      if PairLow(Values(t)) + PairHigh(Values(t)) == 2 * cfg.Middle() {
        CentredSettles(cfg, t);
      } else {
        ShortSettles(cfg, w);
      }
    }
  }

  lemma ShortSettles(cfg: Config, w: map<Address, Weight>)
    requires cfg.Sane() && cfg.minimumWeight * cfg.Middle() >= cfg.maximumWeight && Even(w)
    requires MedianWeight(ClippedMap(cfg, w)) > cfg.Middle() && Even(Settle(cfg, w))
    requires var p, q := PairLow(Values(Settle(cfg, w))), PairHigh(Values(Settle(cfg, w)));
             Straddles(cfg.Middle(), p, q) && p + q == 2 * cfg.Middle() - 1
    ensures Settled(cfg, Settle(cfg, Settle(cfg, w)))
  {
    hide Settle, PairLow, PairHigh, MedianWeight, ClippedMap, Config.Sane, Config.Middle, Values, Clipped;
    SaneIsRanged(cfg);
    var t := Settle(cfg, w);
    OneBelowIsCentred(cfg, t);
    SettlePair(cfg, t);
    SettlePair(cfg, w);
    ClippingPairs(cfg, PairLow(Values(t)), PairHigh(Values(t)));
    if MedianWeight(ClippedMap(cfg, t)) == cfg.Middle() {
      KeptByClipping(cfg, t);
    } else {
      CentredMedian(cfg, Settle(cfg, t));
      DownThenUpInRange(cfg, w);
    }
  }

  /** Two turns settle an odd number of weights, three any number: the median is then the
      middle and every weight in the range. */
  lemma ThreeTurnsSettle(cfg: Config, w: map<Address, Weight>)
    requires cfg.Sane() && cfg.minimumWeight * cfg.Middle() >= cfg.maximumWeight && w != map[]
    ensures |w| % 2 == 1 ==> Settled(cfg, Settle(cfg, Settle(cfg, w)))
    ensures Settled(cfg, Settle(cfg, Settle(cfg, Settle(cfg, w))))
  {
    hide Settle, Settled, ClippedMap, MedianWeight, Config.Sane, Config.Middle, PairLow, PairHigh, Values;
    if |w| % 2 == 1 {
      SettleCentres(cfg, w);
      OddSettles(cfg, Settle(cfg, w));
      SettleKeys(cfg, w);
      SettleKeys(cfg, Settle(cfg, w));
      SettledStays(cfg, Settle(cfg, Settle(cfg, w)));
    } else {
      SettleStraddles(cfg, w);
      StraddledSettles(cfg, Settle(cfg, w));
    }
  }

  lemma OddSettles(cfg: Config, w: map<Address, Weight>)
    requires cfg.Sane() && |w| % 2 == 1 && MedianWeight(w) == cfg.Middle()
    ensures Settled(cfg, Settle(cfg, w))
  {
    hide Settle, ClippedMap, MedianWeight, Config.Sane;
    SaneIsRanged(cfg);
    SettledOnlyClips(cfg, w);
    ClippedInRange(cfg, w);
  }

  lemma PairOfTwo(w: map<Address, Weight>, a: Address, b: Address)
    requires w.Keys == {a, b} && a != b && w[a] <= w[b]
    ensures Even(w) && PairLow(Values(w)) == w[a] && PairHigh(Values(w)) == w[b]
  {
    hide Sorted;
    assert |w| == |w.Keys| == 2;
    var ks, s := Order(w.Keys), Values(w);
    assert a in ks && b in ks;
    assert s == Lookup(w, ks);
    assert s == [w[a], w[b]] || s == [w[b], w[a]];
    SortedOfPermutation(s, [w[a], w[b]]);
    SortedPair(w[a], w[b]);
  }

  lemma PairTurn(w: map<Address, Weight>, p: int, q: int, d: int, p': int, q': int)
    requires Even(w) && PairLow(Values(w)) == p && PairHigh(Values(w)) == q
    requires 100 <= p <= q <= 600 && d == (p + q) / 2 && p' == p * 350 / d && q' == q * 350 / d
    ensures var t := Settle(DEFAULTS, w); Even(t) && PairLow(Values(t)) == p' && PairHigh(Values(t)) == q'
  {
    hide Settle, PairLow, PairHigh, ClippedMap;
    SettlePair(DEFAULTS, w);
  }

  /** Two turns are not enough for an even number of weights: with the default settings 171 and
      172 become 350 and 352, then 349 and 350. */
  lemma TwoTurnsCanMiss(a: Address, b: Address)
    requires a != b
    ensures MedianWeight(Settle(DEFAULTS, Settle(DEFAULTS, map[a := 171, b := 172]))) == 349
  {
    hide Settle, PairLow, PairHigh, ClippedMap, MedianWeight;
    var w := map[a := 171, b := 172];
    PairOfTwo(w, a, b);
    PairTurn(w, 171, 172, 171, 350, 352);
    PairTurn(Settle(DEFAULTS, w), 350, 352, 351, 349, 350);
    MedianOfPair(Settle(DEFAULTS, Settle(DEFAULTS, w)), 349, 350);
  }
}
