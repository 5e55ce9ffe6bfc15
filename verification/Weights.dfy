/** One weight through one cycle: scale and clamp, take the median, re-centre. */
module Weights {
  import opened Arithmetic
  import opened Floats
  import opened Ordering

  type Address = string

  /** The command-line settings the reconcilers are built with. */
  datatype Config = Config(
    minimumWeight: int,
    maximumWeight: int,
    newEndpointsPercentileWeight: int,
    minOptimizeCpuDistancePercent: real,
    cpuDistanceMultiplierPercent: real
  ) {
    /** `(MaximumWeight + MinimumWeight) / 2`, which Go truncates toward zero. */
    function Middle(): int {
      var sum := maximumWeight + minimumWeight;
      if sum >= 0 then sum / 2 else -((-sum) / 2)
    }

    /** The settings under which no uint32 computed from the weights wraps around. */
    ghost predicate Sane() {
      Ranged() && IsWeight(Greatest())
    }

    ghost predicate Ranged() {
      0 < minimumWeight <= maximumWeight && IsWeight(2 * maximumWeight)
    }

    /** The least and the greatest weight that re-centring can produce. */
    function Least(): int
      requires 0 < maximumWeight
    {
      minimumWeight * Middle() / maximumWeight
    }

    function Greatest(): int
      requires 0 < minimumWeight
    {
      maximumWeight * Middle() / minimumWeight
    }
  }

  /** The settings main starts with unless told otherwise. */
  const DEFAULTS := Config(100, 600, 50, 5.0, 1.0)

  /* ---- Scaling and clamping ---- */

  function NewWeight(cfg: Config, current: Weight, multiplier: Float): Weight {
    Clamp(cfg, Mul(Fin(current as real), multiplier))
  }

  function Clamp(cfg: Config, product: Float): Weight {
    var low := Fin(cfg.minimumWeight as real);
    var high := Fin(cfg.maximumWeight as real);
    var raised := if Less(product, low) then low else product;
    ToUint32(if Less(high, raised) then high else raised)
  }

  /** What the clamp gives a caller. For a finite multiplier of either sign the weight is in
      [Min, Max], at the end that the product reaches or passes, and otherwise the integer part
      of the product. The products that escape the clamp are a zero weight times an infinity,
      and NaN. */
  ghost predicate IsClampedProduct(cfg: Config, current: Weight, m: Float, w: Weight) {
    var min, max := cfg.minimumWeight, cfg.maximumWeight;
    match m
    case Fin(x) =>
      var p := current as real * x;
      min <= w <= max &&
      (p <= min as real ==> w == min) &&
      (p >= max as real ==> w == max) &&
      (min as real <= p <= max as real ==> w as real <= p < w as real + 1.0)
    case PosInf => w == if current == 0 then 0 else max
    case NegInf => w == if current == 0 then 0 else min
    case NaN => w == 0
  }

  method CalculateNewWeight(cfg: Config, current: Weight, multiplier: Float) returns (w: Weight)
    ensures cfg.Ranged() ==> IsClampedProduct(cfg, current, multiplier, w)
    ensures w == NewWeight(cfg, current, multiplier)
  {
    if cfg.Ranged() { NewWeightIsClamped(cfg, current, multiplier); }
    var newWeight := Mul(Fin(current as real), multiplier);
    if Less(newWeight, Fin(cfg.minimumWeight as real)) {
      newWeight := Fin(cfg.minimumWeight as real);
    }
    if Less(Fin(cfg.maximumWeight as real), newWeight) {
      newWeight := Fin(cfg.maximumWeight as real);
    }
    w := ToUint32(newWeight);
  }

  lemma ClampedReal(cfg: Config, p: real)
    requires cfg.Ranged()
    ensures var w := Clamp(cfg, Fin(p));
            cfg.minimumWeight <= w <= cfg.maximumWeight &&
            (p <= cfg.minimumWeight as real ==> w == cfg.minimumWeight) &&
            (p >= cfg.maximumWeight as real ==> w == cfg.maximumWeight) &&
            (cfg.minimumWeight as real <= p <= cfg.maximumWeight as real ==> w as real <= p < w as real + 1.0)
  {
    hide ToUint32;
    FloorToWeight(cfg.minimumWeight as real, cfg.minimumWeight);
    FloorToWeight(cfg.maximumWeight as real, cfg.maximumWeight);
    if cfg.minimumWeight as real <= p <= cfg.maximumWeight as real {
      FloorToWeight(p, p.Floor);
    }
  }

  lemma ClampedFinite(cfg: Config, current: Weight, m: real, p: real)
    requires p == current as real * m
    ensures NewWeight(cfg, current, Fin(m)) == Clamp(cfg, Fin(p))
  {
    hide Clamp;
    FiniteProduct(current as real, m);
  }

  lemma ClampedInfinity(cfg: Config, current: Weight, m: Float)
    requires cfg.Ranged() && (m == PosInf || m == NegInf)
    ensures NewWeight(cfg, current, m)
            == if current == 0 then 0 else if m == PosInf then cfg.maximumWeight else cfg.minimumWeight
  {
    hide ToUint32;
    assert Sign(Fin(current as real)) == if current == 0 then 0 else 1;
    FloorToWeight(cfg.minimumWeight as real, cfg.minimumWeight);
    FloorToWeight(cfg.maximumWeight as real, cfg.maximumWeight);
    NaNToWeight();
  }

  /** The multiply, clamp and convert sequence meets that description. */
  lemma NewWeightIsClamped(cfg: Config, current: Weight, m: Float)
    requires cfg.Ranged()
    ensures IsClampedProduct(cfg, current, m, NewWeight(cfg, current, m))
  {
    hide NewWeight, Clamp;
    if m.Fin? {
      ClampedFinite(cfg, current, m.value, current as real * m.value);
      ClampedReal(cfg, current as real * m.value);
    } else if m == NaN {
      NaNProduct(cfg, current);
    } else {
      ClampedInfinity(cfg, current, m);
    }
  }

  lemma NaNProduct(cfg: Config, current: Weight)
    ensures NewWeight(cfg, current, NaN) == 0
  {
    NaNToWeight();
  }

  /** The description leaves one weight only. */
  lemma ClampedProductIsUnique(cfg: Config, current: Weight, m: Float, v: Weight, w: Weight)
    requires IsClampedProduct(cfg, current, m, v) && IsClampedProduct(cfg, current, m, w)
    ensures v == w
  {
  }

  /* ---- The median ---- */

  /** The values of the map, appended to a slice in whatever order the map is walked. */
  method CollectValues(m: map<Address, Weight>) returns (weights: seq<int>)
    ensures multiset(weights) == multiset(Values(m)) && |weights| == |m|
  {
    weights := [];
    var rest := m.Keys;
    ghost var walked: seq<Address> := [];
    while rest != {}
      invariant rest <= m.Keys
      invariant IsOrderOf(walked, m.Keys - rest)
      invariant weights == Lookup(m, walked)
    {
      var key :| key in rest;
      ghost var visited := m.Keys - rest;
      OrderExtends(walked, visited, key);
      weights, walked, rest := weights + [m[key]], walked + [key], rest - {key};
      assert m.Keys - rest == visited + {key};
    }
    assert m.Keys - rest == m.Keys;
    WalksAgree(m, walked, Order(m.Keys));
  }

  function Median(s: seq<int>): Weight {
    var n, t := |s|, Sorted(s);
    if n == 0 then 0
    else if n % 2 == 0 then Wrap(t[n / 2 - 1] + t[n / 2]) / 2
    else Wrap(t[n / 2])
  }

  lemma MedianUnfold(s: seq<int>)
    requires s != []
    ensures var t, h := Sorted(s), |s| / 2;
            Median(s) == if |s| % 2 == 0 then Wrap(t[h - 1] + t[h]) / 2 else Wrap(t[h])
  {
    hide Sorted, Wrap;
  }

  ghost function MedianWeight(m: map<Address, Weight>): Weight {
    Median(Values(m))
  }

  /** `getMedianWeight`: the slice is sorted in place and its middle is read. The order in
      which the map was walked does not show. */
  method GetMedianWeight(weightsMap: map<Address, Weight>) returns (median: Weight)
    ensures median == MedianWeight(weightsMap)
  {
    hide Sorted, Wrap;
    var values := CollectValues(weightsMap);
    SortedOfPermutation(values, Values(weightsMap));
    var weights := new int[|values|](i requires 0 <= i < |values| => values[i]);
    assert weights[..] == values;
    SortSlice(weights);
    ghost var sorted := weights[..];
    var n := weights.Length;
    if n == 0 { return 0; }
    assert weights[n / 2] == sorted[n / 2];
    if n % 2 == 0 {
      assert weights[n / 2 - 1] == sorted[n / 2 - 1];
      median := Wrap(weights[n / 2 - 1] + weights[n / 2]) / 2;
    } else {
      median := Wrap(weights[n / 2]);
    }
  }

  lemma MedianRank(s: seq<int>, lo: int, hi: int)
    requires s != [] && 0 <= lo && IsWeight(2 * hi) && Within(s, lo, hi)
    ensures var t, h := Sorted(s), |s| / 2;
            IsSorted(t) && Within(t, lo, hi) &&
            Median(s) == if |s| % 2 == 1 then t[h] else (t[h - 1] + t[h]) / 2
    ensures lo <= Median(s) <= hi
  {
    hide Sorted, Median;
    var t, h := Sorted(s), |s| / 2;
    MedianUnfold(s);
    SortedSorts(s);
    SortedWithin(s, lo, hi);
    assert lo <= t[h] <= hi;
    if |s| % 2 == 0 { assert lo <= t[h - 1] <= hi; }
  }

  /** How many elements lie below `x`, and how many above. */
  function Below(s: seq<int>, x: int): nat {
    if s == [] then 0 else (if s[0] < x then 1 else 0) + Below(s[1..], x)
  }

  function Above(s: seq<int>, x: int): nat {
    if s == [] then 0 else (if s[0] > x then 1 else 0) + Above(s[1..], x)
  }

  lemma {:induction false} CountsAppend(a: seq<int>, b: seq<int>, x: int)
    ensures Below(a + b, x) == Below(a, x) + Below(b, x)
    ensures Above(a + b, x) == Above(a, x) + Above(b, x)
  {
    if a == [] {
      assert a + b == b;
    } else {
      CountsAppend(a[1..], b, x);
      assert (a + b)[1..] == a[1..] + b;
    }
  }

  lemma {:induction false} CountsPermutation(a: seq<int>, b: seq<int>, x: int)
    requires multiset(a) == multiset(b)
    ensures Below(a, x) == Below(b, x) && Above(a, x) == Above(b, x)
  {
    if a == [] {
      assert |multiset(a)| == |multiset(b)|;
    } else {
      var j := SplitAt(a, b);
      CountsPermutation(a[1..], Without(b, j), x);
      CountsAppend(b[..j], b[j + 1..], x);
      CountsAppend(b[..j], [b[j]] + b[j + 1..], x);
      assert b == b[..j] + ([b[j]] + b[j + 1..]);
    }
  }

  lemma {:induction false} CountsBounded(s: seq<int>, x: int)
    ensures Below(s, x) <= |s| && Above(s, x) <= |s|
    ensures (forall i :: 0 <= i < |s| ==> s[i] >= x) ==> Below(s, x) == 0
    ensures (forall i :: 0 <= i < |s| ==> s[i] <= x) ==> Above(s, x) == 0
  {
    if s != [] { CountsBounded(s[1..], x); }
  }

  /** What makes it a median: at most half of the weights are below it and at most half
      above it, and it lies between the least and the greatest. */
  lemma MedianSplitsInHalves(s: seq<int>, lo: int, hi: int)
    requires s != [] && 0 <= lo && IsWeight(2 * hi) && Within(s, lo, hi)
    ensures lo <= Median(s) <= hi
    ensures Below(s, Median(s)) <= |s| / 2 && Above(s, Median(s)) <= |s| / 2
  {
    MedianRank(s, lo, hi);
    var t, m := Sorted(s), Median(s);
    SortedSorts(s);
    CountsPermutation(s, t, m);
    CutAt(t, |s| / 2, m);
    CutAt(t, (|s| + 1) / 2, m);
  }

  lemma CutAt(t: seq<int>, k: nat, m: int)
    requires k <= |t| && IsSorted(t)
    ensures (forall i :: k <= i < |t| ==> m <= t[i]) ==> Below(t, m) <= k
    ensures (forall i :: 0 <= i < k ==> t[i] <= m) ==> Above(t, m) <= |t| - k
  {
    assert t == t[..k] + t[k..];
    CountsAppend(t[..k], t[k..], m);
    CountsBounded(t[..k], m);
    CountsBounded(t[k..], m);
  }

  /* ---- Re-centring ---- */

  function Recentre(cfg: Config, w: Weight, median: Weight): Weight {
    if median == 0 || median == Wrap(cfg.Middle()) then w
    else ToUint32(Mul(Fin(w as real), Div(Fin(cfg.Middle() as real), Fin(median as real))))
  }

  lemma ScaledWithin(cfg: Config, w: int, d: int)
    requires cfg.Ranged()
    requires cfg.minimumWeight <= w <= cfg.maximumWeight
    requires cfg.minimumWeight <= d <= cfg.maximumWeight
    ensures 0 <= cfg.Least() <= w * cfg.Middle() / d <= cfg.Greatest()
  {
    var mid, min, max := cfg.Middle(), cfg.minimumWeight, cfg.maximumWeight;
    MulMono(0, min, mid);
    MulMono(min, w, mid);
    MulMono(w, max, mid);
    DivNonneg(min * mid, max);
    DivAnti(min * mid, d, max);
    DivMono(min * mid, w * mid, d);
    DivMono(w * mid, max * mid, d);
    DivAnti(max * mid, min, d);
  }

  lemma ScaledToWeight(w: Weight, mid: int, d: int, n: int)
    requires 0 <= mid && 0 < d && n == w * mid / d && IsWeight(n)
    ensures ToUint32(Mul(Fin(w as real), Div(Fin(mid as real), Fin(d as real)))) == n
  {
    hide *;
    FiniteQuotient(mid as real, d as real);
    var ratio := mid as real / d as real;
    ScaledFloor(w, mid, d);
    FiniteProduct(w as real, ratio);
    FloorToWeight(w as real * ratio, n);
  }

  /** A quotient of reals, multiplied and truncated, is one integer division. */
  lemma RecentreIsOneDivision(cfg: Config, w: Weight, median: Weight)
    requires cfg.Sane() && cfg.minimumWeight <= w <= cfg.maximumWeight
    requires cfg.minimumWeight <= median <= cfg.maximumWeight
    ensures Recentre(cfg, w, median) == w * cfg.Middle() / median
    ensures cfg.Least() <= Recentre(cfg, w, median) <= cfg.Greatest()
    ensures median == cfg.Middle() ==> Recentre(cfg, w, median) == w
  {
    var mid := cfg.Middle();
    ScaledWithin(cfg, w, median);
    if median == mid {
      QuotientIs(w * mid, mid, w, w * mid);
    } else {
      ScaledToWeight(w, mid, median, w * mid / median);
    }
  }

  /** Re-centring any weight by any median, in or out of range: nothing happens for a median of
      0, and otherwise the weight is scaled, as long as the result is a uint32. */
  lemma RecentreScales(cfg: Config, w: Weight, median: Weight)
    requires cfg.Ranged()
    ensures median == 0 ==> Recentre(cfg, w, median) == w
    ensures median != 0 && IsWeight(w * cfg.Middle() / median) ==>
              Recentre(cfg, w, median) == w * cfg.Middle() / median
  {
    var mid := cfg.Middle();
    MiddleInRange(cfg);
    if median == mid {
      QuotientIs(w * mid, mid, w, w * mid);
    } else if median != 0 && IsWeight(w * mid / median) {
      ScaledToWeight(w, mid, median, w * mid / median);
    }
  }

  function Adjust(cfg: Config, weights: map<Address, Weight>, median: Weight): map<Address, Weight> {
    map k | k in weights :: Recentre(cfg, weights[k], median)
  }

  /** `adjustWeightsToMedian`, with its map walked in any order. */
  method AdjustWeightsToMedian(cfg: Config, weightsMap: map<Address, Weight>, median: Weight)
    returns (adjusted: map<Address, Weight>)
    ensures adjusted == Adjust(cfg, weightsMap, median)
  {
    if median == 0 {
      return weightsMap;
    }
    var middle := cfg.Middle();
    if median == Wrap(middle) {
      return weightsMap;
    }
    var ratio := Div(Fin(middle as real), Fin(median as real));
    adjusted := map[];
    var rest := weightsMap.Keys;
    while rest != {}
      invariant rest <= weightsMap.Keys
      invariant adjusted.Keys == weightsMap.Keys - rest
      invariant forall k :: k in adjusted ==> adjusted[k] == Recentre(cfg, weightsMap[k], median)
    {
      var key :| key in rest;
      adjusted := adjusted[key := ToUint32(Mul(Fin(weightsMap[key] as real), ratio))];
      rest := rest - {key};
    }
  }

  lemma RecentreMonotone(cfg: Config, v: Weight, w: Weight, median: Weight)
    requires cfg.Sane() && cfg.minimumWeight <= v <= w <= cfg.maximumWeight
    requires cfg.minimumWeight <= median <= cfg.maximumWeight
    ensures Recentre(cfg, v, median) <= Recentre(cfg, w, median)
  {
    hide *;
    SaneIsRanged(cfg);
    MiddleInRange(cfg);
    RecentreIsOneDivision(cfg, v, median);
    RecentreIsOneDivision(cfg, w, median);
    MulMono(v, w, cfg.Middle());
    DivMono(v * cfg.Middle(), w * cfg.Middle(), median);
  }

  lemma MiddleInRange(cfg: Config)
    requires cfg.Ranged()
    ensures 0 < cfg.minimumWeight <= cfg.Middle() <= cfg.maximumWeight
    ensures IsWeight(cfg.minimumWeight) && IsWeight(cfg.maximumWeight)
  {
  }

  lemma SaneIsRanged(cfg: Config)
    requires cfg.Sane()
    ensures cfg.Ranged()
  {
  }

  function Recentring(cfg: Config, median: Weight): int -> int {
    x => Recentre(cfg, Wrap(x), median)
  }

  function Recentred(cfg: Config, s: seq<int>): seq<int> {
    Map(Recentring(cfg, Median(s)), s)
  }

  lemma RecentringIsMonotone(cfg: Config, d: Weight)
    requires cfg.Sane() && cfg.minimumWeight <= d <= cfg.maximumWeight
    ensures Nondecreasing(Recentring(cfg, d), cfg.minimumWeight, cfg.maximumWeight)
  {
    var f := Recentring(cfg, d);
    forall x, y | cfg.minimumWeight <= x <= y <= cfg.maximumWeight ensures f(x) <= f(y) {
      RecentreMonotone(cfg, x, y, d);
    }
  }

  /** Re-centring commutes with sorting: the sorted result is the sorted input, re-centred. */
  lemma RecentredSorted(cfg: Config, s: seq<int>)
    requires cfg.Sane() && s != [] && Within(s, cfg.minimumWeight, cfg.maximumWeight)
    ensures cfg.minimumWeight <= Median(s) <= cfg.maximumWeight
    ensures Sorted(Recentred(cfg, s)) == Map(Recentring(cfg, Median(s)), Sorted(s))
  {
    MedianRank(s, cfg.minimumWeight, cfg.maximumWeight);
    RecentringIsMonotone(cfg, Median(s));
    SortedCommutes(Recentring(cfg, Median(s)), s, cfg.minimumWeight, cfg.maximumWeight);
  }

  lemma RecentredWithin(cfg: Config, s: seq<int>)
    requires cfg.Sane() && s != [] && Within(s, cfg.minimumWeight, cfg.maximumWeight)
    ensures Within(Recentred(cfg, s), cfg.Least(), cfg.Greatest())
  {
    var d := Median(s);
    MedianSplitsInHalves(s, cfg.minimumWeight, cfg.maximumWeight);
    forall i | 0 <= i < |s| ensures cfg.Least() <= Recentred(cfg, s)[i] <= cfg.Greatest() {
      RecentreIsOneDivision(cfg, s[i], d);
    }
  }

  /** What the two middle elements become: their sum lands in a narrow window. */
  lemma TwoMiddles(a: int, b: int, d: int, mid: int)
    requires 0 < d && 0 < mid && 0 <= a <= b && (a + b) / 2 == d
    ensures 2 * mid - 1 <= a * mid / d + b * mid / d <= 2 * mid + mid / d
  {
    DivMod(a * mid, d);
    DivMod(b * mid, d);
    DivMod(mid, d);
    var ra, rb, r := a * mid % d, b * mid % d, mid % d;
    var e := a + b - 2 * d;
    SumOfProducts(a, b, d, mid, e);
    SumWindow(d, mid, e, a * mid / d, b * mid / d, mid / d, ra, rb, r,
              a * mid - ra, b * mid - rb, mid - r, d * mid);
  }

  lemma SumOfProducts(a: int, b: int, d: int, mid: int, e: int)
    requires a + b == 2 * d + e
    ensures a * mid + b * mid == 2 * (d * mid) + e * mid
  {
    assert (a + b) * mid == (2 * d + e) * mid;
  }

  lemma SumWindow(d: int, mid: int, e: int, p: int, q: int, k: int, ra: int, rb: int, r: int,
                  pd: int, qd: int, kd: int, dm: int)
    requires 0 < d && 0 < mid && (e == 0 || e == 1) && dm == d * mid
    requires pd == p * d && qd == q * d && kd == k * d && kd + r == mid
    requires 0 <= ra < d && 0 <= rb < d && 0 <= r < d
    requires pd + ra + qd + rb == 2 * dm + e * mid
    ensures 2 * mid - 1 <= p + q <= 2 * mid + k
  {
    assert (p + q) * d == pd + qd;
    assert (2 * mid + k + 1) * d == 2 * dm + kd + d;
    assert (2 * mid - 2) * d == 2 * dm - 2 * d;
    Cancel(p + q, 2 * mid + k + 1, d, pd + qd, 2 * dm + kd + d);
    Cancel(2 * mid - 2, p + q, d, 2 * dm - 2 * d, pd + qd);
  }

  /** The sum of the two re-centred middle elements does not wrap. */
  lemma HalfRatio(cfg: Config, d: int)
    requires cfg.Sane() && cfg.minimumWeight <= d <= cfg.maximumWeight
    ensures IsWeight(2 * cfg.Middle() + cfg.Middle() / d)
  {
    var min, max, mid := cfg.minimumWeight, cfg.maximumWeight, cfg.Middle();
    SaneIsRanged(cfg);
    GreatestFits(cfg);
    hide *;
    MiddleInRange(cfg);
    TwiceMiddle(cfg);
    DivAnti(mid, min, d);
    DivNonneg(mid, d);
    DivMod(mid, min);
    DivMod(max * mid, min);
    RatioFits(min, max, mid, mid / min, mid - mid % min, max * mid / min, max * mid % min);
    SmallerIsWeight(2 * mid + mid / d, 2 * mid + mid / min);
  }

  lemma GreatestFits(cfg: Config)
    requires cfg.Sane()
    ensures IsWeight(cfg.maximumWeight * cfg.Middle() / cfg.minimumWeight) && IsWeight(cfg.Greatest())
  {
  }

  lemma TwiceMiddle(cfg: Config)
    requires cfg.Ranged()
    ensures 2 * cfg.Middle() <= cfg.minimumWeight + cfg.maximumWeight && IsWeight(2 * cfg.maximumWeight)
  {
  }

  lemma SmallerIsWeight(x: int, y: int)
    requires 0 <= x <= y && IsWeight(y)
    ensures IsWeight(x)
  {
  }

  lemma RatioTimesMax(min: int, max: int, mid: int, k: int, km: int, g: int, product: int)
    requires 0 < min <= max && km == k * min && km <= mid && product == max * mid && product < g * min + min
    ensures k * max <= g
  {
    MulMono(km, mid, max);
    SwapFactors(k, min, max);
    SuccProduct(g, min);
    Cancel(k * max, g + 1, min, km * max, g * min + min);
  }

  lemma LargeRatioFits(max: int, k: int, g: int)
    requires 3 <= k <= max && k * max <= g
    ensures 2 * max + k <= g
  {
    MulMono(3, max, k - 2);
    assert k * max == max * (k - 2) + 2 * max;
  }

  lemma RatioAtMostMax(min: int, max: int, mid: int, k: int, km: int)
    requires 0 < min <= mid <= max && km == k * min && km <= mid < km + min
    ensures 0 <= k <= max
  {
    SuccProduct(k, min);
    Cancel(0, k + 1, min, 0, km + min);
    MulMono(1, min, k);
  }

  lemma RatioFits(min: int, max: int, mid: int, k: int, km: int, g: int, r: int)
    requires 0 < min <= mid <= max && 2 * mid <= min + max && IsWeight(2 * max) && IsWeight(g)
    requires km == k * min && km <= mid < km + min && max * mid == g * min + r && 0 <= r < min
    ensures 0 <= k && IsWeight(2 * mid + k)
  {
    RatioAtMostMax(min, max, mid, k, km);
    if k <= 2 {
      if min == max { Cancel(k, 2, min, km, 2 * min); }
    } else {
      RatioTimesMax(min, max, mid, k, km, g, max * mid);
      LargeRatioFits(max, k, g);
    }
  }

  /** The middle elements of the re-centred weights, from the middle elements before. */
  lemma RecentredMiddle(cfg: Config, s: seq<int>, k: nat)
    requires cfg.Sane() && s != [] && Within(s, cfg.minimumWeight, cfg.maximumWeight)
    requires k < |s| == |Recentred(cfg, s)|
    ensures cfg.minimumWeight <= Median(s) <= cfg.maximumWeight
    ensures cfg.minimumWeight <= Sorted(s)[k] <= cfg.maximumWeight
    ensures Sorted(Recentred(cfg, s))[k] == Sorted(s)[k] * cfg.Middle() / Median(s)
  {
    hide Recentre, Median, Sorted;
    RecentredSorted(cfg, s);
    SortedWithin(s, cfg.minimumWeight, cfg.maximumWeight);
    RecentreIsOneDivision(cfg, Sorted(s)[k], Median(s));
  }

  lemma OddMedianIsMiddle(cfg: Config, s: seq<int>)
    requires cfg.Sane() && |s| % 2 == 1 && Within(s, cfg.minimumWeight, cfg.maximumWeight)
    ensures Median(Recentred(cfg, s)) == cfg.Middle()
  {
    hide Median, Recentred, Recentre;
    var d, mid, h := Median(s), cfg.Middle(), |s| / 2;
    RecentredLength(cfg, s);
    RecentredMiddle(cfg, s, h);
    MedianUnfold(Recentred(cfg, s));
    MedianRank(s, cfg.minimumWeight, cfg.maximumWeight);
    QuotientIs(d * mid, d, mid, d * mid);
  }

  /** The two middle elements, scaled and added up. */
  function MiddlePair(cfg: Config, s: seq<int>): int
    requires s != [] && |s| % 2 == 0 && Median(s) > 0
  {
    var t, h, mid, d := Sorted(s), |s| / 2, cfg.Middle(), Median(s);
    t[h - 1] * mid / d + t[h] * mid / d
  }

  lemma EvenMedianIsHalfPair(cfg: Config, s: seq<int>)
    requires cfg.Sane() && s != [] && |s| % 2 == 0 && Within(s, cfg.minimumWeight, cfg.maximumWeight)
    ensures 0 < Median(s)
    ensures 2 * cfg.Middle() - 1 <= MiddlePair(cfg, s) <= 2 * cfg.Middle() + cfg.Middle() / Median(s)
    ensures Median(Recentred(cfg, s)) == MiddlePair(cfg, s) / 2
  {
    hide Median, Recentred, Recentre, Sorted, Config.Sane, Config.Middle;
    var d, mid, h := Median(s), cfg.Middle(), |s| / 2;
    SaneIsRanged(cfg);
    MiddleInRange(cfg);
    RecentredLength(cfg, s);
    RecentredMiddle(cfg, s, h);
    RecentredMiddle(cfg, s, h - 1);
    MedianUnfold(Recentred(cfg, s));
    MedianRank(s, cfg.minimumWeight, cfg.maximumWeight);
    TwoMiddles(Sorted(s)[h - 1], Sorted(s)[h], d, mid);
    HalfRatio(cfg, d);
  }

  /** When the median of an even number of weights lands on the middle, told from the two middle
      inputs `a` and `b` and the remainders that scaling them leaves: if their sum is even, the
      lower one must scale without a remainder; if it is odd, taking both remainders from the
      middle must leave nothing or exactly the median. */
  ghost predicate MiddlesLand(a: int, b: int, mid: int)
    requires a + b >= 2
  {
    var d := (a + b) / 2;
    if (a + b) % 2 == 0 then a * mid % d == 0
    else var left := mid - a * mid % d - b * mid % d; left == 0 || left == d
  }

  lemma EvenSumRemainders(d: int, mid: int, p: int, q: int, ra: int, rb: int, pd: int, qd: int, dm: int)
    requires 0 < d && pd == p * d && qd == q * d && dm == d * mid
    requires 0 <= ra < d && 0 <= rb < d && pd + ra + qd + rb == 2 * dm
    ensures p + q == 2 * mid <==> ra == 0
    ensures p + q <= 2 * mid
  {
    var k := 2 * mid - p - q;
    assert k * d == 2 * dm - pd - qd;
    Cancel(-1, k, d, -d, ra + rb);
    Cancel(k, 2, d, ra + rb, 2 * d);
    assert k == 0 || k == 1;
  }

  lemma OddSumRemainders(d: int, mid: int, p: int, q: int, ra: int, rb: int, pd: int, qd: int, dm: int)
    requires 0 < d && pd == p * d && qd == q * d && dm == d * mid
    requires 0 <= ra < d && 0 <= rb < d && pd + ra + qd + rb == 2 * dm + mid
    ensures var left := mid - ra - rb;
            (p + q == 2 * mid <==> left == 0) && (p + q == 2 * mid + 1 <==> left == d)
  {
    var k, left := p + q - 2 * mid, mid - ra - rb;
    assert k * d == pd + qd - 2 * dm;
    if left == 0 { Cancel(k, 0, d, left, 0); Cancel(0, k, d, 0, left); }
    if left == d { Cancel(k, 1, d, left, d); Cancel(1, k, d, d, left); }
  }

  lemma RemaindersDecide(d: int, mid: int, e: int, p: int, q: int, ra: int, rb: int, pd: int, qd: int, dm: int, em: int)
    requires 0 < d && pd == p * d && qd == q * d && dm == d * mid && (e == 0 || e == 1) && em == e * mid
    requires 0 <= ra < d && 0 <= rb < d && pd + ra + qd + rb == 2 * dm + em
    ensures 2 * mid <= p + q <= 2 * mid + 1 <==>
            if e == 0 then ra == 0 else mid - ra - rb == 0 || mid - ra - rb == d
  {
    if e == 0 {
      EvenSumRemainders(d, mid, p, q, ra, rb, pd, qd, dm);
    } else {
      OddSumRemainders(d, mid, p, q, ra, rb, pd, qd, dm);
    }
  }

  /** The two middle elements are scaled to twice the middle, or one more, exactly when their
      remainders allow it. */
  lemma MiddlesLandIff(a: int, b: int, d: int, mid: int)
    requires 0 < d && 0 <= a <= b && (a + b) / 2 == d
    ensures 2 * mid <= a * mid / d + b * mid / d <= 2 * mid + 1 <==> MiddlesLand(a, b, mid)
  {
    var am, bm, e := a * mid, b * mid, (a + b) % 2;
    DivMod(am, d);
    DivMod(bm, d);
    SumOfProducts(a, b, d, mid, e);
    RemaindersDecide(d, mid, e, am / d, bm / d, am % d, bm % d, am - am % d, bm - bm % d, d * mid, e * mid);
    assert MiddlesLand(a, b, mid) <==>
           if e == 0 then am % d == 0 else mid - am % d - bm % d == 0 || mid - am % d - bm % d == d;
  }

  /** The re-centring theorem. With an odd number of clamped weights the median lands on
      the middle of the range exactly. With an even number it lands between one below and
      half of the scale factor above, and on the middle itself exactly when the remainders of
      the two middle inputs, scaled, allow it. */
  lemma RecentringTheorem(cfg: Config, s: seq<int>)
    requires cfg.Sane() && s != [] && Within(s, cfg.minimumWeight, cfg.maximumWeight)
    ensures 0 < cfg.minimumWeight <= Median(s)
    ensures |s| % 2 == 1 ==> Median(Recentred(cfg, s)) == cfg.Middle()
    ensures |s| % 2 == 0 ==>
              var m, mid, a, b := Median(Recentred(cfg, s)), cfg.Middle(), Sorted(s)[|s| / 2 - 1], Sorted(s)[|s| / 2];
              1 <= a <= b && (a + b) / 2 == Median(s) &&
              mid - 1 <= m <= mid + mid / Median(s) / 2 &&
              (m == mid <==> MiddlesLand(a, b, mid))
  {
    hide Median, Recentred, MiddlesLand, Sorted, Config.Middle, Config.Sane;
    SaneIsRanged(cfg);
    MiddleInRange(cfg);
    MedianRank(s, cfg.minimumWeight, cfg.maximumWeight);
    if |s| % 2 == 1 {
      OddMedianIsMiddle(cfg, s);
    } else {
      EvenMedianIsHalfPair(cfg, s);
      MiddlesLandIff(Sorted(s)[|s| / 2 - 1], Sorted(s)[|s| / 2], Median(s), cfg.Middle());
    }
  }

  lemma SortedPair(a: int, b: int)
    requires a <= b
    ensures Sorted([a, b]) == [a, b]
  {
    assert IsSorted([a, b]);
    SortedSorts([a, b]);
    SortedIsUnique(Sorted([a, b]), [a, b]);
  }

  lemma PairMedian(a: int, b: int, d: int, p: int, q: int)
    requires 100 <= a <= b <= 600 && (a + b) / 2 == d
    requires p == a * 350 / d && q == b * 350 / d
    ensures Median([a, b]) == d && Median(Recentred(DEFAULTS, [a, b])) == (p + q) / 2
  {
    hide Recentred, Sorted;
    SortedPair(a, b);
    MedianRank([a, b], 100, 600);
    hide Median;
    EvenMedianIsHalfPair(DEFAULTS, [a, b]);
  }

  /** Both ends of the window are met with the default settings, whose middle is 350. */
  lemma EvenMedianCanMiss()
    ensures DEFAULTS.Sane() && DEFAULTS.Middle() == 350
    ensures Median(Recentred(DEFAULTS, [100, 102])) == 349
    ensures Median(Recentred(DEFAULTS, [100, 101])) == 351 == 350 + 350 / Median([100, 101]) / 2
  {
    hide Recentred, Median;
    PairMedian(100, 102, 101, 346, 353);
    PairMedian(100, 101, 100, 350, 353);
  }

  /** The configured split survives re-centring: of any two weights of one cycle, the larger
      is to the smaller (plus one, for truncation) as at most Max is to Min. */
  lemma SplitSurvives(cfg: Config, s: seq<int>, i: nat, j: nat)
    requires cfg.Sane() && Within(s, cfg.minimumWeight, cfg.maximumWeight)
    requires i < |s| && j < |s|
    ensures var r := Recentred(cfg, s);
            r[i] * cfg.minimumWeight < (r[j] + 1) * cfg.maximumWeight
  {
    var d, mid, r := Median(s), cfg.Middle(), Recentred(cfg, s);
    MedianRank(s, cfg.minimumWeight, cfg.maximumWeight);
    RecentreIsOneDivision(cfg, s[i], d);
    RecentreIsOneDivision(cfg, s[j], d);
    DivMod(s[i] * mid, d);
    DivMod(s[j] * mid, d);
    SplitOfQuotients(cfg.minimumWeight, cfg.maximumWeight, mid, d, s[i], s[j], r[i], r[j],
                     s[i] * mid, s[j] * mid, r[i] * d, r[j] * d);
  }

  lemma SplitOfQuotients(min: int, max: int, mid: int, d: int, a: int, b: int, p: int, q: int,
                         am: int, bm: int, pd: int, qd: int)
    requires 0 < min <= mid <= max && 0 < d && a <= max && min <= b
    requires am == a * mid && bm == b * mid && pd == p * d && qd == q * d
    requires pd <= am && bm < qd + d
    ensures p * min < (q + 1) * max
  {
    MulMono(a, max, mid);
    MulMono(min, b, mid);
    var upper, lower := max * mid, min * mid;
    SwapFactors(max, mid, min);
    SwapFactors(min, mid, max);
    var x := max * min * mid;
    assert upper * min == x && lower * max == x;
    MulMono(pd, upper, min);
    MulMono(lower + 1, qd + d, max);
    SuccProduct(lower, max);
    SuccProduct(q, d);
    SwapFactors(p, d, min);
    SwapFactors(q + 1, d, max);
    Cancel(p * min, (q + 1) * max, d, pd * min, (qd + d) * max);
  }

  lemma MedianOfThree(a: int, b: int, c: int)
    requires a <= b <= c && IsWeight(b)
    ensures Median([a, b, c]) == b
  {
    hide Sorted, Median;
    var s := [a, b, c];
    assert IsSorted(s);
    SortedSorts(s);
    SortedIsUnique(Sorted(s), s);
    MedianUnfold(s);
  }

  /** The range of re-centred weights is attained at both ends. */
  lemma RecentredRangeIsTight(cfg: Config)
    requires cfg.Sane()
    ensures Recentred(cfg, [cfg.minimumWeight, cfg.maximumWeight, cfg.maximumWeight])[0] == cfg.Least()
    ensures Recentred(cfg, [cfg.minimumWeight, cfg.minimumWeight, cfg.maximumWeight])[2] == cfg.Greatest()
  {
    hide Recentre, Median, Config.Sane, Config.Middle;
    SaneIsRanged(cfg);
    MiddleInRange(cfg);
    var min, max := cfg.minimumWeight, cfg.maximumWeight;
    MedianOfThree(min, max, max);
    MedianOfThree(min, min, max);
    RecentreIsOneDivision(cfg, min, max);
    RecentreIsOneDivision(cfg, max, min);
  }

  /** Re-centring can turn a clamped weight into 0, the value that the overlay reads as absent,
      exactly when Min * middle < Max. */
  lemma ZeroWeightPossibleIff(cfg: Config)
    requires cfg.Sane()
    ensures (exists s :: s != [] && Within(s, cfg.minimumWeight, cfg.maximumWeight) && 0 in Recentred(cfg, s))
            <==> cfg.minimumWeight * cfg.Middle() < cfg.maximumWeight
  {
    hide Recentred, Median, Config.Sane;
    SaneIsRanged(cfg);
    LeastPositive(cfg);
    if cfg.minimumWeight * cfg.Middle() < cfg.maximumWeight {
      var s := [cfg.minimumWeight, cfg.maximumWeight, cfg.maximumWeight];
      RecentredRangeIsTight(cfg);
      RecentredLength(cfg, s);
      assert Within(s, cfg.minimumWeight, cfg.maximumWeight);
      assert Recentred(cfg, s)[0] in Recentred(cfg, s);
    } else {
      forall s | s != [] && Within(s, cfg.minimumWeight, cfg.maximumWeight) ensures 0 !in Recentred(cfg, s) {
        RecentredWithin(cfg, s);
      }
    }
  }

  lemma RecentredLength(cfg: Config, s: seq<int>)
    ensures |Recentred(cfg, s)| == |s|
  {
  }

  lemma LeastPositive(cfg: Config)
    requires cfg.Ranged()
    ensures 0 <= cfg.Least() && (cfg.Least() >= 1 <==> cfg.minimumWeight * cfg.Middle() >= cfg.maximumWeight)
  {
    var p, max := cfg.minimumWeight * cfg.Middle(), cfg.maximumWeight;
    MulMono(0, cfg.minimumWeight, cfg.Middle());
    if p >= max {
      DivMono(max, p, max);
      QuotientIs(max, max, 1, max);
    } else {
      QuotientIs(p, max, 0, 0);
    }
  }
}
