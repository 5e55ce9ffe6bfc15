/** Products, quotients and floors. The products a step compares are passed as parameters,
    which keeps every proof within reach of the solver. */
module Arithmetic {

  lemma MulMono(a: int, b: int, c: int)
    requires a <= b && 0 <= c
    ensures a * c <= b * c
  {
  }

  lemma Cancel(a: int, b: int, d: int, p: int, r: int)
    requires 0 < d && p == a * d && r == b * d
    ensures p < r ==> a < b
    ensures p <= r ==> a <= b
  {
    if p < r && b <= a { MulMono(b, a, d); }
    if p <= r && b < a { SuccProduct(b, d); MulMono(b + 1, a, d); }
  }

  lemma CancelReal(x: real, y: real, d: real, p: real, r: real)
    requires 0.0 < d && p == x * d && r == y * d
    ensures p < r ==> x < y
    ensures p <= r ==> x <= y
  {
  }

  lemma SuccProduct(q: int, d: int)
    ensures (q + 1) * d == q * d + d
  {
  }

  lemma SuccProductReal(y: real, d: real)
    ensures (y + 1.0) * d == y * d + d
  {
  }

  lemma RealProduct(a: int, b: int)
    ensures (a * b) as real == a as real * b as real
  {
  }

  lemma SwapFactors(x: int, y: int, z: int)
    ensures x * y * z == x * z * y
  {
  }

  lemma DivMod(a: int, d: int)
    requires 0 < d
    ensures a == a / d * d + a % d && 0 <= a % d < d
  {
  }

  /** The quotient is the one `q` with `q * d <= a < q * d + d`. */
  lemma QuotientIs(a: int, d: int, q: int, p: int)
    requires 0 < d && p == q * d && p <= a < p + d
    ensures a / d == q
  {
    DivMod(a, d);
    SuccProduct(q, d);
    SuccProduct(a / d, d);
    Cancel(q, a / d + 1, d, p, a - a % d + d);
    Cancel(a / d, q + 1, d, a - a % d, p + d);
  }

  lemma DivMono(a: int, b: int, d: int)
    requires a <= b && 0 < d
    ensures a / d <= b / d
  {
    DivMod(a, d);
    DivMod(b, d);
    SuccProduct(b / d, d);
    Cancel(a / d, b / d + 1, d, a - a % d, b - b % d + d);
  }

  lemma DivNonneg(a: int, d: int)
    requires 0 <= a && 0 < d
    ensures 0 <= a / d
  {
    DivMono(0, a, d);
    QuotientIs(0, d, 0, 0);
  }

  lemma QuotientAnti(d: int, e: int, p: int, q: int, a: int, pd: int, qe: int)
    requires 0 < d <= e && 0 <= q && qe == q * e && pd == p * d
    requires qe <= a < pd + d
    ensures q <= p
  {
    MulMono(d, e, q);
    assert q * d <= qe;
    SuccProduct(p, d);
    Cancel(q, p + 1, d, q * d, pd + d);
  }

  /** A larger denominator gives no larger quotient. */
  lemma DivAnti(a: int, d: int, e: int)
    requires 0 <= a && 0 < d <= e
    ensures a / e <= a / d
  {
    DivMod(a, d);
    DivMod(a, e);
    DivNonneg(a, e);
    QuotientAnti(d, e, a / d, a / e, a, a - a % d, a - a % e);
  }

  lemma RealFloor(x: real, q: int, d: real, a: real, e: real)
    requires 0.0 < d && x * d == a && q as real * d == e && e <= a < e + d
    ensures x.Floor == q
  {
    SuccProductReal(q as real, d);
    CancelReal(q as real, x, d, e, a);
    CancelReal(x, q as real + 1.0, d, a, e + d);
  }

  lemma QuotientFloor(a: int, d: int, q: int, e: int, x: real)
    requires 0 < d && q * d == e && e <= a < e + d && x * d as real == a as real
    ensures x.Floor == q
  {
    RealProduct(q, d);
    RealFloor(x, q, d as real, a as real, e as real);
  }

  lemma Regroup(x: real, y: real, d: real)
    requires 0.0 < d
    ensures x * (y / d) * d == x * y
  {
    assert y / d * d == y;
    Associate(x, y / d, d);
  }

  lemma Associate(x: real, y: real, z: real)
    ensures x * y * z == x * (y * z)
  {
  }

  /** A product with a quotient of reals, truncated, is one integer division. */
  lemma ScaledFloor(w: int, m: int, d: int)
    requires 0 <= w && 0 <= m && 0 < d
    ensures (w as real * (m as real / d as real)).Floor == w * m / d
  {
    var a := w * m;
    DivMod(a, d);
    RealProduct(w, m);
    Regroup(w as real, m as real, d as real);
    QuotientFloor(a, d, a / d, a - a % d, w as real * (m as real / d as real));
  }
}
