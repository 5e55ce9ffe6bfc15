/** The float64 values of the controllers, in exact arithmetic: a finite value is a real
    number, and the infinities and NaN follow section 6 and section 7 of IEEE 754-2019.
    There is a single, positive zero. Rounding is treated in module Rounding. */
module Floats {

  datatype Float = NaN | NegInf | PosInf | Fin(value: real)

  const ONE := Fin(1.0)
  const ZERO := Fin(0.0)

  /** A uint32. */
  type Weight = w: int | 0 <= w < 0x1_0000_0000

  predicate IsWeight(x: int) { 0 <= x < 0x1_0000_0000 }

  /** Unsigned arithmetic keeps the low 32 bits. */
  function Wrap(x: int): (w: Weight)
    ensures IsWeight(x) ==> w == x
  {
    x % 0x1_0000_0000
  }

  function Sign(x: Float): int
    requires !x.NaN?
  {
    match x
    case NegInf => -1
    case PosInf => 1
    case Fin(r) => if r < 0.0 then -1 else if r > 0.0 then 1 else 0
  }

  function Infinity(sign: int): Float {
    if sign == 0 then NaN else if sign > 0 then PosInf else NegInf
  }

  function Add(x: Float, y: Float): Float {
    if x.NaN? || y.NaN? then NaN
    else if x.Fin? && y.Fin? then Fin(x.value + y.value)
    else if x.Fin? then y
    else if y.Fin? || x == y then x
    else NaN
  }

  function Neg(x: Float): Float {
    match x
    case NaN => NaN
    case NegInf => PosInf
    case PosInf => NegInf
    case Fin(r) => Fin(-r)
  }

  function Sub(x: Float, y: Float): Float { Add(x, Neg(y)) }

  function Mul(x: Float, y: Float): Float {
    if x.NaN? || y.NaN? then NaN
    else if x.Fin? && y.Fin? then Fin(x.value * y.value)
    else Infinity(Sign(x) * Sign(y))
  }

  function Div(x: Float, y: Float): Float {
    if x.NaN? || y.NaN? then NaN
    else if y.Fin? && y.value == 0.0 then Infinity(Sign(x))
    else if x.Fin? && y.Fin? then Fin(x.value / y.value)
    else if y.Fin? then Infinity(Sign(x) * Sign(y))
    else if x.Fin? then ZERO
    else NaN
  }

  function Abs(x: Float): Float {
    match x
    case NaN => NaN
    case NegInf => PosInf
    case PosInf => PosInf
    case Fin(r) => Fin(if r < 0.0 then -r else r)
  }

  /** `x < y`: false as soon as one side is NaN. */
  predicate Less(x: Float, y: Float) {
    match (x, y)
    case (Fin(a), Fin(b)) => a < b
    case (NegInf, Fin(_)) => true
    case (NegInf, PosInf) => true
    case (Fin(_), PosInf) => true
    case _ => false
  }

  function Trunc(r: real): int {
    if r >= 0.0 then r.Floor else -((-r).Floor)
  }

  /** The Go conversion `uint32(f)`. The language fixes the result only when the integer
      part is a uint32; elsewhere this keeps the low 32 bits, and gives 0 for a value that
      is not finite. */
  function ToUint32(x: Float): Weight {
    match x
    case Fin(r) => Wrap(Trunc(r))
    case _ => 0
  }

  lemma FiniteQuotient(x: real, y: real)
    requires y != 0.0
    ensures Div(Fin(x), Fin(y)) == Fin(x / y)
  {
  }

  lemma FiniteProduct(x: real, y: real)
    ensures Mul(Fin(x), Fin(y)) == Fin(x * y)
  {
  }

  lemma FloorToWeight(r: real, n: int)
    requires r.Floor == n && IsWeight(n)
    ensures ToUint32(Fin(r)) == n
  {
    assert 0.0 <= r;
  }

  lemma NaNToWeight()
    ensures ToUint32(NaN) == 0
  {
  }

  lemma OneLess(x: Float)
    ensures Sub(ONE, x).NaN? <==> x.NaN?
  {
  }

  lemma AddZero(x: Float)
    ensures Add(ZERO, x) == x
  {
  }

  lemma AddCommutes(x: Float, y: Float)
    ensures Add(x, y) == Add(y, x)
  {
  }

  /** Addition is associative even through infinities and NaN, so a sum over a Go map does
      not depend on the order in which the map is walked. */
  lemma AddAssociates(x: Float, y: Float, z: Float)
    ensures Add(Add(x, y), z) == Add(x, Add(y, z))
  {
  }

  function Sum(s: seq<Float>): Float {
    if s == [] then ZERO else Add(s[0], Sum(s[1..]))
  }
}
