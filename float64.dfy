/**
 * The values held in a pandas `float64` column, as the signal rule sees them:
 * a finite number, one of the two infinities, or NaN.
 *
 * Finite values are exact reals: the model does not round.
 */
module Float64 {

  datatype Float = Num(value: real) | PosInf | NegInf | NaN

  /** Position of a non-NaN value on the extended real line. */
  predicate NotAbove(a: Float, b: Float)
    requires !a.NaN? && !b.NaN?
  {
    match (a, b)
    case (NegInf, _) => true
    case (_, PosInf) => true
    case (Num(x), Num(y)) => x <= y
    case _ => false
  }

  /** IEEE 754 `a < b`: false whenever either side is NaN. */
  function Lt(a: Float, b: Float): (r: bool)
    ensures r ==> !a.NaN? && !b.NaN?
    ensures a.Num? && b.Num? ==> (r <==> a.value < b.value)
    ensures b == PosInf && !a.NaN? && a != PosInf ==> r
    ensures a == NegInf && !b.NaN? && b != NegInf ==> r
    ensures a == PosInf || b == NegInf ==> !r
  {
    !a.NaN? && !b.NaN? && !NotAbove(b, a)
  }

  /** IEEE 754 `a > b`: false whenever either side is NaN. */
  function Gt(a: Float, b: Float): (r: bool)
    ensures r ==> !a.NaN? && !b.NaN?
    ensures a.Num? && b.Num? ==> (r <==> a.value > b.value)
    ensures a == PosInf && !b.NaN? && b != PosInf ==> r
    ensures a == NegInf || b == PosInf ==> !r
  {
    Lt(b, a)
  }

  /**
   * IEEE 754 division on exact values. A zero divisor is taken to be +0:
   * a positive dividend gives +inf, a negative one -inf, and 0 / 0 is NaN.
   */
  function Div(a: Float, b: Float): (q: Float)
    ensures (a.NaN? || b.NaN?) ==> q.NaN?
    ensures a.Num? && b.Num? && b.value != 0.0 ==> q.Num? && q.value * b.value == a.value
    ensures a.Num? && b.Num? && b.value == 0.0 ==>
              (q == PosInf <==> a.value > 0.0) && (q == NegInf <==> a.value < 0.0) &&
              (q.NaN? <==> a.value == 0.0)
    ensures a.Num? && (b == PosInf || b == NegInf) ==> q == Num(0.0)
    ensures (a == PosInf || a == NegInf) && (b == PosInf || b == NegInf) ==> q.NaN?
    ensures (a == PosInf || a == NegInf) && b.Num? ==>
              (q == a <==> b.value >= 0.0) && (q != a ==> !q.NaN? && !q.Num?)
  {
    match (a, b)
    case (NaN, _) => NaN
    case (_, NaN) => NaN
    case (Num(x), Num(y)) =>
      if y != 0.0 then Num(x / y)
      else if x > 0.0 then PosInf
      else if x < 0.0 then NegInf
      else NaN
    case (Num(_), _) => Num(0.0)
    case (_, Num(y)) =>
      if y >= 0.0 then a
      else if a == PosInf then NegInf else PosInf
    case _ => NaN
  }

  /** Strict order: no value is below itself, and no two values are below each other. */
  lemma LtAsymmetric(a: Float, b: Float)
    ensures !Lt(a, a)
    ensures Lt(a, b) ==> !Lt(b, a)
  {
  }

  /** Every comparison with NaN is false. */
  lemma NaNComparesFalse(a: Float)
    ensures !Lt(NaN, a) && !Lt(a, NaN) && !Gt(NaN, a) && !Gt(a, NaN)
  {
  }

  /**
   * For a positive finite divisor, `x / y > t` is the same test as `x > t * y`,
   * the form that needs no division.
   */
  lemma DivAboveIff(x: real, y: real, t: real)
    requires y > 0.0
    ensures Gt(Div(Num(x), Num(y)), Num(t)) <==> x > t * y
  {
  }
}
