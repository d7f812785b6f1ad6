/**
 * The values a Python float can take, as far as comparisons see them,
 * and the comparison operators the script applies to them.
 */
module Floats {

  /** A Python float: a finite number, an infinity or NaN. */
  datatype Float = Finite(v: real) | PosInf | NegInf | NaN

  /** `x < t` for a finite threshold `t`; every comparison with NaN is false. */
  predicate Less(x: Float, t: real) {
    match x
    case Finite(v) => v < t
    case NegInf => true
    case PosInf => false
    case NaN => false
  }

  /** `x >= t` for a finite threshold `t`; every comparison with NaN is false. */
  predicate AtLeast(x: Float, t: real) {
    match x
    case Finite(v) => v >= t
    case NegInf => false
    case PosInf => true
    case NaN => false
  }

  /** `x <= y` on floats that are not NaN. */
  predicate LessEq(x: Float, y: Float)
    requires !x.NaN? && !y.NaN?
  {
    match (x, y)
    case (NegInf, _) => true
    case (_, PosInf) => true
    case (Finite(a), Finite(b)) => a <= b
    case _ => false
  }

  /** Apart from NaN, `<` and `>=` against a threshold are complements. */
  lemma LessIffNotAtLeast(x: Float, t: real)
    ensures x.NaN? ==> !Less(x, t) && !AtLeast(x, t)
    ensures !x.NaN? ==> (Less(x, t) <==> !AtLeast(x, t))
  {
  }
}
