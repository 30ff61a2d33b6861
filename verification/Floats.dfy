/**
 Floating-point numbers up to rounding: NaN, the infinities, and exact finite values.
 */
module Floats {
  datatype F64 = NaN | NegInf | Finite(x: real) | PosInf

  /** `a <= b`; false when either is NaN. */
  predicate Le(a: F64, b: F64)
    ensures Le(a, b) ==> !a.NaN? && !b.NaN?
  {
    match (a, b)
    case (NaN, _) => false
    case (_, NaN) => false
    case (NegInf, _) => true
    case (_, PosInf) => true
    case (Finite(x), Finite(y)) => x <= y
    case _ => false
  }

  /** The smaller number; a NaN loses. */
  function Min(a: F64, b: F64): F64 {
    if a.NaN? then b else if b.NaN? then a else if Le(a, b) then a else b
  }

  function Max(a: F64, b: F64): F64 {
    if a.NaN? then b else if b.NaN? then a else if Le(a, b) then b else a
  }

  lemma LeTotal(a: F64, b: F64)
    requires !a.NaN? && !b.NaN?
    ensures Le(a, b) || Le(b, a)
    ensures Le(a, b) && Le(b, a) ==> a == b
    ensures Le(Min(a, b), a) && Le(Min(a, b), b) && (Min(a, b) == a || Min(a, b) == b)
    ensures Le(a, Max(a, b)) && Le(b, Max(a, b)) && (Max(a, b) == a || Max(a, b) == b)
  {}

  lemma LeTransitive(a: F64, b: F64, c: F64)
    requires Le(a, b) && Le(b, c)
    ensures Le(a, c)
  {}

  /** Being above the larger of two bounds is being above both. */
  lemma BoundBoth(x: F64, a: F64, b: F64)
    requires !x.NaN? && !a.NaN? && !b.NaN?
    ensures Le(Max(a, b), x) <==> Le(a, x) && Le(b, x)
    ensures Le(x, Min(a, b)) <==> Le(x, a) && Le(x, b)
  {}
}
