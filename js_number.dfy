/**
 * JavaScript numbers as the scroll formulas see them: finite values (taken as
 * exact reals, with no rounding), the two infinities and NaN, with the
 * division, `Math.min`/`Math.max` and the affine steps the formulas use.
 */
module JsNumber {

  datatype Num = Finite(v: real) | PosInf | NegInf | NaN

  /** `a / b`: dividing by zero gives an infinity of the sign of `a`, or NaN for `0 / 0`. */
  function Div(a: real, b: real): (r: Num)
    ensures b != 0.0 ==> r == Finite(a / b)
    ensures b == 0.0 ==> (r.NaN? <==> a == 0.0) && (r == PosInf <==> a > 0.0) && (r == NegInf <==> a < 0.0)
  {
    if b != 0.0 then Finite(a / b)
    else if a > 0.0 then PosInf
    else if a < 0.0 then NegInf
    else NaN
  }

  /** The order of non-NaN numbers. */
  predicate LessEq(x: Num, y: Num)
    requires !x.NaN? && !y.NaN?
  {
    match (x, y)
    case (NegInf, _) => true
    case (_, PosInf) => true
    case (Finite(a), Finite(b)) => a <= b
    case _ => false
  }

  /** `Math.max(x, y)`: NaN if either is NaN. */
  function Max(x: Num, y: Num): (r: Num)
    ensures r.NaN? <==> x.NaN? || y.NaN?
    ensures !r.NaN? ==> LessEq(x, r) && LessEq(y, r) && (r == x || r == y)
  {
    if x.NaN? || y.NaN? then NaN else if LessEq(x, y) then y else x
  }

  /** `Math.min(x, y)`: NaN if either is NaN. */
  function Min(x: Num, y: Num): (r: Num)
    ensures r.NaN? <==> x.NaN? || y.NaN?
    ensures !r.NaN? ==> LessEq(r, x) && LessEq(r, y) && (r == x || r == y)
  {
    if x.NaN? || y.NaN? then NaN else if LessEq(x, y) then x else y
  }

  /** `Math.min(Math.max(x, 0), 1)`. */
  function Clamp01(x: Num): (r: Num)
    ensures r.NaN? <==> x.NaN?
    ensures r.Finite? || r.NaN?
    ensures r.Finite? ==> 0.0 <= r.v <= 1.0
    ensures x.Finite? && 0.0 <= x.v <= 1.0 ==> r == x
    ensures x == PosInf || (x.Finite? && x.v > 1.0) ==> r == Finite(1.0)
    ensures x == NegInf || (x.Finite? && x.v < 0.0) ==> r == Finite(0.0)
  {
    Min(Max(x, Finite(0.0)), Finite(1.0))
  }

  /** Clamping in the other order, `Math.max(0, Math.min(1, x))`, agrees. */
  lemma ClampOrder(x: Num)
    ensures Max(Finite(0.0), Min(Finite(1.0), x)) == Clamp01(x)
  {
  }

  /** `c + x * k` for a finite `c` and `k`. */
  function Affine(c: real, x: Num, k: real): (r: Num)
    ensures x.Finite? ==> r == Finite(c + x.v * k)
    ensures x.NaN? ==> r.NaN?
    ensures !x.Finite? && k == 0.0 ==> r.NaN?
  {
    if x.Finite? then Finite(c + x.v * k)
    else if x.NaN? || k == 0.0 then NaN
    else if (x == PosInf) == (k > 0.0) then PosInf
    else NegInf
  }

  /** `Math.abs`. */
  function Abs(x: real): real
  {
    if x < 0.0 then -x else x
  }

  /** For `0 <= a` and `b <= c`, `a * b <= a * c`. */
  lemma MulMono(a: real, b: real, c: real)
    requires 0.0 <= a && b <= c
    ensures a * b <= a * c
  {
  }

  /** For `0 < a` and `b < c`, `a * b < a * c`. */
  lemma MulStrict(a: real, b: real, c: real)
    requires 0.0 < a && b < c
    ensures a * b < a * c
  {
    assert a * c - a * b == a * (c - b);
  }

  /** Where a quotient by a positive divisor lies, read off the dividend. */
  lemma DivBounds(a: real, d: real)
    ensures d > 0.0 && a <= 0.0 ==> a / d <= 0.0
    ensures d > 0.0 && a >= 0.0 ==> a / d >= 0.0
    ensures d > 0.0 && a >= d ==> a / d >= 1.0
    ensures d > 0.0 && a <= d ==> a / d <= 1.0
    ensures d > 0.0 ==> (a / d == 0.0 <==> a == 0.0)
  {
    if d > 0.0 {
      var q := a / d;
      assert q * d == a;
      if a >= d && q < 1.0 {
        MulMono(d, q, 1.0);
      }
      if a <= d && q > 1.0 {
        MulMono(d, 1.0, q);
      }
      if a <= 0.0 && q > 0.0 {
        MulMono(d, 0.0, q);
      }
      if a >= 0.0 && q < 0.0 {
        MulMono(d, q, 0.0);
      }
    }
  }

  /** Division by a positive number keeps order. */
  lemma DivMonotone(a: real, b: real, d: real)
    requires d > 0.0 && a <= b
    ensures a / d <= b / d
  {
  }
}
