/**
 * The rounding steps of the volume arithmetic, on exact reals: `math.ceil`,
 * `round(x)` and `round(x, 2)`. Python's `round` rounds halves to even.
 */
module Rounding {

  function Max(a: real, b: real): (r: real)
    ensures r >= a && r >= b && (r == a || r == b)
  {
    if a >= b then a else b
  }

  function Min(a: real, b: real): (r: real)
    ensures r <= a && r <= b && (r == a || r == b)
  {
    if a <= b then a else b
  }

  /** `math.ceil(x)`: the least integer not below `x`. */
  function Ceil(x: real): (n: int)
    ensures x <= n as real < x + 1.0
  {
    -((-x).Floor)
  }

  /** `round(x)`: the nearest integer, a tie going to the even one. */
  function RoundHalfEven(x: real): (n: int)
    ensures x - 0.5 <= n as real <= x + 0.5
    ensures n as real == x + 0.5 || n as real == x - 0.5 ==> n % 2 == 0
  {
    var f := x.Floor;
    var frac := x - f as real;
    if frac < 0.5 then f
    else if frac > 0.5 then f + 1
    else if f % 2 == 0 then f
    else f + 1
  }

  /** `round(x, 2)`: to the nearest hundredth, a tie going to the even hundredth. */
  function Round2(x: real): (r: real)
    ensures x - 0.005 <= r <= x + 0.005
  {
    RoundHalfEven(x * 100.0) as real / 100.0
  }

  /* Small facts of real arithmetic the solver proves only one at a time. */

  lemma ProductZero(a: real, b: real)
    ensures a * b == 0.0 <==> a == 0.0 || b == 0.0
  {
  }

  lemma DivZero(a: real, b: real)
    requires b != 0.0
    ensures a / b == 0.0 <==> a == 0.0
  {
  }

  lemma MulMono(a: real, b: real, c: real)
    requires a <= b && c > 0.0
    ensures a * c <= b * c
  {
  }

  lemma MulMonoStrict(a: real, b: real, c: real)
    requires a < b && c > 0.0
    ensures a * c < b * c
  {
  }

  lemma DivMul(x: real, s: real)
    requires s != 0.0
    ensures (x / s) * s == x
  {
  }

  lemma MulDiv(x: real, s: real)
    requires s != 0.0
    ensures (x * s) / s == x
  {
  }

  lemma AddOneMul(a: real, s: real)
    ensures (a + 1.0) * s == a * s + s
  {
  }

  lemma ScaleOffset(x: real, s: real, c: real)
    requires s != 0.0
    ensures (x / s + c) * s == x + c * s
  {
  }

  /** Rounding `x / s` to within half of one gives a multiple of `s` within half a step of `x`. */
  lemma NearestStepLower(x: real, s: real, k: int)
    requires s > 0.0 && x / s - 0.5 <= k as real
    ensures x - s / 2.0 <= k as real * s
  {
    MulMono(x / s + -0.5, k as real, s);
    ScaleOffset(x, s, -0.5);
  }

  lemma NearestStepUpper(x: real, s: real, k: int)
    requires s > 0.0 && k as real <= x / s + 0.5
    ensures k as real * s <= x + s / 2.0
  {
    MulMono(k as real, x / s + 0.5, s);
    ScaleOffset(x, s, 0.5);
  }
}
