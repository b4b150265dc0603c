/** Integer and real operators of Kotlin and JavaScript, written out over
    Dafny's unbounded numbers. */
module Arith {

  /** Kotlin's integer `/`, which truncates toward zero. */
  function TruncDiv(a: int, b: int): (q: int)
    requires b > 0
    ensures a >= 0 ==> 0 <= a - q * b < b
    ensures a < 0 ==> -b < a - q * b <= 0
  {
    if a >= 0 then a / b else -((-a) / b)
  }

  /** The remainder of Kotlin's `%` and of JavaScript's `%`: it takes the
      sign of the dividend. */
  function TruncRem(a: int, b: int): (r: int)
    requires b > 0
    ensures r == a - TruncDiv(a, b) * b
    ensures a >= 0 ==> 0 <= r < b
    ensures a < 0 ==> -b < r <= 0
  {
    if a >= 0 then a % b else -((-a) % b)
  }

  /** `Math.floor(a / b)` for integers `a`, `b > 0`. Dafny's `/` is already
      the floor for a positive divisor. */
  function FloorDiv(a: int, b: int): (q: int)
    requires b > 0
    ensures q * b <= a < q * b + b
  {
    a / b
  }

  /** Kotlin's `coerceIn(lo, hi)` on integers. */
  function CoerceIn(x: int, lo: int, hi: int): (r: int)
    requires lo <= hi
    ensures lo <= r <= hi
    ensures lo <= x <= hi ==> r == x
    ensures x < lo ==> r == lo
    ensures hi < x ==> r == hi
  {
    if x < lo then lo else if x > hi then hi else x
  }

  /** Kotlin's `coerceIn(lo, hi)` on doubles. */
  function CoerceInReal(x: real, lo: real, hi: real): (r: real)
    requires lo <= hi
    ensures lo <= r <= hi
    ensures lo <= x <= hi ==> r == x
    ensures x < lo ==> r == lo
    ensures hi < x ==> r == hi
  {
    if x < lo then lo else if x > hi then hi else x
  }

  /** JavaScript's two-argument `Math.max` and `Math.min`: the larger or
      smaller argument. */
  function Max(a: int, b: int): (m: int)
    ensures m >= a && m >= b && (m == a || m == b)
  {
    if a >= b then a else b
  }

  function Min(a: int, b: int): (m: int)
    ensures m <= a && m <= b && (m == a || m == b)
  {
    if a <= b then a else b
  }

  function MaxReal(a: real, b: real): (m: real)
    ensures m >= a && m >= b && (m == a || m == b)
  {
    if a >= b then a else b
  }

  function MinReal(a: real, b: real): (m: real)
    ensures m <= a && m <= b && (m == a || m == b)
  {
    if a <= b then a else b
  }

  /** Kotlin's `Double.toLong()`, which drops the fraction toward zero. */
  function TruncToInt(x: real): (n: int)
    ensures x >= 0.0 ==> 0 <= n && n as real <= x < n as real + 1.0
    ensures x < 0.0 ==> n <= 0 && n as real - 1.0 < x <= n as real
  {
    if x >= 0.0 then x.Floor else -((-x).Floor)
  }

  /** Division with a positive divisor has one quotient and one remainder. */
  lemma DivModUnique(a: int, b: int, q: int, r: int)
    requires b > 0 && a == b * q + r && 0 <= r < b
    ensures a / b == q && a % b == r
  {
    var k := q - a / b;
    assert b * k == a % b - r;
  }

  /** The clamp `Math.max(lo, Math.min(hi, x))` agrees with `coerceIn`
      whenever the bounds are ordered. */
  lemma MaxMinIsCoerceIn(x: int, lo: int, hi: int)
    requires lo <= hi
    ensures Max(lo, Min(hi, x)) == CoerceIn(x, lo, hi)
  {
  }

  lemma MaxMinIsCoerceInReal(x: real, lo: real, hi: real)
    requires lo <= hi
    ensures MaxReal(lo, MinReal(hi, x)) == CoerceInReal(x, lo, hi)
  {
  }
}
