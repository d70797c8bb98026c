/**
 Python's numeric built-ins as the application uses them: floor division and
 modulo (`//`, `%`), one-argument `round`, `int()` on a float, `abs`, and
 NumPy's `clip`. Floating-point values are modelled as exact reals.
 */
module PyArith {

  function Abs(x: real): (r: real)
    ensures r >= 0.0
    ensures r == x || r == -x
  {
    if x < 0.0 then -x else x
  }

  /** Python `a // b`: the quotient rounded toward negative infinity. */
  function FloorDiv(a: int, b: int): (q: int)
    requires b != 0
    ensures b > 0 ==> b * q <= a < b * q + b
    ensures b < 0 ==> b * q + b < a <= b * q
  {
    if b > 0 then a / b
    else
      var q := (-a) / (-b);
      assert -a == (-b) * q + (-a) % (-b);
      q
  }

  /** Python `a % b`: the remainder that takes the sign of the divisor. */
  function FloorMod(a: int, b: int): (r: int)
    requires b != 0
    ensures a == b * FloorDiv(a, b) + r
    ensures b > 0 ==> 0 <= r < b
    ensures b < 0 ==> b < r <= 0
  {
    a - b * FloorDiv(a, b)
  }

  /** Floor division agrees with the floor of the exact quotient. */
  lemma FloorDivIsFloorOfQuotient(a: int, b: int)
    requires b != 0
    ensures FloorDiv(a, b) == (a as real / b as real).Floor
  {
    var q := FloorDiv(a, b);
    var x := a as real / b as real;
    QuotientBounds(a, b, q);
    FloorOfBracket(x, q);
  }

  lemma QuotientBounds(a: int, b: int, q: int)
    requires b > 0 ==> b * q <= a < b * q + b
    requires b < 0 ==> b * q + b < a <= b * q
    requires b != 0
    ensures q as real <= a as real / b as real < q as real + 1.0
  {
    if b > 0 {
      PositiveQuotientBounds(a, b, q);
    } else {
      PositiveQuotientBounds(-a, -b, q);
      assert (-a) as real / (-b) as real == a as real / b as real;
    }
  }

  lemma PositiveQuotientBounds(a: int, b: int, q: int)
    requires b > 0 && b * q <= a < b * q + b
    ensures q as real <= a as real / b as real < q as real + 1.0
  {
    var lo, hi := q as real, q as real + 1.0;
    assert (b * q) as real == b as real * lo;
    assert (b * q + b) as real == b as real * hi;
    DivideBracket(a as real, b as real, lo, hi);
  }

  lemma DivideBracket(a: real, c: real, lo: real, hi: real)
    requires c > 0.0
    requires c * lo <= a < c * hi
    ensures lo <= a / c < hi
  {
    var x := a / c;
    assert c * x == a;
    CancelPositive(c, lo, x);
    CancelPositive(c, x, hi);
  }

  lemma FloorOfBracket(x: real, q: int)
    requires q as real <= x < q as real + 1.0
    ensures x.Floor == q
  {
  }

  /** Dividing both sides of a comparison by a positive factor. */
  lemma CancelPositive(c: real, u: real, v: real)
    requires c > 0.0
    ensures c * u <= c * v ==> u <= v
    ensures c * u < c * v ==> u < v
  {
    if u > v {
      assert c * u - c * v == c * (u - v);
    }
  }

  /** Python 3 `round(x)`: the nearest integer, a tie going to the even neighbour. */
  function RoundHalfEven(x: real): (n: int)
    ensures -0.5 <= x - n as real <= 0.5
    ensures x - n as real == 0.5 || x - n as real == -0.5 ==> n % 2 == 0
  {
    var f := x.Floor;
    var frac := x - f as real;
    if frac < 0.5 then f
    else if frac > 0.5 then f + 1
    else if f % 2 == 0 then f
    else f + 1
  }

  /** The two properties above determine the rounded value: no other integer has both. */
  lemma RoundHalfEvenUnique(x: real, n: int)
    requires -0.5 <= x - n as real <= 0.5
    requires x - n as real == 0.5 || x - n as real == -0.5 ==> n % 2 == 0
    ensures n == RoundHalfEven(x)
  {
  }

  /** The rounded value is an integer closest to `x`. */
  lemma RoundHalfEvenIsNearest(x: real, k: int)
    ensures Abs(x - RoundHalfEven(x) as real) <= Abs(x - k as real)
  {
    var n := RoundHalfEven(x);
    if k < n {
      assert x - k as real >= x - n as real + 1.0;
    } else if k > n {
      assert k as real - x >= n as real - x + 1.0;
    }
  }

  /** Rounding never reverses the order of two values. */
  lemma RoundHalfEvenMonotone(x: real, y: real)
    requires x <= y
    ensures RoundHalfEven(x) <= RoundHalfEven(y)
  {
  }

  /** Python `int(x)` on a float: truncation toward zero. */
  function Trunc(x: real): (n: int)
    ensures 0.0 <= x ==> n as real <= x < n as real + 1.0
    ensures x < 0.0 ==> n as real - 1.0 < x <= n as real
  {
    if x >= 0.0 then x.Floor else -((-x).Floor)
  }

  /** NumPy `clip(x, lo, hi)`, computed as `minimum(maximum(x, lo), hi)`. */
  function Clip(x: real, lo: real, hi: real): (r: real)
    ensures lo <= hi ==> lo <= r <= hi
    ensures lo <= x <= hi ==> r == x
    ensures lo <= hi && x < lo ==> r == lo
    ensures x > hi ==> r == hi
  {
    var m := if x > lo then x else lo;
    if m < hi then m else hi
  }
}
