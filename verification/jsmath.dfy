/** The few `Math` functions and operators of JavaScript that the core uses,
    on exact numbers (`real` for JavaScript numbers, `int` where the source
    only ever holds integers). */
module JsMath {

  /** `Math.round`: the nearest integer, halves rounded towards +infinity. */
  function Round(x: real): (n: int)
    ensures x - 0.5 < n as real <= x + 0.5
  {
    (x + 0.5).Floor
  }

  function Max(a: real, b: real): (m: real)
    ensures m >= a && m >= b && (m == a || m == b)
  {
    if a >= b then a else b
  }

  function Min(a: real, b: real): (m: real)
    ensures m <= a && m <= b && (m == a || m == b)
  {
    if a <= b then a else b
  }

  function Abs(x: real): (a: real)
    ensures a >= 0.0 && (a == x || a == -x)
  {
    if x >= 0.0 then x else -x
  }

  /** The `%` operator on integers, which truncates towards zero: the result
      takes the sign of the dividend (unlike Dafny's `%`, never negative). */
  function JsRem(a: int, b: int): (r: int)
    requires b > 0
    ensures a >= 0 ==> 0 <= r < b && r == a % b
    ensures a < 0 ==> -b < r <= 0
    ensures a < 0 ==> r == if a % b == 0 then 0 else a % b - b
  {
    if a >= 0 then a % b
    else
      NegRem(a, b);
      -((-a) % b)
  }

  /** Euclidean division is unique: a remainder in [0, b) is `a % b`. */
  lemma ModUnique(a: int, b: int, q: int, m: int)
    requires b > 0 && 0 <= m < b && a == q * b + m
    ensures a % b == m
  {
    var q0 := a / b;
    var m0 := a % b;
    assert a == q0 * b + m0 && 0 <= m0 < b;
    var d := q - q0;
    assert d * b == m0 - m by {
      assert q * b - q0 * b == (q - q0) * b;
    }
    if d >= 1 {
      MulAtLeast(d, b);
    } else if d <= -1 {
      MulAtLeast(-d, b);
    }
  }

  lemma MulAtLeast(d: int, b: int)
    requires d >= 1 && b > 0
    ensures d * b >= b
  {
    assert d * b == (d - 1) * b + b;
    assert (d - 1) * b >= 0;
  }

  /** A negative dividend truncated towards zero: the Euclidean remainder less `b`,
      unless it is 0. */
  lemma NegRem(a: int, b: int)
    requires b > 0 && a < 0
    ensures -((-a) % b) == if a % b == 0 then 0 else a % b - b
  {
    var q, m := (-a) / b, (-a) % b;
    assert -a == q * b + m;
    if m == 0 {
      assert a == (-q) * b + 0;
      ModUnique(a, b, -q, 0);
    } else {
      assert a == (-q - 1) * b + (b - m);
      ModUnique(a, b, -q - 1, b - m);
    }
  }

}
