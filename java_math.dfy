/**
 * Java's integer division and `(int)` cast, which truncate toward zero,
 * written out on Dafny's unbounded integers and exact reals.
 */
module JavaMath {

  const INT_MIN: int := -0x8000_0000
  const INT_MAX: int := 0x7FFF_FFFF

  predicate InInt32(n: int) { INT_MIN <= n <= INT_MAX }

  /** Java's `a / b` on int: the quotient rounded toward zero. */
  function TruncDiv(a: int, b: int): (q: int)
    requires b != 0
    ensures a >= 0 && b > 0 ==> q == a / b
    ensures (a >= 0) == (b > 0) ==> q >= 0
  {
    if b > 0 then (if a >= 0 then a / b else -((-a) / b))
    else (if a >= 0 then -(a / (-b)) else (-a) / (-b))
  }

  function Abs(n: int): nat { if n < 0 then -n else n }

  /** Java's `(int) x` on a double: the real rounded toward zero. */
  function TruncReal(x: real): (n: int)
    ensures x >= 0.0 ==> n as real <= x < n as real + 1.0
    ensures x < 0.0 ==> n as real - 1.0 < x <= n as real
  {
    if x >= 0.0 then x.Floor else -((-x).Floor)
  }

  function MinReal(a: real, b: real): (m: real)
    ensures m <= a && m <= b && (m == a || m == b)
  {
    if a <= b then a else b
  }

  function MinInt(a: int, b: int): (m: int)
    ensures m <= a && m <= b && (m == a || m == b)
  {
    if a <= b then a else b
  }

  function MaxInt(a: int, b: int): (m: int)
    ensures m >= a && m >= b && (m == a || m == b)
  {
    if a >= b then a else b
  }

  /** Truncation is monotone. */
  lemma TruncRealMonotone(x: real, y: real)
    requires x <= y
    ensures TruncReal(x) <= TruncReal(y)
  {
  }

  lemma TruncOfInt(n: int)
    ensures TruncReal(n as real) == n
  {
  }
}
