/** Integer division facts with a variable divisor, kept apart from the proofs that use them. */
module Arithmetic {

  function Magnitude(v: int): nat {
    if v < 0 then -v else v
  }

  /** BigInt division: the remainder is dropped toward zero. */
  function TruncatedQuotient(a: int, b: int): int
    requires b != 0
  {
    var q := Magnitude(a) / Magnitude(b);
    if (a < 0) == (b < 0) then q else -q
  }

  /** The quotient of the magnitudes, negative when exactly one of the two numbers is. */
  lemma TruncatedIsOdd(a: int, b: int)
    requires b != 0
    ensures TruncatedQuotient(-a, b) == -TruncatedQuotient(a, b)
    ensures TruncatedQuotient(a, -b) == -TruncatedQuotient(a, b)
  {
    var none, unit := Magnitude(0), Magnitude(b);
    assert none == 0 && none / unit == 0;
  }

  lemma SmallMultiple(k: int, unit: int)
    requires unit > 0
    requires -unit < k * unit < unit
    ensures k == 0
  {
    assert k >= 1 ==> (k - 1) * unit >= 0;
    assert k <= -1 ==> (-k - 1) * unit >= 0;
  }

  lemma QuotientRemainder(whole: int, rest: int, unit: int)
    requires 0 <= rest < unit
    ensures (whole * unit + rest) / unit == whole
    ensures (whole * unit + rest) % unit == rest
  {
    var n := whole * unit + rest;
    var q, r := n / unit, n % unit;
    assert n == q * unit + r;
    assert (whole - q) * unit == r - rest;
    SmallMultiple(whole - q, unit);
  }

  /** For a non-negative numerator the truncated quotient is the floor. */
  lemma TruncatedIsFloor(a: int, b: int)
    requires a >= 0 && b > 0
    ensures 0 <= TruncatedQuotient(a, b)
    ensures TruncatedQuotient(a, b) * b <= a < TruncatedQuotient(a, b) * b + b
  {
    var q, r := a / b, a % b;
    assert a == q * b + r;
    assert q < 0 ==> (-q - 1) * b >= 0;
  }

  lemma CancelFactor(m: int, n: int, p: int)
    requires p > 0
    ensures m * p == n * p <==> m == n
    ensures m * p <= n * p <==> m <= n
    ensures m * p < n * p <==> m < n
  {
    assert m < n ==> (n - m) * p > 0;
    assert n < m ==> (m - n) * p > 0;
  }

  lemma Regroup(x: int, y: int, z: int, w: int, k: int)
    requires x * y == z * w
    ensures x * (y * k) == (z * k) * w
  {
    assert x * (y * k) == (x * y) * k;
    assert (z * w) * k == (z * k) * w;
  }

  /** u/unit == a/p and v/unit == b/q compare as the fractions do. */
  lemma CrossCompare(u: int, v: int, a: int, b: int, p: int, q: int, unit: int)
    requires p > 0 && q > 0 && unit > 0
    requires u * p == a * unit
    requires v * q == b * unit
    ensures u == v <==> a * q == b * p
    ensures u < v <==> a * q < b * p
  {
    Regroup(u, p, a, unit, q);
    Regroup(v, q, b, unit, p);
    assert p * q == q * p > 0;
    CancelFactor(u, v, p * q);
    CancelFactor(a * q, b * p, unit);
  }

  /** Fractions over the same unit add by cross-multiplication. */
  lemma AddFractions(u: int, v: int, n: int, m: int, p: int, q: int, unit: int)
    requires u * p == n * unit
    requires v * q == m * unit
    ensures (u + v) * (p * q) == (n * q + m * p) * unit
  {
    Regroup(u, p, n, unit, q);
    Regroup(v, q, m, unit, p);
    var pq, left, right := p * q, n * q, m * p;
    assert u * pq == left * unit;
    assert v * pq == right * unit;
  }
}
