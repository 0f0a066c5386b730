/** Order facts about products of reals, kept apart from the proofs that use them. */
module Reals {

  function Abs(a: real): real {
    if a < 0.0 then -a else a
  }

  lemma MulNonNegative(a: real, b: real)
    requires a >= 0.0 && b >= 0.0
    ensures a * b >= 0.0
  {
  }

  lemma MulMonotone(x: real, y: real, k: real)
    requires x <= y && k >= 0.0
    ensures x * k <= y * k
  {
    MulNonNegative(y - x, k);
    assert (y - x) * k == y * k - x * k;
  }

  lemma MulAntitone(x: real, y: real, k: real)
    requires x <= y && k <= 0.0
    ensures x * k >= y * k
  {
    MulMonotone(x, y, -k);
    assert x * -k == -(x * k) && y * -k == -(y * k);
  }

  lemma MulPositive(a: real, b: real)
    requires a > 0.0 && b > 0.0
    ensures a * b > 0.0
  {
  }

  /** Of two non-negative numbers the one with the larger square is larger. */
  lemma RootMonotone(a: real, r: real)
    requires r >= 0.0 && a * a <= r * r
    ensures a <= r
  {
    assert (a - r) * (a + r) == a * a - r * r;
    if a > r {
      MulPositive(a - r, a + r);
    }
  }

  /** The share a part has of a span. */
  lemma ShareOfSpan(share: real, span: real, part: real)
    requires span > 0.0 && share * span == part && 0.0 <= part <= span
    ensures 0.0 <= share <= 1.0
  {
    assert -share * span == -part;
    assert (share - 1.0) * span == part - span;
    if share < 0.0 {
      MulPositive(-share, span);
    }
    if share > 1.0 {
      MulPositive(share - 1.0, span);
    }
  }
}
