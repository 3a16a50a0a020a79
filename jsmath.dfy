/** Integer readings of the JavaScript `Math` calls the core uses. */
module JsMath {

  /** `Math.round(a / b)` for a positive divisor: the nearest integer to
      a/b, halves rounded up (towards +infinity, as `Math.round` does). */
  function RoundDiv(a: int, b: int): (r: int)
    requires b > 0
    ensures b * (2 * r - 1) <= 2 * a < b * (2 * r + 1)
  {
    var q := (2 * a + b) / (2 * b);
    assert 2 * a + b == 2 * b * q + (2 * a + b) % (2 * b);
    q
  }

  /** Cancelling a positive factor from a strict inequality. */
  lemma MulCancel(b: int, x: int, y: int)
    requires b > 0 && b * x < b * y
    ensures x < y
  {
    if x >= y {
      MulMonotone(b, y, x);
    }
  }

  lemma MulMonotone(b: int, x: int, y: int)
    requires b > 0 && x <= y
    ensures b * x <= b * y
  {
  }

  /** Rounding is monotone in the numerator. */
  lemma RoundDivMonotone(a1: int, a2: int, b: int)
    requires b > 0 && a1 <= a2
    ensures RoundDiv(a1, b) <= RoundDiv(a2, b)
  {
    var r1, r2 := RoundDiv(a1, b), RoundDiv(a2, b);
    MulCancel(b, 2 * r1 - 1, 2 * r2 + 1);
  }

  /** A quotient a/b with 0 <= a <= k*b rounds into [0, k]. */
  lemma RoundDivBounds(a: int, b: int, k: int)
    requires b > 0 && 0 <= a <= k * b
    ensures 0 <= RoundDiv(a, b) <= k
  {
    var r := RoundDiv(a, b);
    assert b * 0 < b * (2 * r + 1);
    MulCancel(b, 0, 2 * r + 1);
    assert b * (2 * k + 1) == 2 * (k * b) + b;
    MulCancel(b, 2 * r - 1, 2 * k + 1);
  }

  /** A whole-number quotient rounds to itself. */
  lemma RoundDivExact(q: int, b: int)
    requires b > 0
    ensures RoundDiv(q * b, b) == q
  {
    var r := RoundDiv(q * b, b);
    assert b * (2 * q) == 2 * (q * b);
    assert b * (2 * q + 1) == 2 * (q * b) + b;
    MulCancel(b, 2 * r - 1, 2 * q + 1);
    MulCancel(b, 2 * q, 2 * r + 1);
  }

  function Min(a: int, b: int): int { if a <= b then a else b }

  function Max(a: int, b: int): int { if a >= b then a else b }
}
