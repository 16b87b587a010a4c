/**
 * Exact-arithmetic counterparts of the JavaScript number operations the
 * scorers use. Numbers are unbounded integers and exact reals here; the
 * floating-point rounding of JavaScript is not modelled.
 */
module JsMath {

  /** `Math.abs` on integers. */
  function Abs(x: int): (r: nat)
    ensures r == x || r == -x
  {
    if x < 0 then -x else x
  }

  /**
   * `Math.round(n / d)` for a positive denominator: JavaScript rounds half
   * up, i.e. to floor(n/d + 1/2). The result is the unique integer whose
   * half-open window [r - 1/2, r + 1/2) contains n/d.
   */
  function RoundDiv(n: int, d: int): (r: int)
    requires d > 0
    ensures d * (2 * r - 1) <= 2 * n < d * (2 * r + 1)
  {
    var q := (2 * n + d) / (2 * d);
    assert 2 * n + d == 2 * d * q + (2 * n + d) % (2 * d);
    q
  }

  /** The window of RoundDiv pins its result down: nothing else satisfies it. */
  lemma RoundDivUnique(n: int, d: int, r: int)
    requires d > 0
    requires d * (2 * r - 1) <= 2 * n < d * (2 * r + 1)
    ensures RoundDiv(n, d) == r
  {
    var q := RoundDiv(n, d);
    // Both windows contain 2n, so each lower end lies below the other upper end.
    MulLessCancel(d, 2 * q - 1, 2 * r + 1);
    MulLessCancel(d, 2 * r - 1, 2 * q + 1);
  }

  /** A positive factor can be cancelled from a strict inequality. */
  lemma MulLessCancel(d: int, x: int, y: int)
    requires d > 0 && d * x < d * y
    ensures x < y
  {
    assert d * (y - x) == d * y - d * x;
  }

  /** Multiplying by a positive factor keeps order. */
  lemma MulMonotone(d: int, x: int, y: int)
    requires d > 0 && x <= y
    ensures d * x <= d * y
  {
    assert d * y - d * x == d * (y - x);
  }
}
