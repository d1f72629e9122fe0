/** Math.round applied to a quotient of integers, as the statistics use it. */
module Rounding {

  /** Math.round(n / d) for d > 0: the nearest integer, a half rounded up. */
  function RoundDiv(n: int, d: int): (r: int)
    requires d > 0
    ensures 2 * d * r <= 2 * n + d < 2 * d * (r + 1)
    ensures n >= 0 ==> r >= 0
  {
    (2 * n + d) / (2 * d)
  }

  /** The rounded quotient is at most m exactly when 2n + d < 2d(m + 1). */
  lemma RoundDivAtMost(n: int, d: int, m: int)
    requires d > 0
    ensures RoundDiv(n, d) <= m <==> 2 * n + d < 2 * d * (m + 1)
  {
    var r := RoundDiv(n, d);
    if r <= m {
      assert 2 * d * (r + 1) <= 2 * d * (m + 1) by { MulMonotone(2 * d, r + 1, m + 1); }
    } else {
      assert 2 * d * (m + 1) <= 2 * d * r by { MulMonotone(2 * d, m + 1, r); }
    }
  }

  lemma MulMonotone(a: int, b: int, c: int)
    requires a >= 0 && b <= c
    ensures a * b <= a * c
  {
  }

  /**
   * A rounded mean lies between bounds of the values: when lo * d <= n <= hi * d,
   * the rounded quotient of n by d lies in [lo, hi].
   */
  lemma RoundDivBetween(n: int, d: int, lo: int, hi: int)
    requires d > 0
    requires lo * d <= n <= hi * d
    ensures lo <= RoundDiv(n, d) <= hi
  {
    var r := RoundDiv(n, d);
    if r < lo {
      assert 2 * d * (r + 1) <= 2 * d * lo by { MulMonotone(2 * d, r + 1, lo); }
    }
    if r > hi {
      assert 2 * d * (hi + 1) <= 2 * d * r by { MulMonotone(2 * d, hi + 1, r); }
    }
  }
}
