/** JavaScript's `Math.round(n / d)` for an integer numerator and a positive integer
    denominator, computed exactly: `Math.round(x)` is `floor(x + 1/2)`. */
module Rounding {

  /** The integer nearest to `n / d`, halves rounded up. */
  function RoundDiv(n: int, d: int): (r: int)
    requires d > 0
    ensures 2 * r * d <= 2 * n + d < 2 * r * d + 2 * d
  {
    var q := (2 * n + d) / (2 * d);
    var m := (2 * n + d) % (2 * d);
    assert 2 * n + d == q * (2 * d) + m && 0 <= m < 2 * d;
    assert 2 * q * d == q * (2 * d);
    q
  }

  /** The bounds `RoundDiv` ensures pin its value down: it is the only such integer. */
  lemma RoundDivUnique(n: int, d: int, r: int)
    requires d > 0
    requires 2 * r * d <= 2 * n + d < 2 * r * d + 2 * d
    ensures r == RoundDiv(n, d)
  {
    var q := RoundDiv(n, d);
    if r < q {
      GapAtLeast(r, q, d);
      assert false;
    } else if r > q {
      GapAtLeast(q, r, d);
      assert false;
    }
  }

  /** Two distinct integers scaled by `2 * d` lie at least `2 * d` apart. */
  lemma GapAtLeast(lo: int, hi: int, d: int)
    requires lo < hi && d > 0
    ensures 2 * hi * d >= 2 * lo * d + 2 * d
  {
    var k := hi - lo;
    assert 2 * hi * d == 2 * lo * d + 2 * k * d;
    assert k * d == (k - 1) * d + d;
    assert (k - 1) * d >= 0;
  }

  /** An exact quotient is returned unchanged. */
  lemma RoundDivExact(k: int, d: int)
    requires d > 0
    ensures RoundDiv(k * d, d) == k
  {
    RoundDivUnique(k * d, d, k);
  }

  /** Rounding never reverses the order of two numerators. */
  lemma RoundDivMonotone(n1: int, n2: int, d: int)
    requires d > 0 && n1 <= n2
    ensures RoundDiv(n1, d) <= RoundDiv(n2, d)
  {
    var r1, r2 := RoundDiv(n1, d), RoundDiv(n2, d);
    if r1 > r2 {
      GapAtLeast(r2, r1, d);
      assert false;
    }
  }
}
