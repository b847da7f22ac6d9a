/**
 * Percentages as the pages compute them, in exact arithmetic: `(part / whole) * 100`,
 * and `Math.round` of it (round half up).
 */
module Percent {

  /** `(part / whole) * 100`, the value given to the progress bars. */
  function Percent(part: int, whole: int): (r: real)
    requires whole > 0
    ensures r * (whole as real) == 100.0 * (part as real)
    ensures 0 <= part <= whole ==> 0.0 <= r <= 100.0
    ensures r == 100.0 <==> part == whole
    ensures r == 0.0 <==> part == 0
  {
    var r := (part as real) / (whole as real) * 100.0;
    PercentBounds(part, whole, r);
    r
  }

  lemma PercentBounds(part: int, whole: int, r: real)
    requires whole > 0
    requires r * (whole as real) == 100.0 * (part as real)
    ensures 0 <= part <= whole ==> 0.0 <= r <= 100.0
    ensures r == 100.0 <==> part == whole
    ensures r == 0.0 <==> part == 0
  {
    var w := whole as real;
    ScaleMonotone(r, 0.0, w);
    ScaleMonotone(0.0, r, w);
    ScaleMonotone(r, 100.0, w);
    ScaleMonotone(100.0, r, w);
  }

  /** Multiplying by a positive number keeps a strict order. */
  lemma ScaleMonotone(a: real, b: real, c: real)
    ensures 0.0 < c && a < b ==> a * c < b * c
  {
    if 0.0 < c && a < b {
      assert (b - a) * c > 0.0;
    }
  }

  /**
   * `Math.round((part / whole) * 100)`: the whole number nearest to the exact
   * percentage, halves rounded up.
   */
  function RoundedPercent(part: nat, whole: nat): (r: int)
    requires whole > 0
    ensures 2 * whole * r <= 200 * part + whole < 2 * whole * (r + 1)
    ensures part <= whole ==> 0 <= r <= 100
    ensures part == whole ==> r == 100
    ensures part == 0 ==> r == 0
  {
    var r := Quotient(200 * part + whole, 2 * whole);
    RoundedBounds(part, whole, r);
    r
  }

  /** Integer division rounding down: the multiple of `d` just below `n`. */
  function Quotient(n: int, d: int): (q: int)
    requires d > 0
    ensures d * q <= n < d * q + d
  {
    n / d
  }

  lemma RoundedBounds(part: nat, whole: nat, r: int)
    requires whole > 0
    requires 2 * whole * r <= 200 * part + whole < 2 * whole * r + 2 * whole
    ensures 2 * whole * r <= 200 * part + whole < 2 * whole * (r + 1)
    ensures part <= whole ==> 0 <= r <= 100
    ensures part == whole ==> r == 100
    ensures part == 0 ==> r == 0
  {
    var d := 2 * whole;
    var n := 200 * part + whole;
    assert d * r <= n < d * r + d;
    if part <= whole {
      QuotientBelow(d, n, r, 101);
    }
    if part == whole {
      QuotientUnique(d, n, r, 100);
    }
    if part == 0 {
      QuotientUnique(d, n, r, 0);
    }
  }

  /** A quotient of a non-negative number is non-negative, and below `k` when the number is below `d * k`. */
  lemma QuotientBelow(d: int, n: int, r: int, k: int)
    requires d > 0
    requires d * r <= n < d * r + d
    ensures 0 <= n ==> 0 <= r
    ensures n < d * k ==> r < k
  {
    if n < d * k && r >= k {
      MulNonNegative(d, r - k);
      assert false;
    }
  }

  /** Only one multiple of `d` brackets `n` from below within `d`. */
  lemma QuotientUnique(d: int, n: int, r: int, q: int)
    requires d > 0
    requires d * r <= n < d * r + d
    requires d * q <= n < d * q + d
    ensures r == q
  {
    if r < q {
      MulNonNegative(d, q - r - 1);
      assert false;
    } else if q < r {
      MulNonNegative(d, r - q - 1);
      assert false;
    }
  }

  lemma MulNonNegative(a: int, b: int)
    ensures 0 <= a && 0 <= b ==> a * b >= 0
  {
  }

  /** A quiz of three questions with two right answers scores 67. */
  lemma TwoOfThreeScores67()
    ensures RoundedPercent(2, 3) == 67
  {
  }
}
