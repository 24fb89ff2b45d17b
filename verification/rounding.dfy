/** `Math.round(num / den)` on integers: the nearest integer to the quotient, halves
    rounded towards positive infinity (as JavaScript rounds -2.5 to -2). */
module Rounding {

  /** `v` is the value `Math.round(num / den)` takes for a positive `den`: the unique
      integer with v - 1/2 <= num/den < v + 1/2. */
  ghost predicate IsRounding(v: int, num: int, den: int)
  {
    den > 0 && 2 * den * v <= 2 * num + den < 2 * den * (v + 1)
  }

  function RoundDiv(num: int, den: int): (v: int)
    requires den > 0
    ensures IsRounding(v, num, den)
  {
    var q := (2 * num + den) / (2 * den);
    assert 2 * num + den == 2 * den * q + (2 * num + den) % (2 * den);
    q
  }

  /** A rounding is determined by the quotient it rounds. */
  lemma RoundingUnique(v: int, w: int, num: int, den: int)
    requires IsRounding(v, num, den) && IsRounding(w, num, den)
    ensures v == w
  {
    assert 2 * den * v < 2 * den * (w + 1);
    assert 2 * den * w < 2 * den * (v + 1);
  }

  /** Rounding a quotient that lies in [lo, hi] gives a value in [lo, hi]. */
  lemma RoundingBounds(v: int, num: int, den: int, lo: int, hi: int)
    requires IsRounding(v, num, den)
    requires lo * den <= num <= hi * den
    ensures lo <= v <= hi
  {
    assert 2 * den * v < 2 * den * (hi + 1) by {
      assert 2 * num + den <= 2 * hi * den + den;
    }
    assert 2 * den * lo < 2 * den * (v + 1) by {
      assert 2 * lo * den + den <= 2 * num + den;
    }
  }
}
