/**
 The match test of the solver, `round(final, 2) == round(target_grade, 2)`,
 on exact reals: a grade is rounded to a whole number of hundredths, halves
 going up.
 */
module Rounding {

  /** `round(x, 2)` as a whole number of hundredths: the integer nearest to
      `100 * x`, a half rounding up. */
  function Hundredths(x: real): (k: int)
    ensures (k as real) - 0.5 <= x * 100.0 < (k as real) + 0.5
  {
    (x * 100.0 + 0.5).Floor
  }

  /** Two grades agree to two decimal places. */
  predicate Matches(x: real, target: real) {
    Hundredths(x) == Hundredths(target)
  }

  /** Rounding a grade that already has two decimals gives it back. */
  lemma HundredthsExact(k: int)
    ensures Hundredths(k as real / 100.0) == k
  {
    var x := k as real / 100.0;
    assert x * 100.0 == k as real;
    var h := Hundredths(x);
    assert (h as real) - 0.5 <= k as real < (h as real) + 0.5;
  }

  /** A match is always closer than one hundredth to the target. */
  lemma MatchesWithinHundredth(x: real, target: real)
    requires Matches(x, target)
    ensures -0.01 < x - target < 0.01
  {
    var k := Hundredths(x);
    assert (k as real) - 0.5 <= x * 100.0 < (k as real) + 0.5;
    assert (k as real) - 0.5 <= target * 100.0 < (k as real) + 0.5;
    assert -1.0 < x * 100.0 - target * 100.0 < 1.0;
  }

  /** A grade inside [lo, hi] never matches a target at least one hundredth
      outside that range. */
  lemma NoMatchOutside(x: real, lo: real, hi: real, target: real)
    requires lo <= x <= hi
    requires target >= hi + 0.01 || target <= lo - 0.01
    ensures !Matches(x, target)
  {
    var k, t := Hundredths(x), Hundredths(target);
    if target >= hi + 0.01 {
      assert x * 100.0 + 1.0 <= target * 100.0;
    } else {
      assert target * 100.0 + 1.0 <= x * 100.0;
    }
  }
}
