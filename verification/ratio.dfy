/** Threshold tests on a quotient, `n / d > bound`, evaluated the way
    JavaScript evaluates them: dividing a positive number by zero gives
    `Infinity`, a negative one `-Infinity`, and `0 / 0` gives `NaN`, which is
    greater than nothing. The bound is always a finite constant. */
module Ratio {

  predicate QuotientExceeds(n: real, d: real, bound: real)
  {
    if d == 0.0 then n > 0.0
    else if d > 0.0 then n > bound * d
    else n < bound * d
  }

  /** For a non-zero divisor the test is exact real division. */
  lemma {:induction false} QuotientExceedsIsDivision(n: real, d: real, bound: real)
    requires d != 0.0
    ensures QuotientExceeds(n, d, bound) <==> n / d > bound
  {
    var q := n / d;
    assert n == q * d;
    assert n - bound * d == (q - bound) * d;
    if d > 0.0 {
      assert q > bound ==> (q - bound) * d > 0.0;
      assert q <= bound ==> (q - bound) * d <= 0.0;
    } else {
      assert q > bound ==> (q - bound) * d < 0.0;
      assert q <= bound ==> (q - bound) * d >= 0.0;
    }
  }
}
