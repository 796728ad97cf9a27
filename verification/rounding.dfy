/** Two-decimal rounding as `Number.prototype.toFixed(2)` of ECMA-262 performs
    it, read back as a number: the magnitude is rounded to the nearest
    multiple of 1/100, a tie going to the larger magnitude, and the sign is
    put back. The value is an exact real, not a binary double. */
module Rounding {

  /** The number of hundredths that `toFixed(2)` chooses for a non-negative value. */
  function Hundredths(y: real): (n: int)
    requires y >= 0.0
    ensures n >= 0
    ensures n as real - 0.5 <= y * 100.0 < n as real + 0.5
  {
    (y * 100.0 + 0.5).Floor
  }

  /** True when `r` is a whole number of hundredths. */
  predicate IsCents(r: real)
  {
    (r * 100.0).Floor as real == r * 100.0
  }

  /** `parseFloat(x.toFixed(2))`: the nearest multiple of 1/100, ties away from zero. */
  function Round2(x: real): (r: real)
    ensures IsCents(r)
    ensures -0.005 <= r - x <= 0.005
    ensures x >= 0.0 ==> r * 100.0 - 0.5 <= x * 100.0 < r * 100.0 + 0.5
    ensures x < 0.0 ==> r * 100.0 - 0.5 < x * 100.0 <= r * 100.0 + 0.5
    ensures x >= 0.0 ==> r >= 0.0
    ensures x <= 0.0 ==> r <= 0.0
  {
    if x < 0.0 then
      var n := Hundredths(-x);
      CentsOfInt(-n);
      (-n) as real / 100.0
    else
      var n := Hundredths(x);
      CentsOfInt(n);
      n as real / 100.0
  }

  lemma CentsOfInt(n: int)
    ensures IsCents(n as real / 100.0)
  {
  }

  /** A value that already is a whole number of hundredths is left as it is. */
  lemma Round2OfCents(k: int)
    ensures Round2(k as real / 100.0) == k as real / 100.0
  {
    var x := k as real / 100.0;
    if k < 0 {
      assert Hundredths(-x) == -k by {
        assert -x * 100.0 + 0.5 == (-k) as real + 0.5;
      }
    } else {
      assert Hundredths(x) == k by {
        assert x * 100.0 + 0.5 == k as real + 0.5;
      }
    }
  }

  /** Rounding twice gives what rounding once gives: the stored value and the
      displayed value agree however often the value is rounded. */
  lemma Round2Idempotent(x: real)
    ensures Round2(Round2(x)) == Round2(x)
  {
    var r := Round2(x);
    var k := (r * 100.0).Floor;
    assert r == k as real / 100.0;
    Round2OfCents(k);
  }

  /** Rounding is symmetric about zero: a tie goes away from zero on both sides. */
  lemma Round2Odd(x: real)
    ensures Round2(-x) == -Round2(x)
  {
  }
}
