/** Hour-of-day arithmetic on the 24-hour UTC clock.

    Hours are exact reals. `Mod24` is the remainder of Python's `%` operator for a
    positive modulus (the result takes the sign of the divisor, so it is never
    negative), and `CircularDistance` is how far apart two hours are on the clock,
    going whichever way round is shorter.
 */
module Hours {

  /** Python's `x % 24`: floor division, so the remainder lies in [0, 24). */
  function Mod24(x: real): (r: real)
    ensures 0.0 <= r < 24.0
    ensures 0.0 <= x < 24.0 ==> r == x
  {
    x - 24.0 * ((x / 24.0).Floor as real)
  }

  /** For arguments within two days either side of zero, `Mod24` is at most two
      shifts by a whole day: the case split an implementation without floor
      division would write. */
  lemma Mod24Shift(x: real)
    requires -48.0 <= x < 48.0
    ensures Mod24(x) == if x < -24.0 then x + 48.0
                        else if x < 0.0 then x + 24.0
                        else if x < 24.0 then x
                        else x - 24.0
  {
  }

  /** Shifting by a whole number of days does not change the hour. */
  lemma Mod24Periodic(x: real, k: int)
    ensures Mod24(x + 24.0 * (k as real)) == Mod24(x)
  {
    var y := x + 24.0 * (k as real);
    assert y / 24.0 == x / 24.0 + (k as real);
    assert (y / 24.0).Floor == (x / 24.0).Floor + k;
  }

  /** The remainder is zero exactly when `x` is a whole number of days. */
  lemma Mod24Zero(x: real)
    ensures Mod24(x) == 0.0 <==> (x / 24.0).Floor as real == x / 24.0
  {
  }

  /** The remainders of `x` and `-x` add up to a whole day, unless both are zero. */
  lemma Mod24Negate(x: real)
    ensures Mod24(-x) == if Mod24(x) == 0.0 then 0.0 else 24.0 - Mod24(x)
  {
    var f := (x / 24.0).Floor;
    if (f as real) == x / 24.0 {
      assert (-x / 24.0).Floor == -f;
    } else {
      assert (-x / 24.0).Floor == -f - 1;
    }
  }

  /** The shorter way round the clock from `b` to `a`:
      `min((a - b) % 24, (b - a) % 24)`. */
  function CircularDistance(a: real, b: real): (d: real)
    ensures 0.0 <= d <= 12.0
    ensures d == 0.0 <==> Mod24(a - b) == 0.0
  {
    Mod24Negate(a - b);
    assert b - a == -(a - b);
    Min(Mod24(a - b), Mod24(b - a))
  }

  function Min(x: real, y: real): real {
    if x <= y then x else y
  }

  /** Measuring from either end gives the same distance. */
  lemma CircularDistanceSymmetric(a: real, b: real)
    ensures CircularDistance(a, b) == CircularDistance(b, a)
  {
  }

  /** Two hours of the same day are at distance zero only when they are equal. */
  lemma CircularDistanceZero(a: real, b: real)
    requires 0.0 <= a < 24.0 && 0.0 <= b < 24.0
    ensures CircularDistance(a, b) == 0.0 <==> a == b
  {
    Mod24Shift(a - b);
  }
}
