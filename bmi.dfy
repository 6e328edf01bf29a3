/**
 * The body-mass index of a record: weight divided by the square of height,
 * rounded to two decimal places.  Arithmetic is exact (over `real`); rounding
 * follows the language's `round(x, 2)` rule of rounding to the nearest
 * hundredth and, on an exact tie, to the even hundredth.
 */
module BodyMassIndex {

  /**
   * The integer nearest to `z`, ties going to the even neighbour.  The two
   * ensures clauses determine the result uniquely (see `NearestEvenUnique`).
   */
  function RoundHalfEven(z: real): (n: int)
    ensures z - 0.5 <= n as real <= z + 0.5
    ensures (n as real == z - 0.5 || n as real == z + 0.5) ==> n % 2 == 0
  {
    var f := z.Floor;
    var frac := z - f as real;
    if frac < 0.5 then f
    else if frac > 0.5 then f + 1
    else if f % 2 == 0 then f
    else f + 1
  }

  /** Any integer within one half of `z` that is even on a tie is the rounded value. */
  lemma NearestEvenUnique(z: real, n: int)
    requires z - 0.5 <= n as real <= z + 0.5
    requires (n as real == z - 0.5 || n as real == z + 0.5) ==> n % 2 == 0
    ensures n == RoundHalfEven(z)
  {
  }

  /** Rounding to the nearest integer never reverses the order of its arguments. */
  lemma RoundHalfEvenMonotone(x: real, y: real)
    requires x <= y
    ensures RoundHalfEven(x) <= RoundHalfEven(y)
  {
  }

  /**
   * `x` rounded to two decimal places: a whole number of hundredths within
   * half a hundredth of `x`, the even hundredth when `x` lies exactly halfway.
   */
  function Round2(x: real): (r: real)
    ensures x - 0.005 <= r <= x + 0.005
    ensures (r * 100.0).Floor as real == r * 100.0
    ensures (r == x - 0.005 || r == x + 0.005) ==> (r * 100.0).Floor % 2 == 0
    ensures x >= 0.0 ==> r >= 0.0
  {
    RoundHalfEven(x * 100.0) as real / 100.0
  }

  /** Rounding to two decimal places preserves order. */
  lemma Round2Monotone(x: real, y: real)
    requires x <= y
    ensures Round2(x) <= Round2(y)
  {
    RoundHalfEvenMonotone(x * 100.0, y * 100.0);
  }

  /** A value that is already a whole number of hundredths is left as it is. */
  lemma Round2Exact(k: int)
    ensures Round2(k as real / 100.0) == k as real / 100.0
  {
    var x := k as real / 100.0;
    assert x * 100.0 == k as real;
    NearestEvenUnique(x * 100.0, k);
  }

  /**
   * The index of a record with height `height` and weight `weight`.  The
   * division fails when the height is zero, so that case is excluded.
   */
  function Bmi(height: real, weight: real): (bmi: real)
    requires height != 0.0
    ensures weight / (height * height) - 0.005 <= bmi <= weight / (height * height) + 0.005
    ensures height > 0.0 && weight > 0.0 ==> bmi >= 0.0
  {
    if height > 0.0 && weight > 0.0 then QuotientPositive(height, weight); Round2(weight / (height * height))
    else Round2(weight / (height * height))
  }

  /** A positive weight over a squared positive height is positive. */
  lemma QuotientPositive(height: real, weight: real)
    requires height > 0.0 && weight > 0.0
    ensures weight / (height * height) > 0.0
  {
    var q := weight / (height * height);
    // q <= 0 would make q * height² <= 0 < weight.
    assert q * (height * height) == weight;
  }

  /** Dividing by a squared non-zero height preserves order. */
  lemma QuotientMonotone(height: real, w1: real, w2: real)
    requires height != 0.0 && w1 <= w2
    ensures w1 / (height * height) <= w2 / (height * height)
  {
  }

  /** For a fixed height, a heavier record never has a smaller index. */
  lemma BmiMonotoneInWeight(height: real, w1: real, w2: real)
    requires height != 0.0 && w1 <= w2
    ensures Bmi(height, w1) <= Bmi(height, w2)
  {
    QuotientMonotone(height, w1, w2);
    Round2Monotone(w1 / (height * height), w2 / (height * height));
  }
}
