/** Splitting a fare into commission and net (commission.util.ts), in whole paisa. */
module Commission {

  /** Amounts are paisa; the columns are Decimal(10,2). */
  type Money = int

  datatype RateValue = Rate(num: nat, den: nat)

  /** A ratio in 0..1. */
  type Rate = r: RateValue | r.num <= r.den && r.den > 0 witness Rate(0, 1)

  const COMMISSION_RATE: Rate := Rate(15, 100)

  /** Math.round of n/d: the nearest integer, halves towards positive infinity. */
  function RoundHalfUp(n: int, d: nat): (r: int)
    requires d > 0
  {
    (2 * n + d) / (2 * d)
  }

  datatype Split = Split(gross: Money, commission: Money, net: Money)

  function SplitFare(gross: Money, rate: Rate): (r: Split) {
    var commission := RoundHalfUp(gross * rate.num, rate.den);
    Split(gross, commission, RoundHalfUp(gross - commission, 1))
  }

  lemma RoundBounds(n: int, d: nat)
    requires d > 0
    ensures var q := RoundHalfUp(n, d);
            2 * n - d < 2 * d * q <= 2 * n + d
  {
    var q := RoundHalfUp(n, d);
    assert (2 * n + d) == q * (2 * d) + (2 * n + d) % (2 * d);
  }

  lemma MulLe(x: nat, a: int, b: int)
    requires a <= b
    ensures x * a <= x * b
  {
  }

  /** A share between nothing and the whole rounds to something between nothing and the whole. */
  lemma ShareBounds(n: int, whole: nat, d: nat)
    requires d > 0 && 0 <= n <= d * whole
    ensures 0 <= RoundHalfUp(n, d) <= whole
  {
    var q := RoundHalfUp(n, d);
    RoundBounds(n, d);
    if q > whole { MulLe(d, whole + 1, q); }
    if q < 0 { MulLe(d, q, -1); }
  }

  lemma WholeIsExact(n: int)
    ensures RoundHalfUp(n, 1) == n
  {
  }

  /**
   Nothing is lost to rounding, for every amount and every rate: commission and net make the gross again,
   the commission is the exact share to within half a paisa, and neither part of a non-negative fare is
   negative.
   */
  lemma SplitConserves(gross: Money, rate: Rate)
    ensures var s := SplitFare(gross, rate);
            && s.commission + s.net == s.gross == gross
            && 2 * (gross * rate.num) - rate.den < 2 * rate.den * s.commission <= 2 * (gross * rate.num) + rate.den
            && (gross >= 0 ==> 0 <= s.commission <= gross && 0 <= s.net <= gross)
  {
    RoundBounds(gross * rate.num, rate.den);
    WholeIsExact(gross - SplitFare(gross, rate).commission);
    if gross >= 0 {
      MulLe(gross, rate.num, rate.den);
      MulLe(gross, 0, rate.num);
      ShareBounds(gross * rate.num, gross, rate.den);
    }
  }
}
