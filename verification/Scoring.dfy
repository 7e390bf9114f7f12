/** How the matcher scores one available driver (dispatch.util.ts), over exact reals. */
module Scoring {
  import opened Domain

  const W_DISTANCE := 0.70
  const W_ACCEPTANCE := 0.12
  const W_RELIABILITY := 0.08
  const W_RATING := 0.05
  const W_IDLE := 0.05
  const DISTANCE_CAP_KM := 5.0
  const IDLE_CAP_MINUTES := 45.0
  const MIN_OFFERS_FOR_RATE := 8

  /** What the score knows of a driver besides the distance; None is the source's null. */
  datatype Reputation = Reputation(
    acceptanceRate: Option<real>,
    cancellationRate: Option<real>,
    rating: Option<real>,
    idleMinutes: Option<real>)

  const NO_HISTORY := Reputation(None, None, None, None)
  const BEST := Reputation(Some(1.0), Some(0.0), Some(5.0), Some(45.0))
  const WORST := Reputation(Some(0.0), Some(1.0), Some(3.5), Some(0.0))

  datatype Counters = Counters(
    offersSent: nat, offersAccepted: nat, offersDeclined: nat, tripsCancelled: nat, lastCompletedAt: Option<Time>)

  function Clamp01(n: real): (r: real) {
    if n < 0.0 then 0.0 else if n > 1.0 then 1.0 else n
  }

  function Standing(r: Reputation): (res: real) {
    var acceptance := if r.acceptanceRate.None? then 0.5 else Clamp01(r.acceptanceRate.value);
    var reliability := if r.cancellationRate.None? then 0.5 else Clamp01(1.0 - r.cancellationRate.value);
    var rating := if r.rating.None? then 0.7 else Clamp01((r.rating.value - 3.5) / 1.5);
    var idle := if r.idleMinutes.None? then 0.5 else Clamp01(r.idleMinutes.value / IDLE_CAP_MINUTES);
    W_ACCEPTANCE * acceptance + W_RELIABILITY * reliability + W_RATING * rating + W_IDLE * idle
  }

  function ScoreDriver(distanceKm: real, r: Reputation): (res: real) {
    W_DISTANCE * (1.0 - Clamp01(distanceKm / DISTANCE_CAP_KM)) + Standing(r)
  }

  function RatesFromCounters(c: Counters): (r: (Option<real>, Option<real>)) {
    (if c.offersSent >= MIN_OFFERS_FOR_RATE then Some(c.offersAccepted as real / c.offersSent as real) else None,
     if c.offersAccepted >= MIN_OFFERS_FOR_RATE
     then Some(c.tripsCancelled as real / c.offersAccepted as real) else None)
  }

  function IdleMinutesSince(lastCompletedAt: Option<Time>, now: Time): (r: Option<real>) {
    if lastCompletedAt.None? then None
    else if now <= lastCompletedAt.value then Some(0.0)
    else Some((now - lastCompletedAt.value) as real / 60_000.0)
  }

  /** The distance the score can see: nothing beyond the cap counts. */
  function Capped(distanceKm: real): (r: real) {
    if distanceKm < 0.0 then 0.0 else if distanceKm > DISTANCE_CAP_KM then DISTANCE_CAP_KM else distanceKm
  }

  lemma StandingBounds(r: Reputation)
    ensures 0.0 <= Standing(r) <= 0.30
  {
    var a := if r.acceptanceRate.None? then 0.5 else Clamp01(r.acceptanceRate.value);
    var b := if r.cancellationRate.None? then 0.5 else Clamp01(1.0 - r.cancellationRate.value);
    var c := if r.rating.None? then 0.7 else Clamp01((r.rating.value - 3.5) / 1.5);
    var d := if r.idleMinutes.None? then 0.5 else Clamp01(r.idleMinutes.value / IDLE_CAP_MINUTES);
    assert 0.0 <= a <= 1.0 && 0.0 <= b <= 1.0 && 0.0 <= c <= 1.0 && 0.0 <= d <= 1.0;
  }

  lemma DistanceTerm(distanceKm: real)
    ensures Clamp01(distanceKm / DISTANCE_CAP_KM) == Capped(distanceKm) / 5.0
  {
  }

  /** Scores are comparable: always within 0..1, whatever the inputs. */
  lemma ScoreBounds(distanceKm: real, r: Reputation)
    ensures 0.0 <= ScoreDriver(distanceKm, r) <= 1.0
  {
    StandingBounds(r);
  }

  lemma Extremes()
    ensures Standing(BEST) == 0.30 && Standing(WORST) == 0.0 && Standing(NO_HISTORY) == 0.16
  {
  }

  /**
   What each signal is worth, within its range: the distance 0.14 a kilometre, the acceptance rate 0.12 from
   none to all, the cancellation rate 0.08 from all to none, a star 1/30, and a minute of waiting 1/900.
   */
  lemma EachSignal(km: real, r: Reputation, a: real, b: real)
    ensures 0.0 <= a <= 5.0 && 0.0 <= b <= 5.0 ==> ScoreDriver(a, r) - ScoreDriver(b, r) == 0.14 * (b - a)
    ensures 0.0 <= a <= 1.0 && 0.0 <= b <= 1.0 ==>
              ScoreDriver(km, r.(acceptanceRate := Some(a))) - ScoreDriver(km, r.(acceptanceRate := Some(b)))
              == 0.12 * (a - b)
    ensures 0.0 <= a <= 1.0 && 0.0 <= b <= 1.0 ==>
              ScoreDriver(km, r.(cancellationRate := Some(a))) - ScoreDriver(km, r.(cancellationRate := Some(b)))
              == 0.08 * (b - a)
    ensures 3.5 <= a <= 5.0 && 3.5 <= b <= 5.0 ==>
              ScoreDriver(km, r.(rating := Some(a))) - ScoreDriver(km, r.(rating := Some(b))) == (a - b) / 30.0
    ensures 0.0 <= a <= 45.0 && 0.0 <= b <= 45.0 ==>
              ScoreDriver(km, r.(idleMinutes := Some(a))) - ScoreDriver(km, r.(idleMinutes := Some(b)))
              == (a - b) / 900.0
  {
    if 0.0 <= a <= 5.0 && 0.0 <= b <= 5.0 {
      DistanceTerm(a);
      DistanceTerm(b);
    }
  }

  function Within(x: real, low: real, high: real): (r: real)
    requires low <= high
  {
    if x < low then low else if x > high then high else x
  }

  /** Beyond its range a signal counts as the end of the range. */
  lemma EachRange(km: real, r: Reputation, x: real)
    ensures ScoreDriver(x, r) == ScoreDriver(Within(x, 0.0, 5.0), r)
    ensures ScoreDriver(km, r.(acceptanceRate := Some(x)))
         == ScoreDriver(km, r.(acceptanceRate := Some(Within(x, 0.0, 1.0))))
    ensures ScoreDriver(km, r.(cancellationRate := Some(x)))
         == ScoreDriver(km, r.(cancellationRate := Some(Within(x, 0.0, 1.0))))
    ensures ScoreDriver(km, r.(rating := Some(x))) == ScoreDriver(km, r.(rating := Some(Within(x, 3.5, 5.0))))
    ensures ScoreDriver(km, r.(idleMinutes := Some(x)))
         == ScoreDriver(km, r.(idleMinutes := Some(Within(x, 0.0, 45.0))))
  {
  }

  /** A signal that is missing counts as this much: half the offers taken and kept, 4.55 stars, 22.5 minutes. */
  lemma EachUnknown(km: real, r: Reputation)
    ensures ScoreDriver(km, r.(acceptanceRate := None)) == ScoreDriver(km, r.(acceptanceRate := Some(0.5)))
    ensures ScoreDriver(km, r.(cancellationRate := None)) == ScoreDriver(km, r.(cancellationRate := Some(0.5)))
    ensures ScoreDriver(km, r.(rating := None)) == ScoreDriver(km, r.(rating := Some(4.55)))
    ensures ScoreDriver(km, r.(idleMinutes := None)) == ScoreDriver(km, r.(idleMinutes := Some(22.5)))
  {
  }

  lemma ScoreGap(far: real, near: real, r: Reputation, s: Reputation)
    ensures ScoreDriver(far, r) - ScoreDriver(near, s)
            == Standing(r) - Standing(s) - 0.14 * (Capped(far) - Capped(near))
  {
    DistanceTerm(far);
    DistanceTerm(near);
  }

  /**
   How much distance reputation can buy, exactly: no reputation lifts the farther driver to the nearer
   one's score if and only if the capped distances differ by more than 15/7 km.
   */
  lemma DistanceDominates(far: real, near: real)
    ensures (forall r, s :: ScoreDriver(far, r) < ScoreDriver(near, s)) <==> Capped(far) - Capped(near) > 15.0 / 7.0
  {
    Extremes();
    ScoreGap(far, near, BEST, WORST);
    forall r, s ensures ScoreDriver(far, r) - ScoreDriver(near, s) <= 0.30 - 0.14 * (Capped(far) - Capped(near)) {
      ScoreGap(far, near, r, s);
      StandingBounds(r);
      StandingBounds(s);
    }
  }

  /** Against a newcomer with no history at all the margin is exactly one kilometre. */
  lemma NewcomerMargin(far: real, near: real)
    ensures (forall r :: ScoreDriver(far, r) < ScoreDriver(near, NO_HISTORY)) <==> Capped(far) - Capped(near) > 1.0
  {
    Extremes();
    ScoreGap(far, near, BEST, NO_HISTORY);
    forall r ensures ScoreDriver(far, r) - ScoreDriver(near, NO_HISTORY) <= 0.14 - 0.14 * (Capped(far) - Capped(near)) {
      ScoreGap(far, near, r, NO_HISTORY);
      StandingBounds(r);
    }
  }

  /**
   So reputation can add two kilometres to any pickup: the best record two kilometres farther out-scores the
   worst.
   */
  lemma TwoKilometresCanBeBought(near: real)
    ensures ScoreDriver(near + 2.0, BEST) > ScoreDriver(near, WORST)
  {
    Extremes();
    ScoreGap(near + 2.0, near, BEST, WORST);
  }

  // ---- What a driver's history does to the score ----

  function StandingOf(c: Counters, rating: Option<real>, now: Time): (r: real) {
    var rates := RatesFromCounters(c);
    Standing(Reputation(rates.0, rates.1, rating, IdleMinutesSince(c.lastCompletedAt, now)))
  }

  lemma SignOfProduct(x: real, n: real)
    requires n > 0.0
    ensures x * n > 0.0 <==> x > 0.0
    ensures x * n == 0.0 <==> x == 0.0
  {
  }

  lemma ShareTimes(a: int, of: nat)
    requires of > 0
    ensures (a as real / of as real) * of as real == a as real
  {
  }

  lemma SmallerShare(a: nat, b: nat, of: nat)
    requires of > 0
    ensures a <= b <==> a as real / of as real <= b as real / of as real
    ensures a < b <==> (a as real / of as real) < (b as real / of as real)
  {
    ShareTimes(a, of);
    ShareTimes(b, of);
    ProductOfDifference(b as real / of as real, a as real / of as real, of as real);
  }

  lemma ProductOfDifference(x: real, y: real, n: real)
    requires n > 0.0
    ensures (x - y) * n == x * n - y * n
    ensures x * n > y * n <==> x > y
    ensures x * n == y * n <==> x == y
  {
    SignOfProduct(x - y, n);
  }

  lemma WholeShare(of: nat)
    requires of > 0
    ensures of as real / of as real == 1.0 && 0 as real / of as real == 0.0
  {
  }

  lemma SameRest(r: Reputation, a: Option<real>, b: Option<real>)
    ensures Standing(r.(acceptanceRate := a, cancellationRate := b)) - Standing(r)
         == W_ACCEPTANCE * ((if a.None? then 0.5 else Clamp01(a.value))
                            - (if r.acceptanceRate.None? then 0.5 else Clamp01(r.acceptanceRate.value)))
          + W_RELIABILITY * ((if b.None? then 0.5 else Clamp01(1.0 - b.value))
                             - (if r.cancellationRate.None? then 0.5 else Clamp01(1.0 - r.cancellationRate.value)))
  {
  }

  function Least(a: nat, b: nat): (r: nat)
    ensures r <= a && r <= b && (r == a || r == b)
  {
    if a < b then a else b
  }

  /**
   Does a driver who took `more` jobs on the same offers stand higher? The acceptance rate counts from eight
   offers on and no further than all of them. The cancellations come into view at the eighth job taken: from
   then on every further job dilutes them, but at that point it is a question of how many there are.
   */
  predicate MoreIsBetter(c: Counters, more: nat) {
    var gain := if c.offersSent >= MIN_OFFERS_FOR_RATE
                then Least(more, c.offersSent) - Least(c.offersAccepted, c.offersSent) else 0;
    if c.offersAccepted < MIN_OFFERS_FOR_RATE <= more then
      var counted := Least(c.tripsCancelled, more);
      if c.offersSent >= MIN_OFFERS_FOR_RATE then c.offersSent * (2 * counted - more) < 3 * more * gain
      else 2 * counted < more
    else
      gain > 0 || (c.offersAccepted >= MIN_OFFERS_FOR_RATE && 0 < c.tripsCancelled < more)
  }

  /**
   Exactly when it pays, by the score, to have taken more jobs on the same offers; more jobs than offers
   included, since a driver can accept a trip they were never shown.
   */
  lemma AcceptingHelpsExactly(c: Counters, more: nat, rating: Option<real>, now: Time)
    requires c.offersAccepted < more
    ensures StandingOf(c, rating, now) < StandingOf(c.(offersAccepted := more), rating, now) <==> MoreIsBetter(c, more)
  {
    var was, upon := RatesFromCounters(c), RatesFromCounters(c.(offersAccepted := more));
    SameRest(Reputation(was.0, was.1, rating, IdleMinutesSince(c.lastCompletedAt, now)), upon.0, upon.1);
    if c.offersSent >= MIN_OFFERS_FOR_RATE { AcceptanceGain(c, more); }
    if c.offersAccepted >= MIN_OFFERS_FOR_RATE {
      CountedShare(c.tripsCancelled, c.offersAccepted);
      CountedShare(c.tripsCancelled, more);
      Dilution(c.tripsCancelled, c.offersAccepted, more);
    } else if more >= MIN_OFFERS_FOR_RATE {
      CancellationsAppear(c, more);
    }
  }

  lemma AcceptanceGain(c: Counters, more: nat)
    requires MIN_OFFERS_FOR_RATE <= c.offersSent && c.offersAccepted < more
    ensures var taken := Least(more, c.offersSent) - Least(c.offersAccepted, c.offersSent);
            var gain := taken as real / c.offersSent as real;
            && taken >= 0 && gain >= 0.0 && (gain > 0.0 <==> taken > 0)
            && Clamp01(more as real / c.offersSent as real)
               - Clamp01(c.offersAccepted as real / c.offersSent as real) == gain
  {
    ClampedShare(more, c.offersSent);
    ClampedShare(c.offersAccepted, c.offersSent);
    ShareOfDifference(Least(more, c.offersSent), Least(c.offersAccepted, c.offersSent), c.offersSent);
    SmallerShare(0, Least(more, c.offersSent) - Least(c.offersAccepted, c.offersSent), c.offersSent);
  }

  /** A share counts as far as the whole. */
  lemma ClampedShare(a: nat, of: nat)
    requires of > 0
    ensures Clamp01(a as real / of as real) == Least(a, of) as real / of as real
  {
    WholeShare(of);
    SmallerShare(0, a, of);
    SmallerShare(a, of, of);
  }

  lemma ShareOfDifference(a: nat, b: nat, of: nat)
    requires of > 0 && b <= a
    ensures a as real / of as real - b as real / of as real == (a - b) as real / of as real
  {
    ShareTimes(a, of);
    ShareTimes(b, of);
    ShareTimes(a - b, of);
    ProductOfDifference(a as real / of as real, b as real / of as real, of as real);
    ProductOfDifference(a as real / of as real - b as real / of as real, (a - b) as real / of as real, of as real);
  }

  /** What the reliability term sees of the cancellations: no more of them than jobs. */
  lemma CountedShare(cancelled: nat, m: nat)
    requires m > 0
    ensures Clamp01(1.0 - cancelled as real / m as real) == 1.0 - Least(cancelled, m) as real / m as real
  {
    ClampedShare(cancelled, m);
    ClampOfRest(cancelled as real / m as real);
  }

  lemma ClampOfRest(x: real)
    ensures Clamp01(1.0 - x) == 1.0 - Clamp01(x)
  {
  }

  /** The same cancellations over more jobs weigh less, unless there are none or more than there are jobs. */
  lemma Dilution(cancelled: nat, a: nat, b: nat)
    requires 0 < a < b
    ensures var was, now := Least(cancelled, a) as real / a as real, Least(cancelled, b) as real / b as real;
            now <= was && (now < was <==> 0 < cancelled < b)
  {
    WholeShare(a);
    WholeShare(b);
    SmallerShare(cancelled, b, b);
    if cancelled <= a { ShareOfMore(cancelled, a, b); }
  }

  lemma ShareOfMore(c: nat, a: nat, b: nat)
    requires 0 < a < b
    ensures c as real / b as real <= c as real / a as real
    ensures c as real / b as real < c as real / a as real <==> c > 0
  {
    var x, y, p, q := c as real / b as real, c as real / a as real, b as real, a as real;
    ShareTimes(c, b);
    ShareTimes(c, a);
    SignOfProduct(x, p);
    SignOfProduct(x, p - q);
    SignOfProduct(y - x, q);
    assert (y - x) * q == x * (p - q);
  }

  /** The gain on acceptance against the loss on reliability, cleared of fractions. */
  lemma CancellationsAppear(c: Counters, more: nat)
    requires c.offersAccepted < MIN_OFFERS_FOR_RATE <= more
    ensures var taken := Least(more, c.offersSent) - Least(c.offersAccepted, c.offersSent);
            var gain := if c.offersSent >= MIN_OFFERS_FOR_RATE then taken as real / c.offersSent as real else 0.0;
            W_ACCEPTANCE * gain + W_RELIABILITY * (Clamp01(1.0 - c.tripsCancelled as real / more as real) - 0.5) > 0.0
            <==> MoreIsBetter(c, more)
  {
    CountedShare(c.tripsCancelled, more);
    var k := Least(c.tripsCancelled, more);
    if c.offersSent >= MIN_OFFERS_FOR_RATE {
      ClearFractions(c.offersSent, more, k, Least(more, c.offersSent) - Least(c.offersAccepted, c.offersSent));
    } else {
      BelowHalf(k, more);
    }
  }

  lemma BelowHalf(k: nat, m: nat)
    requires m > 0
    ensures (1.0 - k as real / m as real) - 0.5 > 0.0 <==> 2 * k < m
  {
    ShareTimes(k, m);
    ProductOfDifference(0.5, k as real / m as real, m as real);
  }

  lemma ClearFractions(n: nat, m: nat, k: nat, more: int)
    requires n > 0 && m > 0
    ensures W_ACCEPTANCE * (more as real / n as real) + W_RELIABILITY * ((1.0 - k as real / m as real) - 0.5) > 0.0
            <==> n * (2 * k - m) < 3 * m * more
  {
    var x, y := more as real / n as real, k as real / m as real;
    var lhs := W_ACCEPTANCE * x + W_RELIABILITY * ((1.0 - y) - 0.5);
    assert x * n as real == more as real && y * m as real == k as real;
    var nm := n as real * m as real;
    assert nm > 0.0;
    assert lhs * nm == 0.12 * (x * n as real) * m as real + 0.04 * nm - 0.08 * (y * m as real) * n as real;
    assert lhs > 0.0 <==> lhs * nm > 0.0;
    assert lhs * nm == 0.04 * (3 * m * more - n * (2 * k - m)) as real by {
      RealOfProducts(n, m, k, more);
    }
  }

  lemma RealOfProducts(n: nat, m: nat, k: nat, more: int)
    ensures (3 * m * more - n * (2 * k - m)) as real
         == 3.0 * more as real * m as real - 2.0 * k as real * n as real + n as real * m as real
  {
    assert (m * more) as real == more as real * m as real;
    assert (n * k) as real == k as real * n as real;
    assert (n * m) as real == n as real * m as real;
    assert 3 * m * more - n * (2 * k - m) == 3 * (m * more) - 2 * (n * k) + n * m;
  }

  /** At the eighth acceptance it is a matter of five cancellations or more, and how often the driver was asked. */
  lemma EighthAcceptance(c: Counters, rating: Option<real>, now: Time)
    requires c.offersSent >= 8 && c.offersAccepted == 7
    ensures StandingOf(c, rating, now) < StandingOf(c.(offersAccepted := 8), rating, now)
            <==> c.tripsCancelled <= 4 || c.offersSent * (c.tripsCancelled - 4) < 12
  {
    AcceptingHelpsExactly(c, 8, rating, now);
    EighthIsBetter(c);
  }

  lemma EighthIsBetter(c: Counters)
    requires c.offersSent >= 8 && c.offersAccepted == 7
    ensures MoreIsBetter(c, 8) <==> c.tripsCancelled <= 4 || c.offersSent * (c.tripsCancelled - 4) < 12
  {
    EighthCount(c.offersSent, c.tripsCancelled);
    var gain := Least(8, c.offersSent) - Least(c.offersAccepted, c.offersSent);
    assert gain == 1 && 3 * 8 * gain == 24;
  }

  lemma EighthCount(sent: nat, cancelled: nat)
    requires sent >= 8
    ensures sent * (2 * Least(cancelled, 8) - 8) < 24
            <==> cancelled <= 4 || sent * (cancelled - 4) < 12
  {
    if cancelled <= 4 {
      NoLess(sent, 8 - 2 * cancelled);
      assert sent * (2 * cancelled - 8) == -(sent * (8 - 2 * cancelled));
    } else if cancelled < 8 {
      assert 2 * cancelled - 8 == 2 * (cancelled - 4);
      assert sent * (2 * (cancelled - 4)) == 2 * (sent * (cancelled - 4));
    } else {
      NoLess(sent - 8, cancelled - 4);
      assert sent * (cancelled - 4) == (sent - 8) * (cancelled - 4) + 8 * (cancelled - 4);
    }
  }

  lemma NoLess(a: nat, b: nat)
    ensures a * b >= 0
  {
  }

  /**
   So a driver asked twenty times, with seven jobs taken and all seven cancelled, is ranked lower for taking an
   eighth.
   */
  lemma EighthAcceptanceCanHurt(rating: Option<real>, now: Time)
    ensures var c := Counters(20, 7, 13, 7, None);
            StandingOf(c.(offersAccepted := 8), rating, now) < StandingOf(c, rating, now)
  {
  }

  /** Waiting longer never lowers a score, and beyond the cap it no longer raises it. */
  lemma IdlingNeverHurts(r: Reputation, earlier: Time, later: Time, now: Time)
    requires earlier <= later
    ensures Standing(r.(idleMinutes := IdleMinutesSince(Some(later), now)))
         <= Standing(r.(idleMinutes := IdleMinutesSince(Some(earlier), now)))
    ensures later + 45 * 60_000 <= now
            ==> (Standing(r.(idleMinutes := IdleMinutesSince(Some(later), now)))
                 == Standing(r.(idleMinutes := IdleMinutesSince(Some(earlier), now))))
  {
    IdleAmount(earlier, now);
    IdleAmount(later, now);
  }

  /** A driver who finished `minutes` ago has waited that long; one who has yet to finish, or just has, not at all. */
  lemma IdleMinutes(since: Time, minutes: nat, now: Time)
    ensures IdleMinutesSince(Some(since), since + 60_000 * minutes) == Some(minutes as real)
    ensures now <= since ==> IdleMinutesSince(Some(since), now) == Some(0.0)
    ensures IdleMinutesSince(None, now) == None
  {
    assert (60_000 * minutes) as real == 60_000.0 * minutes as real;
  }

  lemma IdleAmount(since: Time, now: Time)
    ensures IdleMinutesSince(Some(since), now) == Some(if now <= since then 0.0 else (now - since) as real / 60_000.0)
  {
  }
}
