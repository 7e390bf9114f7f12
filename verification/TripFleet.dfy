/**
 Which fleet a trip's driver is of. The searches and the ops desk respect the wall between the review
 fleet and the real one; the accept of a broadcast trip asks neither who was shown it nor whose fleet
 they are of.
 */
module TripFleet {
  import opened Domain
  import opened Commission
  import opened Trips
  import opened TripsSafety
  import opened TripsLiveness

  /** Nobody from the other fleet is on the row; `reviewers` are the review drivers. */
  predicate InItsFleet(t: Trip, reviewers: set<Driver>) {
    t.row.driver.Some? ==> (t.row.driver.value in reviewers) == t.row.isTest
  }

  /** The event is an accept or an assignment that wins the trip for `d`. */
  predicate Wins(t: Trip, e: Event, d: Driver) {
    || (e == Accept(d) && t.row.status == MATCHING && t.row.driver.None?)
    || (e == ManualAssign(d) && Looking(t.row.status))
  }

  lemma DriverComesFrom(t: Trip, e: Event)
    ensures Step(t, e).row.isTest == t.row.isTest
    ensures var d := Step(t, e).row.driver;
            d.None? || d == t.row.driver || Wins(t, e, d.value)
    ensures forall d: Driver | Wins(t, e, d) :: Step(t, e).row.driver == Some(d)
  {
    EscalationTouchesOnlyStamps(t.row.(noDriverFoundAt := OrElse(t.row.noDriverFoundAt, t.now)), t.now);
    EscalationTouchesOnlyStamps(t.row.(status := REQUESTED), t.now);
    EscalationTouchesOnlyStamps(t.row, t.now);
  }

  ghost predicate AlwaysInItsFleet(t: Trip, es: seq<Event>, reviewers: set<Driver>)
    decreases |es|
  {
    InItsFleet(Run(t, es), reviewers) && (es != [] ==> AlwaysInItsFleet(t, es[..|es| - 1], reviewers))
  }

  /** Whoever wins the trip in this run is of the trip's fleet. */
  ghost predicate WonInItsFleet(t: Trip, es: seq<Event>, reviewers: set<Driver>)
    decreases |es|
  {
    es != [] ==>
      var n := |es| - 1;
      && WonInItsFleet(t, es[..n], reviewers)
      && forall d: Driver | Wins(Run(t, es[..n]), es[n], d) :: (d in reviewers) == t.row.isTest
  }

  /** A trip stays in its fleet in a run if and only if the one who wins it is of that fleet. */
  lemma {:induction false} TripFleetExactly(t: Trip, es: seq<Event>, reviewers: set<Driver>)
    requires t.row.driver.None?
    ensures Run(t, es).row.isTest == t.row.isTest
    ensures AlwaysInItsFleet(t, es, reviewers) <==> WonInItsFleet(t, es, reviewers)
    decreases |es|
  {
    if es != [] {
      var n := |es| - 1;
      TripFleetExactly(t, es[..n], reviewers);
      DriverComesFrom(Run(t, es[..n]), es[n]);
      if AlwaysInItsFleet(t, es[..n], reviewers) { assert InItsFleet(Run(t, es[..n]), reviewers); }
    }
  }

  /** The searches return only drivers of the trip's fleet, and the ops desk assigns only those. */
  ghost predicate WallRespected(es: seq<Event>, isTest: bool, reviewers: set<Driver>) {
    forall i | 0 <= i < |es| ::
      && (es[i].ManualAssign? ==> (es[i].driver in reviewers) == isTest)
      && (es[i].MatchPass? ==>
            forall k, c | 0 <= k < |es[i].nearby| && c in es[i].nearby[k] :: (c.driver in reviewers) == isTest)
  }

  /** Accepts come only from drivers the trip has been shown to. */
  ghost predicate AcceptedWhenShown(t: Trip, es: seq<Event>)
    decreases |es|
  {
    es != [] ==>
      var n := |es| - 1;
      && AcceptedWhenShown(t, es[..n])
      && (es[n].Accept? ==> ShownTo(Run(t, es[..n]), es[n].driver))
  }

  ghost predicate ShownTo(t: Trip, d: Driver) {
    exists i | 0 <= i < |t.rounds| :: d in t.rounds[i].shown
  }

  ghost predicate ShownInFleet(t: Trip, reviewers: set<Driver>) {
    forall i, d | 0 <= i < |t.rounds| && d in t.rounds[i].shown :: (d in reviewers) == t.row.isTest
  }

  lemma ShownStep(t: Trip, e: Event, reviewers: set<Driver>)
    requires ShownInFleet(t, reviewers) && WallRespected([e], t.row.isTest, reviewers)
    ensures ShownInFleet(Step(t, e), reviewers)
  {
    DriverComesFrom(t, e);
    if e.MatchPass? {
      assert [e][0] == e;
      ShownAreFree(e.nearby, t.excluded.Live(t.now));
      EscalationTouchesOnlyStamps(t.row.(noDriverFoundAt := OrElse(t.row.noDriverFoundAt, t.now)), t.now);
    } else {
      OnlyPassesBroadcast(t, e);
    }
  }

  /** So if only those it was shown to accept it, a trip stays on its side of the wall, in every run. */
  lemma {:induction false} ShownAcceptsKeepTheWall(
    id: nat, isTest: bool, fare: Money, tip: Option<Money>, now: Time, lateness: nat, es: seq<Event>,
    reviewers: set<Driver>)
    requires WallRespected(es, isTest, reviewers)
    requires AcceptedWhenShown(CreateTrip(id, isTest, fare, tip, now, lateness), es)
    ensures var t := CreateTrip(id, isTest, fare, tip, now, lateness);
            AlwaysInItsFleet(t, es, reviewers) && ShownInFleet(Run(t, es), reviewers)
    decreases |es|
  {
    var t := CreateTrip(id, isTest, fare, tip, now, lateness);
    if es != [] {
      var n := |es| - 1;
      assert forall i | 0 <= i < n :: es[..n][i] == es[i];
      ShownAcceptsKeepTheWall(id, isTest, fare, tip, now, lateness, es[..n], reviewers);
      var u := Run(t, es[..n]);
      TripFleetExactly(t, es[..n], reviewers);
      assert WallRespected([es[n]], isTest, reviewers);
      ShownStep(u, es[n], reviewers);
      DriverComesFrom(u, es[n]);
      assert InItsFleet(u, reviewers);
    }
  }

  /** Nothing asks for that: once a trip is on offer, any driver at all can take it, of whichever fleet. */
  lemma OutsiderTakesTrip(t: Trip, d: Driver, reviewers: set<Driver>)
    requires RowInv(t) && t.row.status == MATCHING && (d in reviewers) != t.row.isTest
    ensures Step(t, Accept(d)).claims == [d] && !InItsFleet(Step(t, Accept(d)), reviewers)
  {
  }

  /** The input: a real trip is shown to driver 1, and review driver 2 accepts it. */
  lemma ReviewerTakesRealTrip(lateness: nat)
    ensures var es := [] + [Finding(1)] + [Accept(2)];
            !AlwaysInItsFleet(Booked(lateness), es, {2}) && WallRespected(es, false, {2})
  {
    var t := Booked(lateness);
    FindsOne(1, {});
    RunSnoc(t, [], Finding(1));
    NewTripAlive(0, false, 15_000, None, 0, lateness);
    var u := Run(t, [] + [Finding(1)]);
    RowRun(t, [] + [Finding(1)]);
    OutsiderTakesTrip(u, 2, {2});
    RunSnoc(t, [] + [Finding(1)], Accept(2));
  }
}
