/**
 The two halves meet: given what findNearbyDrivers answers for the four radii, the match passes of the
 dispatch protocols pick exactly the nearest acceptable driver, or broadcast to the top three of eight.
 Here `ok` is the set of drivers the pointwise rule accepts on the unevicted map.
 */
module SearchFeedsDispatch {
  import opened Domain
  import opened Ranking
  import opened Location
  import opened Search
  import Reserving
  import Trips

  // ---- The reserving services ----

  function NearbyIds(order: seq<Candidate>, ok: set<Driver>): (r: seq<seq<Driver>>) {
    seq(|SEARCH_RADII_KM|, i requires 0 <= i < |SEARCH_RADII_KM| =>
      DriversOf(Keep(WithinKm(order, SEARCH_RADII_KM[i]), ok)))
  }

  lemma {:induction false} FindIsHeadOf(cs: seq<Candidate>, free: set<Driver>, excluded: set<Driver>)
    requires forall c | c in cs :: c.driver in free <==> c.driver !in excluded
    ensures Reserving.FirstFree(DriversOf(cs), excluded)
         == if Keep(cs, free) == [] then None else Some(Keep(cs, free)[0].driver)
  {
    if cs != [] {
      assert cs[0] in cs;
      FindIsHeadOf(cs[1..], free, excluded);
      KeepCons(cs, free);
      assert DriversOf(cs)[1..] == DriversOf(cs[1..]);
    }
  }

  lemma FindIsHead(nearby: seq<Candidate>, excluded: set<Driver>)
    ensures var free := Keep(nearby, SetOf(DriversOf(nearby)) - excluded);
            Reserving.FirstFree(DriversOf(nearby), excluded) == if free == [] then None else Some(free[0].driver)
  {
    forall c | c in nearby ensures c.driver in SetOf(DriversOf(nearby)) { ListedDriver(nearby, c.driver); }
    FindIsHeadOf(nearby, SetOf(DriversOf(nearby)) - excluded, excluded);
  }

  lemma {:induction false} PassFrom(order: seq<Candidate>, ok: set<Driver>, excluded: set<Driver>, i: nat)
    requires DistanceTable(order) && i < |SEARCH_RADII_KM|
    ensures Reserving.FirstCandidate(NearbyIds(order, ok)[i..], excluded) == Nearest(order, ok - excluded, 8.0)
    decreases |SEARCH_RADII_KM| - i
  {
    var lists := NearbyIds(order, ok)[i..];
    var cs := WithinKm(order, SEARCH_RADII_KM[i]);
    assert lists[0] == DriversOf(Keep(cs, ok));
    FindIsHead(Keep(cs, ok), excluded);
    NotExcluded(cs, ok, excluded);
    NearestWidens(order, ok - excluded, SEARCH_RADII_KM[i], 8.0);
    assert lists[1..] == NearbyIds(order, ok)[i + 1..];
    if i + 1 < |SEARCH_RADII_KM| {
      PassFrom(order, ok, excluded, i + 1);
    } else {
      assert lists[1..] == [];
    }
  }

  /** A match pass for a parcel, food order or errand picks the nearest acceptable driver not excluded, if any. */
  lemma {:induction false} PassPicksNearest(order: seq<Candidate>, ok: set<Driver>, excluded: set<Driver>)
    requires DistanceTable(order)
    ensures Reserving.FirstCandidate(NearbyIds(order, ok), excluded) == Nearest(order, ok - excluded, 8.0)
  {
    PassFrom(order, ok, excluded, 0);
    assert NearbyIds(order, ok)[0..] == NearbyIds(order, ok);
  }

  // ---- Trips ----

  /** What the pass of a trip sees: the same lists, scored. */
  function NearbyScored(
    order: seq<Candidate>, ok: set<Driver>, profiles: Profiles, ratings: Ratings, now: Time)
    : (r: seq<seq<Scored>>)
  {
    seq(|SEARCH_RADII_KM|, i requires 0 <= i < |SEARCH_RADII_KM| =>
      ScoreAll(Keep(WithinKm(order, SEARCH_RADII_KM[i]), ok), profiles, ratings, now))
  }

  lemma ScoreAllCons(
    cs: seq<Candidate>, profiles: Profiles, ratings: Ratings, now: Time)
    requires cs != []
    ensures forall rest :: ScoreAll([cs[0]] + rest, profiles, ratings, now)
                        == [Scored(cs[0].driver, ScoreOf(cs[0], profiles, ratings, now))]
                           + ScoreAll(rest, profiles, ratings, now)
  {
  }

  lemma {:induction false} ScoreThenFilter(
    cs: seq<Candidate>, free: set<Driver>, excluded: set<Driver>,
    profiles: Profiles, ratings: Ratings, now: Time)
    requires forall c | c in cs :: c.driver in free <==> c.driver !in excluded
    ensures Trips.Unexcluded(ScoreAll(cs, profiles, ratings, now), excluded)
         == ScoreAll(Keep(cs, free), profiles, ratings, now)
  {
    if cs != [] {
      ScoreThenFilter(cs[1..], free, excluded, profiles, ratings, now);
      KeepCons(cs, free);
      ScoreAllCons(cs, profiles, ratings, now);
      assert ScoreAll(cs, profiles, ratings, now)[1..] == ScoreAll(cs[1..], profiles, ratings, now);
      assert cs[0] in cs;
    }
  }

  lemma ScoredFree(
    cs: seq<Candidate>, ok: set<Driver>, excluded: set<Driver>,
    profiles: Profiles, ratings: Ratings, now: Time)
    ensures Trips.Unexcluded(ScoreAll(Keep(cs, ok), profiles, ratings, now), excluded)
         == ScoreAll(Keep(cs, ok - excluded), profiles, ratings, now)
  {
    var nearby := Keep(cs, ok);
    forall c | c in nearby ensures c.driver in SetOf(DriversOf(nearby)) { ListedDriver(nearby, c.driver); }
    ScoreThenFilter(nearby, SetOf(DriversOf(nearby)) - excluded, excluded, profiles, ratings, now);
    NotExcluded(cs, ok, excluded);
  }

  lemma {:induction false} RingFrom(
    order: seq<Candidate>, ok: set<Driver>, excluded: set<Driver>,
    profiles: Profiles, ratings: Ratings, now: Time, i: nat)
    requires i < |SEARCH_RADII_KM|
    ensures Trips.FirstEligible(NearbyScored(order, ok, profiles, ratings, now)[i..], excluded)
         == ScoreAll(SmallestRing(order, ok - excluded, i), profiles, ratings, now)
    decreases |SEARCH_RADII_KM| - i
  {
    var lists := NearbyScored(order, ok, profiles, ratings, now)[i..];
    ScoredFree(WithinKm(order, SEARCH_RADII_KM[i]), ok, excluded, profiles, ratings, now);
    assert lists[0] == ScoreAll(Keep(WithinKm(order, SEARCH_RADII_KM[i]), ok), profiles, ratings, now);
    assert lists[1..] == NearbyScored(order, ok, profiles, ratings, now)[i + 1..];
    if i + 1 < |SEARCH_RADII_KM| {
      RingFrom(order, ok, excluded, profiles, ratings, now, i + 1);
    } else {
      assert lists[1..] == [];
    }
  }

  /**
   A match pass for a trip shows it to the top three by score of the eight nearest in the smallest radius with
   anyone.
   */
  lemma {:induction false} PassShowsTopThree(
    order: seq<Candidate>, ok: set<Driver>, excluded: set<Driver>,
    profiles: Profiles, ratings: Ratings, now: Time)
    ensures var shown := Trips.ToShow(NearbyScored(order, ok, profiles, ratings, now), excluded);
            var ring := SmallestRing(order, ok - excluded, 0);
            TopThreeOfEight(ring, profiles, ratings, now, shown) && (shown == [] <==> ring == [])
  {
    var lists := NearbyScored(order, ok, profiles, ratings, now);
    var ring := SmallestRing(order, ok - excluded, 0);
    RingFrom(order, ok, excluded, profiles, ratings, now, 0);
    assert lists[0..] == lists;
    var scored := ScoreAll(AtMost(ring, Trips.DISPATCH_SHORTLIST), profiles, ratings, now);
    assert AtMost(ScoreAll(ring, profiles, ratings, now), Trips.DISPATCH_SHORTLIST) == scored;
    SortRanks(scored);
  }

  /** And to no others: the ranking leaves no choice. */
  lemma PassShowsExactly(
    order: seq<Candidate>, ok: set<Driver>, excluded: set<Driver>,
    profiles: Profiles, ratings: Ratings, now: Time, shown: seq<Driver>)
    requires TopThreeOfEight(SmallestRing(order, ok - excluded, 0), profiles, ratings, now, shown)
    ensures shown == Trips.ToShow(NearbyScored(order, ok, profiles, ratings, now), excluded)
  {
    PassShowsTopThree(order, ok, excluded, profiles, ratings, now);
    var eight := AtMost(SmallestRing(order, ok - excluded, 0), Trips.DISPATCH_SHORTLIST);
    var scored := ScoreAll(eight, profiles, ratings, now);
    var toShow := Trips.ToShow(NearbyScored(order, ok, profiles, ratings, now), excluded);
    var r :| StablyRanks(scored, r) && shown == AtMost(Ids(r), Trips.BROADCAST_TO);
    var q :| StablyRanks(scored, q) && toShow == AtMost(Ids(q), Trips.BROADCAST_TO);
    RankingIsUnique(scored, r, q);
  }
}
