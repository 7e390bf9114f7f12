/**
 The widening search: radii of 1, 3, 5 and 8 km, each pass evicting drivers from the map while the loop is
 still running. It answers as one search over the unevicted map would.
 */
module Search {
  import opened Domain
  import opened Ranking
  import opened Eligibility
  import opened Location
  import Trips

  // ---- Lists by ascending distance ----

  lemma {:induction false} KeepConcat(a: seq<Candidate>, b: seq<Candidate>, ok: set<Driver>)
    ensures Keep(a + b, ok) == Keep(a, ok) + Keep(b, ok)
    decreases |b|
  {
    if b == [] {
      assert a + b == a;
    } else {
      var n := |b| - 1;
      assert (a + b)[..|a + b| - 1] == a + b[..n];
      KeepConcat(a, b[..n], ok);
    }
  }

  lemma KeepCons(cs: seq<Candidate>, ok: set<Driver>)
    requires cs != []
    ensures Keep(cs, ok) == (if cs[0].driver in ok then [cs[0]] else []) + Keep(cs[1..], ok)
  {
    assert cs == [cs[0]] + cs[1..];
    KeepConcat([cs[0]], cs[1..], ok);
    KeepSnoc([], cs[0], ok);
    assert [] + [cs[0]] == [cs[0]];
  }

  lemma {:induction false} AllWithin(order: seq<Candidate>, km: real)
    requires forall i | 0 <= i < |order| :: order[i].distanceKm <= km
    ensures WithinKm(order, km) == order
    decreases |order|
  {
    if order != [] { AllWithin(order[..|order| - 1], km); }
  }

  /** A smaller radius returns a prefix of what a larger one does. */
  lemma {:induction false} RadiiNest(order: seq<Candidate>, a: real, b: real)
    requires DistanceTable(order) && a <= b
    ensures WithinKm(order, a) <= WithinKm(order, b)
    decreases |order|
  {
    if order != [] {
      var n := |order| - 1;
      RadiiNest(order[..n], a, b);
      if order[n].distanceKm <= a {
        AllWithin(order, a);
        AllWithin(order, b);
      }
    }
  }

  lemma {:induction false} WithinIsPrefix(order: seq<Candidate>, km: real)
    requires DistanceTable(order)
    ensures WithinKm(order, km) <= order
    decreases |order|
  {
    if order != [] {
      WithinIsPrefix(order[..|order| - 1], km);
      if order[|order| - 1].distanceKm <= km { AllWithin(order, km); }
    }
  }

  /** In a list by ascending distance, the first candidate kept is the nearest kept. */
  lemma {:induction false} FirstKeptIsNearest(cs: seq<Candidate>, ok: set<Driver>)
    requires forall i, j | 0 <= i < j < |cs| :: cs[i].distanceKm <= cs[j].distanceKm
    ensures forall c | c in Keep(cs, ok) :: Keep(cs, ok)[0].distanceKm <= c.distanceKm
    decreases |cs|
  {
    if cs != [] {
      var n := |cs| - 1;
      FirstKeptIsNearest(cs[..n], ok);
      KeepMembers(cs[..n], ok);
      var before := Keep(cs[..n], ok);
      if before != [] {
        assert before[0] in before;
        var i :| 0 <= i < n && cs[..n][i] == before[0];
        assert cs[i].distanceKm <= cs[n].distanceKm;
      }
    }
  }

  // ---- The nearest ----

  /** The answer of one search of one radius over the acceptable drivers `ok`. */
  function Nearest(order: seq<Candidate>, ok: set<Driver>, km: real): (r: Option<Driver>) {
    var found := Keep(WithinKm(order, km), ok);
    if found == [] then None else Some(found[0].driver)
  }

  /** What that answer means: somebody acceptable within the radius whom nobody acceptable is nearer than. */
  lemma {:induction false} NearestMeans(order: seq<Candidate>, ok: set<Driver>, km: real)
    requires DistanceTable(order)
    ensures Nearest(order, ok, km).None? <==> forall c | c in order && c.distanceKm <= km :: c.driver !in ok
    ensures Nearest(order, ok, km).Some? ==>
              exists c :: && c in order && c.driver == Nearest(order, ok, km).value
                          && c.distanceKm <= km && c.driver in ok
                          && forall e | e in order && e.driver in ok :: c.distanceKm <= e.distanceKm
  {
    var found := Keep(WithinKm(order, km), ok);
    KeepMembers(WithinKm(order, km), ok);
    WithinMembers(order, km);
    WithinIsPrefix(order, km);
    FirstKeptIsNearest(WithinKm(order, km), ok);
    if found != [] {
      var c := found[0];
      assert c in found;
      forall e | e in order && e.driver in ok ensures c.distanceKm <= e.distanceKm {
        assert e.distanceKm <= km ==> e in found;
      }
    } else {
      forall c | c in order && c.distanceKm <= km ensures c.driver !in ok {
        assert c.driver in ok ==> c in found;
      }
    }
  }

  /** Found within a small radius, the nearest is the nearest of any larger one. */
  lemma NearestWidens(order: seq<Candidate>, ok: set<Driver>, a: real, b: real)
    requires DistanceTable(order) && a <= b
    ensures Nearest(order, ok, a).Some? ==> Nearest(order, ok, b) == Nearest(order, ok, a)
  {
    RadiiNest(order, a, b);
    var near, far := WithinKm(order, a), WithinKm(order, b);
    assert far == near + far[|near|..];
    KeepConcat(near, far[|near|..], ok);
  }

  /** Leaving out the excluded after the gate is leaving them out of the acceptable set. */
  lemma NotExcluded(cs: seq<Candidate>, ok: set<Driver>, excluded: set<Driver>)
    ensures var nearby := Keep(cs, ok);
            Keep(nearby, SetOf(DriversOf(nearby)) - excluded) == Keep(cs, ok - excluded)
  {
    var nearby := Keep(cs, ok);
    var free := SetOf(DriversOf(nearby)) - excluded;
    KeepTwice(cs, ok, free);
    IdsOfKept(cs, ok);
    forall c | c in cs ensures c.driver in ok * free <==> c.driver in ok - excluded { }
    KeepDependsOnListed(cs, ok * free, ok - excluded);
  }

  /** `nearby.filter(d => !excluded.has(d.driverId))` */
  method Unexcluded(nearby: seq<Candidate>, excluded: set<Driver>) returns (rest: seq<Candidate>)
    ensures rest == Keep(nearby, SetOf(DriversOf(nearby)) - excluded)
  {
    ghost var free := SetOf(DriversOf(nearby)) - excluded;
    rest := [];
    for i := 0 to |nearby|
      invariant rest == Keep(nearby[..i], free)
    {
      assert nearby[..i + 1] == nearby[..i] + [nearby[i]];
      KeepSnoc(nearby[..i], nearby[i], free);
      assert DriversOf(nearby)[i] == nearby[i].driver;
      if nearby[i].driver !in excluded { rest := rest + [nearby[i]]; }
    }
    assert nearby[..|nearby|] == nearby;
  }

  /**
   The search of the reserving services. For parcels `mode` is None; food and errands search one queue.
   The evictions between the passes never change the answer.
   */
  method FindDriver(
    location: LocationService, order: seq<Candidate>, mode: Option<Mode>, testFleet: bool, excluded: set<Driver>,
    now: Time)
    returns (r: Option<Driver>)
    requires location.Valid() && DistanceTable(order)
    modifies location`geo, location`lastSeen
    ensures location.Valid()
    ensures r == Nearest(order, old(Wanted(location, mode, now, testFleet)) - excluded, 8.0)
    ensures Wanted(location, mode, now, testFleet) == old(Wanted(location, mode, now, testFleet))
  {
    ghost var ok := Wanted(location, mode, now, testFleet);
    for i := 0 to |SEARCH_RADII_KM|
      invariant location.Valid() && Wanted(location, mode, now, testFleet) == ok
      invariant i > 0 ==> Nearest(order, ok - excluded, SEARCH_RADII_KM[i - 1]).None?
    {
      var radius := SEARCH_RADII_KM[i];
      var nearby;
      if mode.None? {
        nearby := location.FindNearbyDrivers(order, radius, testFleet, now);
      } else {
        nearby := location.FindNearbyDriversForMode(order, radius, mode.value, testFleet, now);
      }
      var eligible := Unexcluded(nearby, excluded);
      NotExcluded(WithinKm(order, radius), ok, excluded);
      if |eligible| > 0 {
        NearestWidens(order, ok - excluded, radius, 8.0);
        return Some(eligible[0].driver);
      }
    }
    return None;
  }

  ghost function Wanted(location: LocationService, mode: Option<Mode>, now: Time, testFleet: bool): (r: set<Driver>)
    reads location
  {
    if mode.None? then location.Acceptable(now, testFleet) else location.InQueue(mode.value, now, testFleet)
  }

  // ---- The broadcast ----

  /** The acceptable drivers of the smallest radius, from the `i`-th on, that has any. */
  function SmallestRing(order: seq<Candidate>, ok: set<Driver>, i: nat): (r: seq<Candidate>)
    decreases |SEARCH_RADII_KM| - i
  {
    if i >= |SEARCH_RADII_KM| then []
    else
      var found := Keep(WithinKm(order, SEARCH_RADII_KM[i]), ok);
      if found != [] then found else SmallestRing(order, ok, i + 1)
  }

  /** The ring is empty only when there is nobody within 8 km; otherwise no smaller radius has anybody. */
  lemma SmallestRingMeans(order: seq<Candidate>, ok: set<Driver>, i: nat)
    requires DistanceTable(order) && i < |SEARCH_RADII_KM|
    ensures SmallestRing(order, ok, i) == [] <==> Nearest(order, ok, 8.0).None?
    ensures SmallestRing(order, ok, i) != [] ==> exists j :: i <= j && IsSmallestRing(order, ok, i, j)
  {
    SmallestRingEmpty(order, ok, i);
    if SmallestRing(order, ok, i) != [] {
      var j := SmallestRingIndex(order, ok, i);
    }
  }

  lemma {:induction false} SmallestRingEmpty(order: seq<Candidate>, ok: set<Driver>, i: nat)
    requires DistanceTable(order) && i < |SEARCH_RADII_KM|
    ensures SmallestRing(order, ok, i) == [] <==> Nearest(order, ok, 8.0).None?
    decreases |SEARCH_RADII_KM| - i
  {
    NearestWidens(order, ok, SEARCH_RADII_KM[i], 8.0);
    if i + 1 < |SEARCH_RADII_KM| {
      SmallestRingEmpty(order, ok, i + 1);
    }
  }

  lemma {:induction false} SmallestRingIndex(order: seq<Candidate>, ok: set<Driver>, i: nat) returns (j: nat)
    requires i < |SEARCH_RADII_KM| && SmallestRing(order, ok, i) != []
    ensures i <= j && IsSmallestRing(order, ok, i, j)
    decreases |SEARCH_RADII_KM| - i
  {
    j := i;
    if Nearest(order, ok, SEARCH_RADII_KM[i]).None? {
      RingWidens(order, ok, i);
      j := SmallestRingIndex(order, ok, i + 1);
      RingSkips(order, ok, i, j);
    }
  }

  lemma RingWidens(order: seq<Candidate>, ok: set<Driver>, i: nat)
    requires i < |SEARCH_RADII_KM| && SmallestRing(order, ok, i) != [] && Nearest(order, ok, SEARCH_RADII_KM[i]).None?
    ensures i + 1 < |SEARCH_RADII_KM| && SmallestRing(order, ok, i) == SmallestRing(order, ok, i + 1)
  {
  }

  lemma RingSkips(order: seq<Candidate>, ok: set<Driver>, i: nat, j: nat)
    requires i < j && IsSmallestRing(order, ok, i + 1, j) && Nearest(order, ok, SEARCH_RADII_KM[i]).None?
    requires SmallestRing(order, ok, i) == SmallestRing(order, ok, i + 1)
    ensures IsSmallestRing(order, ok, i, j)
  {
    forall k | i <= k < j ensures Nearest(order, ok, SEARCH_RADII_KM[k]).None? {
      if k > i { assert i + 1 <= k; }
    }
  }

  /** In figures: 1 km if anybody acceptable is within it, else 3, else 5, else 8. */
  lemma RingsInOrder(order: seq<Candidate>, ok: set<Driver>)
    ensures var within := (km: real) => Keep(WithinKm(order, km), ok);
            SmallestRing(order, ok, 0)
            == if within(1.0) != [] then within(1.0)
               else if within(3.0) != [] then within(3.0)
               else if within(5.0) != [] then within(5.0)
               else within(8.0)
  {
    assert SmallestRing(order, ok, 4) == [];
    LastRings(order, ok);
  }

  lemma LastRings(order: seq<Candidate>, ok: set<Driver>)
    ensures SmallestRing(order, ok, 3) == Keep(WithinKm(order, 8.0), ok)
    ensures var five := Keep(WithinKm(order, 5.0), ok);
            SmallestRing(order, ok, 2) == if five != [] then five else SmallestRing(order, ok, 3)
  {
    assert SmallestRing(order, ok, 4) == [];
  }

  /** The ring from the `i`-th radius on is that of the `j`-th, and the radii before it have nobody. */
  ghost predicate IsSmallestRing(order: seq<Candidate>, ok: set<Driver>, i: nat, j: nat) {
    && j < |SEARCH_RADII_KM|
    && SmallestRing(order, ok, i) == Keep(WithinKm(order, SEARCH_RADII_KM[j]), ok)
    && forall k | i <= k < j :: Nearest(order, ok, SEARCH_RADII_KM[k]).None?
  }

  /** `shown` are the best three by score of the eight nearest in `ring`. */
  ghost predicate TopThreeOfEight(
    ring: seq<Candidate>, profiles: Profiles, ratings: Ratings, now: Time, shown: seq<Driver>)
  {
    var scored := ScoreAll(AtMost(ring, 8), profiles, ratings, now);
    exists r :: StablyRanks(scored, r) && shown == AtMost(Ids(r), 3)
  }

  lemma {:induction false} KeepTable(cs: seq<Candidate>, ok: set<Driver>)
    requires DistanceTable(cs)
    ensures DistanceTable(Keep(cs, ok))
    decreases |cs|
  {
    if cs != [] {
      var n := |cs| - 1;
      KeepTable(cs[..n], ok);
      KeepMembers(cs[..n], ok);
      assert cs[..n] + [cs[n]] == cs;
      TableSnoc(Keep(cs[..n], ok), cs[n], cs[..n]);
    }
  }

  lemma TableSnoc(kept: seq<Candidate>, c: Candidate, before: seq<Candidate>)
    requires DistanceTable(kept) && DistanceTable(before + [c])
    requires forall k | k in kept :: k in before
    ensures DistanceTable(kept + [c])
  {
    forall i | 0 <= i < |kept| ensures kept[i].distanceKm <= c.distanceKm && kept[i].driver != c.driver {
      assert kept[i] in before;
      var m :| 0 <= m < |before| && before[m] == kept[i];
      assert (before + [c])[m] == kept[i] && (before + [c])[|before|] == c;
    }
  }

  lemma RingTable(order: seq<Candidate>, ok: set<Driver>, i: nat)
    requires DistanceTable(order) && i < |SEARCH_RADII_KM| && SmallestRing(order, ok, i) != []
    ensures DistanceTable(SmallestRing(order, ok, i))
  {
    var j := SmallestRingIndex(order, ok, i);
    WithinIsPrefix(order, SEARCH_RADII_KM[j]);
    KeepTable(WithinKm(order, SEARCH_RADII_KM[j]), ok);
  }

  /**
   Of the drivers in the ring, nobody is shown a trip who is outdistanced by somebody who is not, or who
   is shown it after them: the cut to the eight nearest and to the best three included.
   */
  lemma BroadcastKeepsCloserFirst(
    ring: seq<Candidate>, profiles: Profiles, ratings: Ratings, now: Time, shown: seq<Driver>)
    requires DistanceTable(ring) && TopThreeOfEight(ring, profiles, ratings, now, shown)
    ensures CloserFirst(ring, profiles, ratings, shown)
  {
    var eight := AtMost(ring, Trips.DISPATCH_SHORTLIST);
    var scored := ScoreAll(eight, profiles, ratings, now);
    var r :| StablyRanks(scored, r) && shown == AtMost(Ids(r), Trips.BROADCAST_TO);
    RankingKeepsCloserFirst(eight, profiles, ratings, now, r);
    forall far, near, i | far in ring && near in ring && Outdistanced(far, near, profiles, ratings)
                          && 0 <= i < |shown| && shown[i] == far.driver
      ensures near.driver in shown[..i]
    {
      RankedIsListed(eight, profiles, ratings, now, r, i);
      NearerIsListed(ring, far, near);
      assert Ids(r)[i] == far.driver && Ids(r)[..i] == shown[..i];
    }
  }

  lemma RankedIsListed(
    cs: seq<Candidate>, profiles: Profiles, ratings: Ratings, now: Time, r: seq<Scored>, i: nat)
    requires StablyRanks(ScoreAll(cs, profiles, ratings, now), r) && i < |r|
    ensures exists c | c in cs :: c.driver == r[i].driver
  {
    var scored := ScoreAll(cs, profiles, ratings, now);
    RankingMembers(scored, r);
    assert r[i] in scored;
    var m :| 0 <= m < |scored| && scored[m] == r[i];
    assert cs[m] in cs;
  }

  /** Whoever is nearer than one of the eight nearest is one of them. */
  lemma NearerIsListed(ring: seq<Candidate>, far: Candidate, near: Candidate)
    requires DistanceTable(ring) && far in ring && near in ring && near.distanceKm < far.distanceKm
    requires exists c | c in AtMost(ring, Trips.DISPATCH_SHORTLIST) :: c.driver == far.driver
    ensures far in AtMost(ring, Trips.DISPATCH_SHORTLIST) && near in AtMost(ring, Trips.DISPATCH_SHORTLIST)
  {
    var eight := AtMost(ring, Trips.DISPATCH_SHORTLIST);
    var c :| c in eight && c.driver == far.driver;
    var a :| 0 <= a < |eight| && eight[a] == c;
    var b :| 0 <= b < |ring| && ring[b] == far;
    var n :| 0 <= n < |ring| && ring[n] == near;
    assert ring[a] == c;
    assert a == b;
    assert n < a;
    assert eight[n] == near;
  }

  /** The search of TripsService: who a trip is broadcast to, whatever the passes evict on the way. */
  method FindBroadcast(
    location: LocationService, order: seq<Candidate>, testFleet: bool, excluded: set<Driver>,
    profiles: Profiles, ratings: Ratings, now: Time)
    returns (shown: seq<Driver>)
    requires location.Valid() && DistanceTable(order)
    modifies location`geo, location`lastSeen
    ensures location.Valid()
    ensures var ring := SmallestRing(order, old(location.Acceptable(now, testFleet)) - excluded, 0);
            && TopThreeOfEight(ring, profiles, ratings, now, shown) && (shown == [] <==> ring == [])
            && CloserFirst(ring, profiles, ratings, shown)
    ensures location.Acceptable(now, testFleet) == old(location.Acceptable(now, testFleet))
  {
    ghost var ok := location.Acceptable(now, testFleet);
    for i := 0 to |SEARCH_RADII_KM|
      invariant location.Valid() && location.Acceptable(now, testFleet) == ok
      invariant SmallestRing(order, ok - excluded, 0) == SmallestRing(order, ok - excluded, i)
    {
      var nearby := location.FindNearbyDrivers(order, SEARCH_RADII_KM[i], testFleet, now);
      var eligible := Unexcluded(nearby, excluded);
      NotExcluded(WithinKm(order, SEARCH_RADII_KM[i]), ok, excluded);
      if |eligible| == 0 { continue; }
      var ranked, best := RankCandidates(AtMost(eligible, Trips.DISPATCH_SHORTLIST), profiles, ratings, now);
      if |ranked| > 0 {
        shown := AtMost(ranked, Trips.BROADCAST_TO);
        RingTable(order, ok - excluded, 0);
        BroadcastKeepsCloserFirst(SmallestRing(order, ok - excluded, 0), profiles, ratings, now, shown);
        return;
      }
    }
    ghost var none := ScoreAll([], profiles, ratings, now);
    assert StablyRanks(none, []) && Ids([]) == [];
    shown := [];
  }
}
