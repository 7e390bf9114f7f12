/** LocationService: the geo set, the last-seen keys, and the batched filter every match goes through. */
module Location {
  import opened Domain
  import opened Ranking
  import opened Wallet
  import opened Eligibility

  // ---- Lists of candidates ----

  /** The candidates whose driver is in `ok`, in their order. */
  function Keep(cs: seq<Candidate>, ok: set<Driver>): (r: seq<Candidate>)
    decreases |cs|
  {
    if cs == [] then []
    else Keep(cs[..|cs| - 1], ok) + if cs[|cs| - 1].driver in ok then [cs[|cs| - 1]] else []
  }

  /** The candidates at most `km` away, in their order. */
  function WithinKm(cs: seq<Candidate>, km: real): (r: seq<Candidate>)
    decreases |cs|
  {
    if cs == [] then []
    else WithinKm(cs[..|cs| - 1], km) + if cs[|cs| - 1].distanceKm <= km then [cs[|cs| - 1]] else []
  }

  function DriversOf(cs: seq<Candidate>): (r: seq<Driver>) {
    seq(|cs|, i requires 0 <= i < |cs| => cs[i].driver)
  }

  /** Every known position by ascending distance from the pickup: what GEOSEARCH ... ASC orders by. */
  ghost predicate DistanceTable(order: seq<Candidate>) {
    && (forall i, j | 0 <= i < j < |order| :: order[i].distanceKm <= order[j].distanceKm)
    && OneEach(order)
  }

  lemma {:induction false} KeepMembers(cs: seq<Candidate>, ok: set<Driver>)
    ensures forall c :: c in Keep(cs, ok) <==> c in cs && c.driver in ok
    decreases |cs|
  {
    if cs != [] {
      var n := |cs| - 1;
      KeepMembers(cs[..n], ok);
      assert forall c :: c in cs <==> c in cs[..n] || c == cs[n];
    }
  }

  lemma {:induction false} WithinMembers(cs: seq<Candidate>, km: real)
    ensures forall c :: c in WithinKm(cs, km) <==> c in cs && c.distanceKm <= km
    decreases |cs|
  {
    if cs != [] {
      var n := |cs| - 1;
      WithinMembers(cs[..n], km);
      assert forall c :: c in cs <==> c in cs[..n] || c == cs[n];
    }
  }

  lemma KeepSnoc(cs: seq<Candidate>, c: Candidate, ok: set<Driver>)
    ensures Keep(cs + [c], ok) == Keep(cs, ok) + if c.driver in ok then [c] else []
  {
    assert (cs + [c])[..|cs|] == cs;
  }

  /** Sieving twice is sieving for both. */
  lemma {:induction false} KeepTwice(cs: seq<Candidate>, a: set<Driver>, b: set<Driver>)
    ensures Keep(Keep(cs, a), b) == Keep(cs, a * b)
    decreases |cs|
  {
    if cs != [] {
      var n := |cs| - 1;
      KeepTwice(cs[..n], a, b);
      if cs[n].driver in a {
        var kept := Keep(cs[..n], a);
        assert Keep(cs, a) == kept + [cs[n]];
        KeepSnoc(kept, cs[n], b);
      } else {
        assert Keep(cs, a) == Keep(cs[..n], a);
      }
    }
  }

  /** Only the drivers on the list matter to a sieve. */
  lemma {:induction false} KeepDependsOnListed(cs: seq<Candidate>, a: set<Driver>, b: set<Driver>)
    requires forall c | c in cs :: c.driver in a <==> c.driver in b
    ensures Keep(cs, a) == Keep(cs, b)
    decreases |cs|
  {
    if cs != [] {
      assert cs[|cs| - 1] in cs;
      KeepDependsOnListed(cs[..|cs| - 1], a, b);
    }
  }

  // ---- The service ----

  class LocationService {
    var geo: set<Driver>
    var lastSeen: map<Driver, Stamp>
    var db: World

    /** Keys are only ever written with the fifteen-minute expiry. */
    ghost predicate Valid()
      reads this
    {
      forall d | d in lastSeen :: lastSeen[d].expireAt == lastSeen[d].at + LASTSEEN_TTL_MS
    }

    /** The drivers on the map whom the pointwise rule accepts. */
    ghost function Acceptable(now: Time, testFleet: bool): (r: set<Driver>)
      reads this
    {
      set d | d in geo && Eligible(db, lastSeen, now, testFleet, d)
    }

    constructor (db: World)
      ensures Valid() && geo == {} && this.db == db
    {
      geo, lastSeen, this.db := {}, map[], db;
    }

    /** A ping puts the driver on the map and makes them fresh for three minutes. */
    method UpdateDriverLocation(driverId: Driver, now: Time)
      requires Valid()
      modifies this`geo, this`lastSeen
      ensures Valid() && geo == old(geo) + {driverId}
      ensures forall later: Time | now <= later ::
                Fresh(lastSeen, later, driverId) <==> later <= now + 180_000
      ensures forall d | d != driverId :: d in lastSeen <==> d in old(lastSeen)
      ensures forall d | d != driverId && d in lastSeen :: lastSeen[d] == old(lastSeen)[d]
    {
      geo := geo + {driverId};
      lastSeen := lastSeen[driverId := Stamp(now, now + LASTSEEN_TTL_MS)];
    }

    method RemoveDriver(driverId: Driver)
      requires Valid()
      modifies this`geo, this`lastSeen
      ensures Valid() && geo == old(geo) - {driverId} && lastSeen == old(lastSeen) - {driverId}
    {
      geo := geo - {driverId};
      lastSeen := lastSeen - {driverId};
    }

    method RemoveDrivers(driverIds: seq<Driver>)
      requires Valid()
      modifies this`geo, this`lastSeen
      ensures Valid() && geo == old(geo) - SetOf(driverIds) && lastSeen == old(lastSeen) - SetOf(driverIds)
    {
      for i := 0 to |driverIds|
        invariant Valid()
        invariant geo == old(geo) - SetOf(driverIds[..i]) && lastSeen == old(lastSeen) - SetOf(driverIds[..i])
      {
        assert SetOf(driverIds[..i + 1]) == SetOf(driverIds[..i]) + {driverIds[i]};
        RemoveDriver(driverIds[i]);
      }
      assert driverIds[..|driverIds|] == driverIds;
    }

    /**
     One MGET, then a loop that sorts the candidates into fresh and stale; the stale leave the map. The key
     may have expired, but the answer is the age of the last ping alone.
     */
    method FilterFreshFixes(candidates: seq<Candidate>, now: Time) returns (recent: seq<Candidate>)
      requires Valid()
      modifies this`geo, this`lastSeen
      ensures Valid()
      ensures var ok := RecentAmong(candidates, old(lastSeen), now);
              var stale := SetOf(DriversOf(candidates)) - ok;
              recent == Keep(candidates, ok) && geo == old(geo) - stale && lastSeen == old(lastSeen) - stale
    {
      ghost var ok := FreshAmong(candidates, lastSeen, now);
      FreshIsRecent(candidates, now);
      recent := [];
      var stale := [];
      for i := 0 to |candidates|
        invariant recent == Keep(candidates[..i], ok)
        invariant SetOf(stale) == SetOf(DriversOf(candidates[..i])) - ok
        invariant Valid() && unchanged(this)
      {
        var c := candidates[i];
        assert candidates[..i + 1] == candidates[..i] + [c];
        KeepSnoc(candidates[..i], c, ok);
        assert DriversOf(candidates[..i + 1]) == DriversOf(candidates[..i]) + [c.driver];
        SetOfSnoc(DriversOf(candidates[..i]), c.driver);
        SetOfSnoc(stale, c.driver);
        assert DriversOf(candidates)[i] == c.driver;
        var raw := Seen(lastSeen, now, c.driver);
        if raw.Some? && now - raw.value <= MAX_FIX_AGE_MS {
          recent := recent + [c];
        } else {
          stale := stale + [c.driver];
        }
      }
      assert candidates[..|candidates|] == candidates;
      RemoveDrivers(stale);
    }

    lemma FreshIsRecent(candidates: seq<Candidate>, now: Time)
      requires Valid()
      ensures FreshAmong(candidates, lastSeen, now) == RecentAmong(candidates, lastSeen, now)
    {
      forall d ensures Fresh(lastSeen, now, d) <==> Recent(lastSeen, now, d) { TtlNeverMatters(lastSeen, now, d); }
    }

    /** One query per job table, then a loop that collects the drivers of the rows it returned. */
    method DriversOnAJob(driverIds: seq<Driver>) returns (busy: set<Driver>)
      ensures forall d :: d in busy <==> d in driverIds && Busy(db, d)
    {
      busy := {};
      for i := 0 to |db.jobs|
        invariant forall d :: d in busy <==>
                    d in driverIds && exists k | 0 <= k < i :: db.jobs[k].driver == Some(d) && Occupies(db.jobs[k])
      {
        var row := db.jobs[i];
        if row.driver.Some? && row.driver.value in driverIds && Occupies(row) {
          busy := busy + {row.driver.value};
        }
      }
    }

    static method WithoutAny(ids: seq<Driver>, kept: set<Driver>) returns (rest: seq<Driver>)
      ensures SetOf(rest) == SetOf(ids) - kept
    {
      rest := [];
      for i := 0 to |ids|
        invariant SetOf(rest) == SetOf(ids[..i]) - kept
      {
        assert ids[..i + 1] == ids[..i] + [ids[i]];
        SetOfSnoc(ids[..i], ids[i]);
        SetOfSnoc(rest, ids[i]);
        if ids[i] !in kept { rest := rest + [ids[i]]; }
      }
      assert ids[..|ids|] == ids;
    }

    /** The database half of the gate: who is allowed, and who keeps their place on the map although not allowed. */
    method Gate(ids: seq<Driver>, wantTestFleet: bool) returns (allowedIds: set<Driver>, keepInGeoSet: set<Driver>)
      ensures forall d :: d in allowedIds <==>
                d in ids && AllowedByDb(db, wantTestFleet, d) && !OverLimit(db, d) && !Busy(db, d)
      ensures forall d :: d in keepInGeoSet <==> d in ids && (OverLimit(db, d) || Busy(db, d))
    {
      allowedIds := set id | id in ids && AllowedByDb(db, wantTestFleet, id);
      var overLimit := DriversOverCreditLimit(db.ledger, ids, db.creditLimit);
      allowedIds := allowedIds - SetOf(overLimit);
      var busy := DriversOnAJob(ids);
      allowedIds := allowedIds - busy;
      keepInGeoSet := SetOf(overLimit) + busy;
    }

    /**
     The batched gate: exactly the candidates the pointwise rule accepts, in the order they came, and
     exactly the evictable ones dropped from the map.
     */
    method FilterEligible(candidates: seq<Candidate>, wantTestFleet: bool, now: Time) returns (found: seq<Candidate>)
      requires Valid()
      modifies this`geo, this`lastSeen
      ensures Valid()
      ensures found == Keep(candidates, EligibleAmong(candidates, db, old(lastSeen), now, wantTestFleet))
      ensures var gone := EvictableAmong(candidates, db, old(lastSeen), now, wantTestFleet);
              geo == old(geo) - gone && lastSeen == old(lastSeen) - gone
    {
      if candidates == [] { return []; }
      ghost var up := FreshAmong(candidates, lastSeen, now);
      FreshIsRecent(candidates, now);
      ghost var before := lastSeen;
      var recent := FilterFreshFixes(candidates, now);
      IdsOfKept(candidates, up);
      if recent == [] {
        NobodyFresh(candidates, db, before, now, wantTestFleet);
        return [];
      }
      var ids := DriversOf(recent);
      var allowedIds, keepInGeoSet := Gate(ids, wantTestFleet);
      var rejected := WithoutAny(ids, allowedIds);
      var evicted := WithoutAny(rejected, keepInGeoSet);
      RemoveDrivers(evicted);
      KeepTwice(candidates, up, allowedIds);
      found := Keep(recent, allowedIds);
      assert up * allowedIds == EligibleAmong(candidates, db, before, now, wantTestFleet);
      assert EvictableAmong(candidates, db, before, now, wantTestFleet)
          == (SetOf(DriversOf(candidates)) - up) + SetOf(evicted);
    }

    /**
     GEOSEARCH then the gate. The answer is the acceptable drivers within the radius, nearest first; and
     whoever the search evicts, it changes nothing for later searches of the same fleet at this instant.
     */
    method FindNearbyDrivers(order: seq<Candidate>, radiusKm: real, wantTestFleet: bool, now: Time)
      returns (nearby: seq<Candidate>)
      requires Valid()
      modifies this`geo, this`lastSeen
      ensures Valid()
      ensures nearby == Keep(WithinKm(order, radiusKm), old(Acceptable(now, wantTestFleet)))
      ensures forall c | c in nearby :: Recent(old(lastSeen), now, c.driver)
      ensures Acceptable(now, wantTestFleet) == old(Acceptable(now, wantTestFleet))
      ensures forall d :: d in geo <==> d in old(geo) && !(d in DriversOf(WithinKm(order, radiusKm))
                                          && Evictable(db, old(lastSeen), now, wantTestFleet, d))
    {
      var candidates := Keep(WithinKm(order, radiusKm), geo);
      IdsOfKept(WithinKm(order, radiusKm), geo);
      ghost var seen, was, ok := lastSeen, geo, Acceptable(now, wantTestFleet);
      nearby := FilterEligible(candidates, wantTestFleet, now);
      ghost var among := EligibleAmong(candidates, db, seen, now, wantTestFleet);
      KeepTwice(WithinKm(order, radiusKm), was, among);
      forall c | c in WithinKm(order, radiusKm) ensures c.driver in was * among <==> c.driver in ok {
        ListedDriver(WithinKm(order, radiusKm), c.driver);
      }
      KeepDependsOnListed(WithinKm(order, radiusKm), was * among, ok);
      ghost var gone := EvictableAmong(candidates, db, seen, now, wantTestFleet);
      StillAcceptable(seen, gone, now, wantTestFleet);
      KeepMembers(WithinKm(order, radiusKm), ok);
      forall c | c in nearby ensures Recent(seen, now, c.driver) { TtlNeverMatters(seen, now, c.driver); }
    }

    /** Dropping drivers the rule rejects, and their keys, leaves the acceptable set as it was. */
    lemma StillAcceptable(seen: map<Driver, Stamp>, gone: set<Driver>, now: Time, testFleet: bool)
      requires lastSeen == seen - gone && geo !! gone
      requires forall d | d in gone :: Evictable(db, seen, now, testFleet, d)
      ensures Acceptable(now, testFleet) == set d | d in geo + gone && Eligible(db, seen, now, testFleet, d)
    {
      forall d | d in geo
        ensures Eligible(db, lastSeen, now, testFleet, d) <==> Eligible(db, seen, now, testFleet, d) { }
      forall d | d in gone ensures !Eligible(db, seen, now, testFleet, d) {
        if Fresh(seen, now, d) { MerelyBusyIsSpared(db, seen, now, testFleet, d); }
      }
    }

    /** The same search narrowed to one queue. */
    method FindNearbyDriversForMode(order: seq<Candidate>, radiusKm: real, mode: Mode, wantTestFleet: bool, now: Time)
      returns (nearby: seq<Candidate>)
      requires Valid()
      modifies this`geo, this`lastSeen
      ensures Valid()
      ensures nearby == Keep(WithinKm(order, radiusKm), old(InQueue(mode, now, wantTestFleet)))
      ensures InQueue(mode, now, wantTestFleet) == old(InQueue(mode, now, wantTestFleet))
      ensures forall c | c in nearby :: (if c.driver in db.modes then db.modes[c.driver] else RIDE) == mode
    {
      ghost var ok := Acceptable(now, wantTestFleet);
      var candidates := FindNearbyDrivers(order, radiusKm, wantTestFleet, now);
      IdsOfKept(WithinKm(order, radiusKm), ok);
      var eligible := set d | d in DriversOf(candidates) && ModeIn(db.modes, d) == mode && d in db.online;
      KeepTwice(WithinKm(order, radiusKm), ok, eligible);
      forall c | c in WithinKm(order, radiusKm)
        ensures c.driver in ok * eligible <==> c.driver in InQueue(mode, now, wantTestFleet)
      {
        ListedDriver(WithinKm(order, radiusKm), c.driver);
      }
      KeepDependsOnListed(WithinKm(order, radiusKm), ok * eligible, InQueue(mode, now, wantTestFleet));
      nearby := Keep(candidates, eligible);
      KeepMembers(candidates, eligible);
    }

    ghost function InQueue(mode: Mode, now: Time, testFleet: bool): (r: set<Driver>)
      reads this
    {
      set d | d in Acceptable(now, testFleet) && ModeIn(db.modes, d) == mode
    }
  }

  /** The listed drivers whose last ping is at most three minutes old. */
  function RecentAmong(cs: seq<Candidate>, seen: map<Driver, Stamp>, now: Time): (r: set<Driver>) {
    set d | d in DriversOf(cs) && Recent(seen, now, d)
  }

  function FreshAmong(cs: seq<Candidate>, seen: map<Driver, Stamp>, now: Time): (r: set<Driver>) {
    set d | d in DriversOf(cs) && Fresh(seen, now, d)
  }

  function EligibleAmong(
    cs: seq<Candidate>, w: World, seen: map<Driver, Stamp>, now: Time, testFleet: bool): (r: set<Driver>)
  {
    set d | d in DriversOf(cs) && Eligible(w, seen, now, testFleet, d)
  }

  function EvictableAmong(
    cs: seq<Candidate>, w: World, seen: map<Driver, Stamp>, now: Time, testFleet: bool): (r: set<Driver>)
  {
    set d | d in DriversOf(cs) && Evictable(w, seen, now, testFleet, d)
  }

  lemma {:induction false} KeepNobody(cs: seq<Candidate>, ok: set<Driver>)
    ensures Keep(cs, ok) == [] <==> forall d | d in DriversOf(cs) :: d !in ok
  {
    IdsOfKept(cs, ok);
    if Keep(cs, ok) != [] {
      assert DriversOf(Keep(cs, ok))[0] in DriversOf(Keep(cs, ok));
    }
  }

  lemma NobodyFresh(cs: seq<Candidate>, w: World, seen: map<Driver, Stamp>, now: Time, testFleet: bool)
    requires Keep(cs, FreshAmong(cs, seen, now)) == []
    ensures Keep(cs, EligibleAmong(cs, w, seen, now, testFleet)) == []
    ensures EvictableAmong(cs, w, seen, now, testFleet)
         == SetOf(DriversOf(cs)) == SetOf(DriversOf(cs)) - FreshAmong(cs, seen, now)
  {
    KeepNobody(cs, FreshAmong(cs, seen, now));
    KeepNobody(cs, EligibleAmong(cs, w, seen, now, testFleet));
  }

  lemma IdsOfKept(cs: seq<Candidate>, ok: set<Driver>)
    ensures forall d :: d in DriversOf(Keep(cs, ok)) <==> d in DriversOf(cs) && d in ok
    ensures forall d :: d in DriversOf(cs) <==> exists c | c in cs :: c.driver == d
  {
    KeepMembers(cs, ok);
    var kept := Keep(cs, ok);
    forall d ensures d in DriversOf(cs) <==> exists c | c in cs :: c.driver == d { ListedDriver(cs, d); }
    forall d ensures d in DriversOf(kept) <==> d in DriversOf(cs) && d in ok {
      ListedDriver(kept, d);
      ListedDriver(cs, d);
    }
  }

  lemma ListedDriver(cs: seq<Candidate>, d: Driver)
    ensures d in DriversOf(cs) <==> exists c | c in cs :: c.driver == d
  {
    if d in DriversOf(cs) {
      var i :| 0 <= i < |cs| && DriversOf(cs)[i] == d;
      assert cs[i] in cs;
    }
    if c :| c in cs && c.driver == d {
      var i :| 0 <= i < |cs| && cs[i] == c;
      assert DriversOf(cs)[i] == d;
    }
  }

  lemma SetOfSnoc(s: seq<Driver>, d: Driver)
    ensures SetOf(s + [d]) == SetOf(s) + {d}
  {
  }
}
