/** Progress of trips: no lost wake-up, a cascade that ends, and the clock-driven escalation ladder. */
module TripsLiveness {
  import opened Domain
  import opened Exclusion
  import opened Commission
  import opened Ranking
  import opened Trips
  import opened TripsSafety

  function LastRound(t: Trip): (r: int) {
    |t.rounds| - 1
  }

  // ---- Offer timers ----

  /** Pending offer timers are for the broadcast in force and no other. */
  ghost predicate TimerInv(t: Trip) {
    forall n | n in t.timers ::
      && n < |t.rounds| && t.timers[n] == t.rounds[n]
      && t.rounds[n].at <= t.now <= t.rounds[n].at + OFFER_TIMEOUT_MS + t.lateness
      && (Looking(t.row.status) ==> t.row.status == MATCHING && n == LastRound(t))
  }

  ghost predicate WakeInv(t: Trip) {
    && (t.row.status == MATCHING && t.rounds != [] ==> LastRound(t) in t.timers)
    && (t.row.status == REQUESTED ==> t.passes != [] || t.row.noDriverFoundAt.Some?)
  }

  // ---- Rounds ----

  ghost predicate ShownExcluded(t: Trip, n: nat)
    requires n <= |t.rounds|
  {
    forall i, d | 0 <= i < n && d in t.rounds[i].shown :: d in t.excluded.members
  }

  ghost predicate FreshInv(t: Trip) {
    && (forall a, b, d | 0 <= a < b < |t.rounds| && d in t.rounds[a].shown :: d !in t.rounds[b].shown)
    && (forall a | 0 <= a < |t.rounds| :: t.rounds[a].shown != [])
    && (t.row.status == REQUESTED && t.passes != [] ==>
          && t.passes[0] <= t.now <= t.passes[0] + t.lateness
          && (t.rounds != [] ==>
                ShownExcluded(t, |t.rounds|) && t.passes[0] + EXCLUDED_TTL_MS <= t.excluded.expireAt))
    && (t.row.status == MATCHING && |t.rounds| > 1 ==>
          && ShownExcluded(t, |t.rounds| - 1)
          && t.rounds[LastRound(t)].at + EXCLUDED_TTL_MS <= t.excluded.expireAt + t.lateness)
  }

  /** A pass, an offer and their delays fit in the life of the exclusion set. */
  predicate Prompt(lateness: nat) {
    OFFER_TIMEOUT_MS + 2 * lateness < EXCLUDED_TTL_MS
  }

  /** Everything a run keeps: the wake-ups unless the process crashes, the freshness if it is also prompt. */
  ghost predicate Alive(t: Trip) {
    && RowInv(t) && TimerInv(t)
    && (!t.crashed ==> WakeInv(t))
    && (!t.crashed && Prompt(t.lateness) ==> FreshInv(t))
  }

  /** The events that neither offer, exclude nor time out, nor move the clock. */
  predicate Quiet(e: Event) {
    !e.MatchPass? && !e.Decline? && !e.OfferTimeout? && !e.Crash? && !e.Tick?
  }

  lemma PendingUntouched(t: Trip, e: Event)
    requires Quiet(e)
    ensures var u := Step(t, e);
            && u.timers == t.timers && u.rounds == t.rounds && u.passes == t.passes
            && u.now == t.now && u.lateness == t.lateness && u.crashed == t.crashed
  {
  }

  lemma SearchUntouched(t: Trip, e: Event)
    requires RowInv(t) && Quiet(e) && !e.OpsTimer?
    ensures var u := Step(t, e);
            Looking(u.row.status) ==>
              && u.row.status == t.row.status && u.row.noDriverFoundAt == t.row.noDriverFoundAt
              && u.excluded == t.excluded
  {
  }

  lemma OpsTimerUntouched(t: Trip, due: Time)
    ensures var u := Step(t, OpsTimer(due));
            && u.row.status == t.row.status && u.row.noDriverFoundAt == t.row.noDriverFoundAt
            && u.excluded == t.excluded
  {
    EscalationTouchesOnlyStamps(t.row, t.now);
  }

  lemma AliveQuiet(t: Trip, e: Event)
    requires Alive(t) && Quiet(e)
    ensures Alive(Step(t, e))
  {
    RowStep(t, e);
    PendingUntouched(t, e);
    if e.OpsTimer? { OpsTimerUntouched(t, e.due); } else { SearchUntouched(t, e); }
  }

  /** A search that returns nobody in the live exclusion set keeps the trip alive. */
  lemma AliveSearch(t: Trip, shown: seq<Driver>)
    requires Alive(t) && t.passes != [] && Looking(t.row.status)
    requires forall d | d in shown :: d !in t.excluded.Live(t.now)
    ensures var u := AfterSearch(t.(passes := t.passes[1..]), shown);
            && RowKept(t, u)
            && Alive(u)
            && (shown != [] ==> u.rounds == t.rounds + [Round(shown, t.now)])
            && (shown == [] ==> u.rounds == t.rounds)
            && (!t.crashed && Prompt(t.lateness) ==>
                  forall a, d | 0 <= a < |t.rounds| && d in t.rounds[a].shown :: d !in shown)
  {
    if shown == [] {
      EscalationTouchesOnlyStamps(t.row.(noDriverFoundAt := OrElse(t.row.noDriverFoundAt, t.now)), t.now);
    }
  }

  lemma AliveMatchPass(t: Trip, nearby: seq<seq<Scored>>)
    requires Alive(t)
    ensures Alive(AfterMatchPass(t, nearby))
    ensures var u := AfterMatchPass(t, nearby);
            u.rounds != t.rounds ==>
              t.rounds <= u.rounds && |u.rounds| == |t.rounds| + 1 && NewRound(t, u.rounds[|t.rounds|].shown, nearby)
  {
    if t.passes != [] && Looking(t.row.status) {
      ShownAreFree(nearby, t.excluded.Live(t.now));
      AliveSearch(t, ToShow(nearby, t.excluded.Live(t.now)));
    }
  }

  /** A round is shown to somebody, from the search, and (in a prompt run without a crash) to nobody shown before. */
  ghost predicate NewRound(t: Trip, shown: seq<Driver>, nearby: seq<seq<Scored>>) {
    && shown != []
    && (forall d | d in shown :: exists i, c | 0 <= i < |nearby| && c in nearby[i] :: c.driver == d)
    && (!t.crashed && Prompt(t.lateness) ==> forall a, d | 0 <= a < |t.rounds| && d in t.rounds[a].shown :: d !in shown)
  }

  lemma AliveDecline(t: Trip, d: Driver)
    requires Alive(t)
    ensures Alive(Step(t, Decline(d)))
  {
    RowStep(t, Decline(d));
  }

  lemma AliveOfferTimeout(t: Trip, n: nat)
    requires Alive(t)
    ensures Alive(AfterOfferTimeout(t, n))
  {
    RowTimer(t, OfferTimeout(n));
    EscalationTouchesOnlyStamps(t.row.(status := REQUESTED), t.now);
    if n in t.timers && !t.crashed && Prompt(t.lateness) && t.row.status == MATCHING {
      AddAllMembers(t.excluded, t.now, t.timers[n].shown);
    }
  }

  lemma AliveTick(t: Trip, ms: nat)
    requires Alive(t)
    ensures Alive(Step(t, Tick(ms)))
  {
  }

  lemma CrashIsFinal(t: Trip, e: Event)
    requires t.crashed
    ensures Step(t, e).crashed
  {
  }

  lemma AliveStep(t: Trip, e: Event)
    requires Alive(t)
    ensures Alive(Step(t, e))
  {
    match e
    case MatchPass(nearby) => AliveMatchPass(t, nearby);
    case Decline(d) => AliveDecline(t, d);
    case OfferTimeout(n) => AliveOfferTimeout(t, n);
    case Tick(ms) => AliveTick(t, ms);
    case Crash =>
    case _ => AliveQuiet(t, e);
  }

  lemma {:induction false} AliveRun(t: Trip, es: seq<Event>)
    requires Alive(t)
    ensures Alive(Run(t, es))
    decreases |es|
  {
    if es != [] {
      var n := |es| - 1;
      AliveRun(t, es[..n]);
      AliveStep(Run(t, es[..n]), es[n]);
    }
  }

  lemma NewTripAlive(id: nat, isTest: bool, fare: Money, tip: Option<Money>, now: Time, lateness: nat)
    ensures var t := CreateTrip(id, isTest, fare, tip, now, lateness);
            Alive(t) && RowInv(t) && t.rounds == [] && t.lateness == lateness && !t.crashed
  {
  }

  /**
   No trip is silently stuck. Without a crash, a MATCHING trip has exactly one pending offer timer, the one
   of the broadcast in force, and a REQUESTED trip either has a match pass under way or is marked
   noDriverFoundAt.
   */
  lemma {:induction false} NeverSilentlyStuck(
    id: nat, isTest: bool, fare: Money, tip: Option<Money>, now: Time, lateness: nat, es: seq<Event>)
    ensures var t := Run(CreateTrip(id, isTest, fare, tip, now, lateness), es);
            !t.crashed ==>
              && (t.row.status == MATCHING ==>
                    t.rounds != [] && t.timers == map[LastRound(t) := t.rounds[LastRound(t)]])
              && (t.row.status == REQUESTED ==> t.timers == map[] && (|t.passes| == 1 || t.row.noDriverFoundAt.Some?))
  {
    NewTripAlive(id, isTest, fare, tip, now, lateness);
    AliveRun(CreateTrip(id, isTest, fare, tip, now, lateness), es);
  }

  // ---- What nobody retries ----

  /** A match pass that runs here finds nobody. */
  ghost predicate SearchFails(t: Trip, nearby: seq<seq<Scored>>) {
    t.passes != [] && Looking(t.row.status) && ToShow(nearby, t.excluded.Live(t.now)) == []
  }

  /** Waiting for a driver with no search under way. */
  predicate Waiting(t: Trip) {
    t.row.status == REQUESTED && t.passes == []
  }

  lemma WaitingComesFrom(t: Trip, e: Event)
    requires RowInv(t) && !Step(t, e).crashed && Waiting(Step(t, e))
    ensures !t.crashed
    ensures Waiting(t) || (e.MatchPass? && SearchFails(t, e.nearby))
    ensures Step(t, e).rounds == t.rounds
    ensures e.MatchPass? && SearchFails(t, e.nearby) ==> Step(t, e).row.noDriverFoundAt.Some?
    ensures Waiting(t) && t.row.noDriverFoundAt.Some? ==> Step(t, e).row.noDriverFoundAt == t.row.noDriverFoundAt
  {
    EscalationTouchesOnlyStamps(t.row.(noDriverFoundAt := OrElse(t.row.noDriverFoundAt, t.now)), t.now);
    if Quiet(e) {
      PendingUntouched(t, e);
      if e.OpsTimer? { OpsTimerUntouched(t, e.due); } else { SearchUntouched(t, e); }
    }
  }

  /** The run ends in a stretch of waiting that began with a match pass that found nobody; the trip is marked. */
  ghost predicate WaitingSinceFailure(t: Trip, es: seq<Event>)
    decreases |es|
  {
    && es != [] && Waiting(Run(t, es)) && Run(t, es).row.noDriverFoundAt.Some?
    && Run(t, es).rounds == Run(t, es[..|es| - 1]).rounds
    && var n := |es| - 1;
       (es[n].MatchPass? && SearchFails(Run(t, es[..n]), es[n].nearby)) || WaitingSinceFailure(t, es[..n])
  }

  lemma {:induction false} LastPassOf(t: Trip, es: seq<Event>)
    requires RowInv(t) && !Waiting(t) && !Run(t, es).crashed && Waiting(Run(t, es))
    ensures WaitingSinceFailure(t, es)
    decreases |es|
  {
    var n := |es| - 1;
    RowRun(t, es[..n]);
    WaitingComesFrom(Run(t, es[..n]), es[n]);
    if Waiting(Run(t, es[..n])) { LastPassOf(t, es[..n]); }
  }

  /**
   A REQUESTED trip with no pass under way is one whose last pass found nobody; it is marked and has waited
   since.
   */
  lemma LastPassFoundNobody(
    id: nat, isTest: bool, fare: Money, tip: Option<Money>, now: Time, lateness: nat, es: seq<Event>)
    ensures var t0 := CreateTrip(id, isTest, fare, tip, now, lateness);
            !Run(t0, es).crashed && Waiting(Run(t0, es)) ==> WaitingSinceFailure(t0, es)
  {
    var t0 := CreateTrip(id, isTest, fare, tip, now, lateness);
    NewTripAlive(id, isTest, fare, tip, now, lateness);
    if !Run(t0, es).crashed && Waiting(Run(t0, es)) { LastPassOf(t0, es); }
  }

  lemma WaitingStep(t: Trip, e: Event)
    requires RowInv(t) && Waiting(t) && !e.ManualAssign? && !e.Cancel?
    ensures Waiting(Step(t, e)) && Step(t, e).rounds == t.rounds && Step(t, e).row.driver == t.row.driver
  {
    EscalationTouchesOnlyStamps(t.row, t.now);
  }

  /** From then on nothing but the ops desk or a cancellation moves the trip, whoever comes online. */
  lemma {:induction false} UnmatchedStaysUnmatched(t: Trip, es: seq<Event>)
    requires RowInv(t) && Waiting(t)
    requires forall i | 0 <= i < |es| :: !es[i].ManualAssign? && !es[i].Cancel?
    ensures Waiting(Run(t, es)) && Run(t, es).rounds == t.rounds && Run(t, es).row.driver.None?
    decreases |es|
  {
    if es != [] {
      var n := |es| - 1;
      UnmatchedStaysUnmatched(t, es[..n]);
      RowRun(t, es[..n]);
      WaitingStep(Run(t, es[..n]), es[n]);
    }
  }

  // ---- A decline is for good ----

  /** `d` is in the exclusion set, and the set outlives the round in force or the pass under way. */
  ghost predicate Barred(t: Trip, d: Driver) {
    !t.crashed && Looking(t.row.status) ==>
      && d in t.excluded.members
      && (t.row.status == REQUESTED && t.passes != [] ==> t.passes[0] + EXCLUDED_TTL_MS <= t.excluded.expireAt)
      && (t.row.status == MATCHING && t.rounds != [] ==>
            t.rounds[LastRound(t)].at + EXCLUDED_TTL_MS <= t.excluded.expireAt + t.lateness)
  }

  /** No round from the `from`-th on shows the trip to `d`. */
  ghost predicate NotShownFrom(t: Trip, from: nat, d: Driver) {
    forall i | from <= i < |t.rounds| :: d !in t.rounds[i].shown
  }

  lemma BarredMatchPass(t: Trip, nearby: seq<seq<Scored>>, d: Driver)
    requires Alive(t) && Prompt(t.lateness) && Barred(t, d) && !t.crashed
    ensures Barred(AfterMatchPass(t, nearby), d)
    ensures NotShownFrom(AfterMatchPass(t, nearby), |t.rounds|, d)
  {
    if t.passes != [] && Looking(t.row.status) {
      ShownAreFree(nearby, t.excluded.Live(t.now));
      EscalationTouchesOnlyStamps(t.row.(noDriverFoundAt := OrElse(t.row.noDriverFoundAt, t.now)), t.now);
    }
  }

  lemma BarredOfferTimeout(t: Trip, n: nat, d: Driver)
    requires Alive(t) && Prompt(t.lateness) && Barred(t, d) && !t.crashed
    ensures Barred(AfterOfferTimeout(t, n), d)
  {
    EscalationTouchesOnlyStamps(t.row.(status := REQUESTED), t.now);
    if n in t.timers && t.row.status == MATCHING {
      AddAllMembers(t.excluded, t.now, t.timers[n].shown);
    }
  }

  lemma BarredDecline(t: Trip, other: Driver, d: Driver)
    requires Alive(t) && Prompt(t.lateness) && (Barred(t, d) || (other == d && t.row.status == MATCHING))
    ensures Barred(Step(t, Decline(other)), d)
  {
  }

  lemma BarredQuiet(t: Trip, e: Event, d: Driver)
    requires Alive(t) && Barred(t, d) && Quiet(e)
    ensures Barred(Step(t, e), d)
  {
    PendingUntouched(t, e);
    if e.OpsTimer? { OpsTimerUntouched(t, e.due); } else { SearchUntouched(t, e); }
  }

  lemma BarredStep(t: Trip, e: Event, d: Driver)
    requires Alive(t) && Prompt(t.lateness) && Barred(t, d) && !t.crashed
    ensures Barred(Step(t, e), d)
    ensures NotShownFrom(Step(t, e), |t.rounds|, d)
  {
    if !e.MatchPass? { OnlyPassesBroadcast(t, e); }
    match e
    case MatchPass(nearby) => BarredMatchPass(t, nearby, d);
    case Decline(other) => BarredDecline(t, other, d);
    case OfferTimeout(n) => BarredOfferTimeout(t, n, d);
    case Tick(_) =>
    case Crash =>
    case _ => BarredQuiet(t, e, d);
  }

  lemma {:induction false} BarredRun(t: Trip, es: seq<Event>, d: Driver)
    requires Alive(t) && Prompt(t.lateness) && Barred(t, d)
    requires !Run(t, es).crashed
    ensures Barred(Run(t, es), d)
    ensures NotShownFrom(Run(t, es), |t.rounds|, d)
    decreases |es|
  {
    if es != [] {
      var n := |es| - 1;
      var u := Run(t, es[..n]);
      if u.crashed { CrashIsFinal(u, es[n]); }
      BarredRun(t, es[..n], d);
      AliveRun(t, es[..n]);
      RowRun(t, es[..n]);
      RowStep(u, es[n]);
      BarredStep(u, es[n], d);
    }
  }

  /** A decline of a trip on offer keeps `d` out of every later round, unless the process crashes. */
  ghost predicate DeclineHolds(t: Trip, d: Driver, later: seq<Event>) {
    var u := Run(Step(t, Decline(d)), later);
    t.row.status == MATCHING && !u.crashed ==> NotShownFrom(u, |t.rounds|, d)
  }

  /** Whoever declines a trip on offer, shown it or not, is never shown it again. */
  lemma {:induction false} DeclinerNeverShown(
    id: nat, isTest: bool, fare: Money, tip: Option<Money>, now: Time, lateness: nat,
    es: seq<Event>, d: Driver, later: seq<Event>)
    requires Prompt(lateness)
    ensures DeclineHolds(Run(CreateTrip(id, isTest, fare, tip, now, lateness), es), d, later)
  {
    var t0 := CreateTrip(id, isTest, fare, tip, now, lateness);
    NewTripAlive(id, isTest, fare, tip, now, lateness);
    AliveRun(t0, es);
    RowRun(t0, es);
    var t := Run(t0, es);
    var u := Run(Step(t, Decline(d)), later);
    if t.row.status == MATCHING && !u.crashed {
      AliveDecline(t, d);
      BarredDecline(t, d, d);
      BarredRun(Step(t, Decline(d)), later, d);
    }
  }

  // ---- The cascade ends ----

  function AllShown(rounds: seq<Round>): (r: set<Driver>)
    decreases |rounds|
  {
    if rounds == [] then {} else AllShown(rounds[..|rounds| - 1]) + SetOf(rounds[|rounds| - 1].shown)
  }

  ghost predicate DrawnFrom(es: seq<Event>, known: set<Driver>) {
    forall i, a, c | 0 <= i < |es| && es[i].MatchPass? && 0 <= a < |es[i].nearby| && c in es[i].nearby[a] ::
      c.driver in known
  }

  lemma {:induction false} ShownSomewhere(rounds: seq<Round>, d: Driver)
    ensures d in AllShown(rounds) <==> exists i | 0 <= i < |rounds| :: d in rounds[i].shown
    decreases |rounds|
  {
    if rounds != [] {
      var n := |rounds| - 1;
      ShownSomewhere(rounds[..n], d);
      if i :| 0 <= i < |rounds| && d in rounds[i].shown {
        assert i == n || d in rounds[..n][i].shown;
      }
    }
  }

  lemma OnlyPassesBroadcast(t: Trip, e: Event)
    requires !e.MatchPass?
    ensures Step(t, e).rounds == t.rounds
  {
  }

  lemma NewFaces(rounds: seq<Round>, r: Round, known: set<Driver>)
    requires AllShown(rounds) <= known && r.shown != []
    requires forall d | d in r.shown :: d in known && d !in AllShown(rounds)
    ensures AllShown(rounds + [r]) <= known
    ensures known - AllShown(rounds + [r]) < known - AllShown(rounds)
  {
    assert (rounds + [r])[..|rounds|] == rounds;
    assert AllShown(rounds + [r]) == AllShown(rounds) + SetOf(r.shown);
    assert r.shown[0] in SetOf(r.shown);
  }

  /** From one broadcast to the next, the known drivers not yet shown the trip strictly fall. */
  lemma RoundShrinks(t: Trip, e: Event, known: set<Driver>)
    requires Alive(t) && Prompt(t.lateness) && !t.crashed && DrawnFrom([e], known) && AllShown(t.rounds) <= known
    ensures AllShown(Step(t, e).rounds) <= known
    ensures Step(t, e).rounds != t.rounds ==>
              && known - AllShown(Step(t, e).rounds) < known - AllShown(t.rounds)
              && |known - AllShown(Step(t, e).rounds)| < |known - AllShown(t.rounds)|
  {
    if e.MatchPass? {
      MatchPassShrinks(t, e.nearby, known);
    } else {
      OnlyPassesBroadcast(t, e);
    }
  }

  lemma MatchPassShrinks(t: Trip, nearby: seq<seq<Scored>>, known: set<Driver>)
    requires Alive(t) && Prompt(t.lateness) && !t.crashed
    requires DrawnFrom([MatchPass(nearby)], known) && AllShown(t.rounds) <= known
    ensures var u := AfterMatchPass(t, nearby);
            && AllShown(u.rounds) <= known
            && (u.rounds != t.rounds ==>
                  && known - AllShown(u.rounds) < known - AllShown(t.rounds)
                  && |known - AllShown(u.rounds)| < |known - AllShown(t.rounds)|)
  {
    AliveMatchPass(t, nearby);
    var u := AfterMatchPass(t, nearby);
    if u.rounds != t.rounds {
      var r := u.rounds[|t.rounds|];
      forall d | d in r.shown ensures d in known && d !in AllShown(t.rounds) {
        var i, c :| 0 <= i < |nearby| && c in nearby[i] && c.driver == d;
        assert [MatchPass(nearby)][0] == MatchPass(nearby);
        ShownSomewhere(t.rounds, d);
      }
      assert t.rounds <= u.rounds;
      assert u.rounds == t.rounds + [r];
      NewFaces(t.rounds, r, known);
      SmallerSet(known - AllShown(u.rounds), known - AllShown(t.rounds));
    }
  }

  lemma SmallerSet(a: set<Driver>, b: set<Driver>)
    requires a < b
    ensures |a| < |b|
  {
    var x :| x in b && x !in a;
    assert a <= b - {x};
    SubsetSize(a, b - {x});
  }

  lemma {:induction false} SubsetSize(a: set<Driver>, b: set<Driver>)
    requires a <= b
    ensures |a| <= |b|
    decreases a
  {
    if a != {} {
      var x :| x in a;
      SubsetSize(a - {x}, b - {x});
    }
  }

  lemma {:induction false} RoundsBounded(t: Trip, es: seq<Event>, known: set<Driver>)
    requires Alive(t) && Prompt(t.lateness) && t.rounds == [] && DrawnFrom(es, known)
    requires !Run(t, es).crashed
    ensures AllShown(Run(t, es).rounds) <= known
    ensures |Run(t, es).rounds| + |known - AllShown(Run(t, es).rounds)| <= |known|
    decreases |es|
  {
    if es == [] {
      assert known - {} == known;
    } else {
      var n := |es| - 1;
      var mid := Run(t, es[..n]);
      AliveRun(t, es[..n]);
      RowRun(t, es[..n]);
      if mid.crashed { CrashIsFinal(mid, es[n]); }
      RoundsBounded(t, es[..n], known);
      RoundShrinks(mid, es[n], known);
      RowStep(mid, es[n]);
      if es[n].MatchPass? { AliveMatchPass(mid, es[n].nearby); } else { OnlyPassesBroadcast(mid, es[n]); }
    }
  }

  /**
   The dispatch cascade terminates: in a crash-free run no driver is shown the same trip in two rounds, and
   offerCount never exceeds the number of drivers the searches could return.
   */
  lemma {:induction false} CascadeEnds(
    id: nat, isTest: bool, fare: Money, tip: Option<Money>, now: Time, lateness: nat,
    es: seq<Event>, known: set<Driver>)
    requires Prompt(lateness)
    requires DrawnFrom(es, known)
    ensures var t := Run(CreateTrip(id, isTest, fare, tip, now, lateness), es);
            !t.crashed ==>
              NeverShownTwice(t) && t.row.offerCount <= |known|
  {
    var t0 := CreateTrip(id, isTest, fare, tip, now, lateness);
    NewTripAlive(id, isTest, fare, tip, now, lateness);
    AliveRun(t0, es);
    RowRun(t0, es);
    if !Run(t0, es).crashed { RoundsBounded(t0, es, known); }
  }

  // ---- The escalation ladder ----

  /** When each stamp was made, and that a missing stamp still has its timer. */
  ghost predicate LadderInv(t: Trip) {
    && t.row.requestedAt <= t.now
    && (t.row.opsEscalatedAt.Some? ==> t.row.opsAlertedAt.Some?)
    && (t.row.opsAlertedAt.Some? ==> t.row.requestedAt + OPS_ALERT_MS <= t.row.opsAlertedAt.value <= t.now)
    && (t.row.opsEscalatedAt.Some? ==> t.row.requestedAt + OPS_ESCALATE_MS <= t.row.opsEscalatedAt.value <= t.now)
    && (!t.crashed && Looking(t.row.status) ==>
          && (t.row.opsAlertedAt.Some? || t.row.requestedAt + OPS_ALERT_MS in t.opsTimers)
          && (t.row.opsEscalatedAt.Some? || t.row.requestedAt + OPS_ESCALATE_MS in t.opsTimers))
    && (forall due | due in t.opsTimers :: t.now <= due + t.lateness)
  }

  /** Once made, a stamp never changes. */
  ghost predicate StampsStay(r: Row, s: Row) {
    && (r.opsAlertedAt.Some? ==> s.opsAlertedAt == r.opsAlertedAt)
    && (r.opsEscalatedAt.Some? ==> s.opsEscalatedAt == r.opsEscalatedAt)
    && (r.noDriverFoundAt.Some? ==> s.noDriverFoundAt == r.noDriverFoundAt)
  }

  lemma LadderTimer(t: Trip, due: Time)
    requires LadderInv(t)
    ensures LadderInv(Step(t, OpsTimer(due))) && StampsStay(t.row, Step(t, OpsTimer(due)).row)
  {
  }

  /** A stamp once written stays; otherwise it is written now if it is due. */
  function Stamped(was: Option<Time>, due: bool, now: Time): (r: Option<Time>) {
    if was.Some? then was else if due then Some(now) else None
  }

  /** One look at the clock writes exactly the stamps that are due on a trip still looking, and nothing else. */
  lemma EscalationIsSound(r: Row, now: Time)
    requires r.requestedAt <= now
    ensures var waiting := now - r.requestedAt;
            EscalateIfStuck(r, now) ==
            r.(opsAlertedAt := Stamped(r.opsAlertedAt, Looking(r.status) && waiting >= 90_000, now),
               opsEscalatedAt := Stamped(r.opsEscalatedAt, Looking(r.status) && waiting >= 180_000, now))
  {
  }

  lemma LadderSearch(t: Trip, shown: seq<Driver>)
    requires LadderInv(t) && Looking(t.row.status)
    ensures LadderInv(AfterSearch(t, shown)) && StampsStay(t.row, AfterSearch(t, shown).row)
  {
    if shown == [] {
      EscalationIsSound(t.row.(noDriverFoundAt := OrElse(t.row.noDriverFoundAt, t.now)), t.now);
    }
  }

  lemma LadderMatchPass(t: Trip, nearby: seq<seq<Scored>>)
    requires LadderInv(t)
    ensures LadderInv(AfterMatchPass(t, nearby)) && StampsStay(t.row, AfterMatchPass(t, nearby).row)
  {
    if t.passes != [] && Looking(t.row.status) {
      LadderSearch(t.(passes := t.passes[1..]), ToShow(nearby, t.excluded.Live(t.now)));
    }
  }

  lemma LadderOfferTimeout(t: Trip, n: nat)
    requires LadderInv(t)
    ensures LadderInv(AfterOfferTimeout(t, n)) && StampsStay(t.row, AfterOfferTimeout(t, n).row)
  {
    EscalationIsSound(t.row.(status := REQUESTED), t.now);
  }

  lemma ClocksUntouched(t: Trip, e: Event)
    requires !e.MatchPass? && !e.OfferTimeout? && !e.OpsTimer? && !e.Tick? && !e.Crash?
    ensures var u := Step(t, e);
            u.opsTimers == t.opsTimers && u.now == t.now && u.lateness == t.lateness && u.crashed == t.crashed
  {
  }

  lemma StampsUntouched(t: Trip, e: Event)
    requires !e.MatchPass? && !e.OfferTimeout? && !e.OpsTimer? && !e.Tick? && !e.Crash?
    ensures var r := Step(t, e).row;
            && r.opsAlertedAt == t.row.opsAlertedAt && r.opsEscalatedAt == t.row.opsEscalatedAt
            && r.noDriverFoundAt == t.row.noDriverFoundAt && r.requestedAt == t.row.requestedAt
            && (Looking(r.status) ==> Looking(t.row.status))
  {
  }

  lemma LadderStep(t: Trip, e: Event)
    requires LadderInv(t)
    ensures LadderInv(Step(t, e)) && StampsStay(t.row, Step(t, e).row)
  {
    match e
    case MatchPass(nearby) => LadderMatchPass(t, nearby);
    case OfferTimeout(n) => LadderOfferTimeout(t, n);
    case OpsTimer(due) => LadderTimer(t, due);
    case Tick(_) =>
    case Crash =>
    case _ =>
      StampsUntouched(t, e);
      ClocksUntouched(t, e);
  }

  lemma {:induction false} LadderRun(t: Trip, es: seq<Event>)
    requires LadderInv(t)
    ensures LadderInv(Run(t, es)) && StampsStay(t.row, Run(t, es).row)
    decreases |es|
  {
    if es != [] {
      var n := |es| - 1;
      LadderRun(t, es[..n]);
      LadderStep(Run(t, es[..n]), es[n]);
    }
  }

  /**
   "A person is watching every ride", by the clock: without a crash, a trip still looking for a driver after
   90 seconds (and the timer's delay) is stamped as alerted, and after three minutes as escalated, whatever
   matching did meanwhile. Escalated implies alerted, no stamp comes early, and no stamp is made twice.
   */
  lemma {:induction false} LadderKeepsItsPromise(
    id: nat, isTest: bool, fare: Money, tip: Option<Money>, start: Time, lateness: nat,
    es: seq<Event>, later: seq<Event>)
    ensures var t := Run(CreateTrip(id, isTest, fare, tip, start, lateness), es);
            && (!t.crashed && Looking(t.row.status) ==>
                  && (t.now > start + 90_000 + lateness ==> t.row.opsAlertedAt.Some?)
                  && (t.now > start + 180_000 + lateness ==> t.row.opsEscalatedAt.Some?))
            && (t.row.opsEscalatedAt.Some? ==> t.row.opsAlertedAt.Some?)
            && (t.row.opsAlertedAt.Some? ==> start + 90_000 <= t.row.opsAlertedAt.value)
            && (t.row.opsEscalatedAt.Some? ==> start + 180_000 <= t.row.opsEscalatedAt.value)
            && StampsStay(t.row, Run(t, later).row)
  {
    var t0 := CreateTrip(id, isTest, fare, tip, start, lateness);
    LadderRun(t0, es);
    RowRun(t0, es);
    LadderRun(Run(t0, es), later);
  }

  // ---- How prompt is prompt enough ----

  /** The trip of one rider, booked at time 0, and a search that finds driver `d` alone. */
  function Booked(lateness: nat): (r: Trip) {
    CreateTrip(0, false, 15_000, None, 0, lateness)
  }

  function Finding(d: Driver): (r: Event) {
    MatchPass([[Scored(d, 1.0)]])
  }

  lemma FindsOne(d: Driver, excluded: set<Driver>)
    requires d !in excluded
    ensures ToShow([[Scored(d, 1.0)]], excluded) == [d]
  {
    var one := [Scored(d, 1.0)];
    assert Unexcluded(one, excluded) == one by { assert one[1..] == []; }
    assert SortDesc(one) == one by { assert one[..0] == []; }
    assert Ids(one) == [d];
  }

  lemma {:induction false} RunConcat(t: Trip, a: seq<Event>, b: seq<Event>)
    ensures Run(t, a + b) == Run(Run(t, a), b)
    decreases |b|
  {
    if b == [] {
      assert a + b == a;
    } else {
      var n := |b| - 1;
      RunConcat(t, a, b[..n]);
      assert (a + b)[..|a + b| - 1] == a + b[..n];
    }
  }

  lemma RunTwo(t: Trip, e: Event, f: Event)
    ensures Run(t, [e] + [f]) == Step(Step(t, e), f)
  {
    RunOne(t, e);
    RunSnoc(t, [e], f);
  }

  lemma RunOne(t: Trip, e: Event)
    ensures Run(t, [e]) == Step(t, e)
  {
    assert [] + [e] == [e] && Run(t, []) == t;
    RunSnoc(t, [], e);
  }

  /** Driver 1 alone is shown the trip. */
  function ShownToOne(lateness: nat): (t: Trip) {
    OfferToDrivers(Booked(lateness).(passes := []), [1])
  }

  lemma FirstRoundShown(lateness: nat)
    ensures Run(Booked(lateness), [Finding(1)]) == ShownToOne(lateness)
  {
    FindsOne(1, {});
    RunOne(Booked(lateness), Finding(1));
  }

  /** Nobody takes it, and the timer is on time; the next pass is asked for. */
  function Missed(lateness: nat): (t: Trip) {
    ShownToOne(lateness).(
      now := OFFER_TIMEOUT_MS, row := ShownToOne(lateness).row.(status := REQUESTED), passes := [OFFER_TIMEOUT_MS],
      timers := map[], excluded := ExclusionSet({1}, OFFER_TIMEOUT_MS + EXCLUDED_TTL_MS))
  }

  function Miss(): (es: seq<Event>) {
    [Tick(OFFER_TIMEOUT_MS)] + [OfferTimeout(0)]
  }

  /** A decline by driver 1 in between makes no difference. */
  lemma FirstRoundMissed(t: Trip, lateness: nat)
    requires t == ShownToOne(lateness) || t == Step(ShownToOne(lateness), Decline(1))
    ensures Run(t, Miss()) == Missed(lateness)
  {
    RunTwo(t, Tick(OFFER_TIMEOUT_MS), OfferTimeout(0));
    assert Step(t, Tick(OFFER_TIMEOUT_MS)) == t.(now := OFFER_TIMEOUT_MS);
    MissStep(t.(now := OFFER_TIMEOUT_MS), lateness);
  }

  lemma MissStep(u: Trip, lateness: nat)
    requires u == ShownToOne(lateness).(now := OFFER_TIMEOUT_MS, excluded := u.excluded)
    requires u.excluded.members <= {1}
    ensures Step(u, OfferTimeout(0)) == Missed(lateness)
  {
    AddAllMembers(u.excluded, OFFER_TIMEOUT_MS, [1]);
    assert SetOf([1]) == {1};
    NotYetStuck(u.row.(status := REQUESTED), OFFER_TIMEOUT_MS);
  }

  lemma NotYetStuck(r: Row, now: Time)
    requires now < r.requestedAt + OPS_ALERT_MS
    ensures EscalateIfStuck(r, now) == r
  {
  }

  /** The next pass is late, the escalation timers have run, and driver 2 is shown the trip. */
  function LatePass(lateness: nat): (es: seq<Event>) {
    ([Tick(lateness)] + [OpsTimer(OPS_ALERT_MS)]) + ([OpsTimer(OPS_ESCALATE_MS)] + [Finding(2)])
  }

  ghost predicate SecondRound(t: Trip, lateness: nat) {
    && !t.crashed && t.lateness == lateness && t.now == OFFER_TIMEOUT_MS + lateness
    && t.row.status == MATCHING && t.row.driver.None? && t.passes == [] && t.opsTimers == {}
    && t.excluded.expireAt == OFFER_TIMEOUT_MS + EXCLUDED_TTL_MS
    && t.rounds == [Round([1], 0), Round([2], t.now)] && t.timers == map[1 := Round([2], t.now)]
  }

  lemma SecondRoundReached(lateness: nat)
    requires lateness >= OPS_ESCALATE_MS
    ensures SecondRound(Run(Missed(lateness), LatePass(lateness)), lateness)
  {
    var t := Missed(lateness);
    RunTwo(t, Tick(lateness), OpsTimer(OPS_ALERT_MS));
    var u := t.(now := OFFER_TIMEOUT_MS + lateness);
    assert Step(t, Tick(lateness)) == u;
    var v := Step(u, OpsTimer(OPS_ALERT_MS));
    RunConcat(t, [Tick(lateness)] + [OpsTimer(OPS_ALERT_MS)], [OpsTimer(OPS_ESCALATE_MS)] + [Finding(2)]);
    RunTwo(v, OpsTimer(OPS_ESCALATE_MS), Finding(2));
    StampedTwice(u, lateness);
    LatePassShows(u, Step(v, OpsTimer(OPS_ESCALATE_MS)), lateness);
  }

  lemma StampedTwice(u: Trip, lateness: nat)
    requires u == Missed(lateness).(now := OFFER_TIMEOUT_MS + lateness) && lateness >= OPS_ESCALATE_MS
    ensures var w := Step(Step(u, OpsTimer(OPS_ALERT_MS)), OpsTimer(OPS_ESCALATE_MS));
            && w == u.(opsTimers := {}, row := w.row)
            && w.row == u.row.(opsAlertedAt := w.row.opsAlertedAt, opsEscalatedAt := w.row.opsEscalatedAt)
  {
    OpsTimerStep(u, OPS_ALERT_MS);
    OpsTimerStep(Step(u, OpsTimer(OPS_ALERT_MS)), OPS_ESCALATE_MS);
  }

  lemma LatePassShows(u: Trip, w: Trip, lateness: nat)
    requires u == Missed(lateness).(now := OFFER_TIMEOUT_MS + lateness)
    requires w == u.(opsTimers := {}, row := w.row)
    requires w.row == u.row.(opsAlertedAt := w.row.opsAlertedAt, opsEscalatedAt := w.row.opsEscalatedAt)
    ensures SecondRound(Step(w, Finding(2)), lateness)
  {
    FindsOne(2, w.excluded.Live(w.now));
  }

  lemma OpsTimerStep(t: Trip, due: Time)
    requires due in t.opsTimers && due <= t.now
    ensures var u := Step(t, OpsTimer(due));
            && u == t.(opsTimers := t.opsTimers - {due}, row := u.row)
            && u.row == t.row.(opsAlertedAt := u.row.opsAlertedAt, opsEscalatedAt := u.row.opsEscalatedAt)
  {
    EscalationTouchesOnlyStamps(t.row, t.now);
  }

  /** Driver 2 does not answer either, the timer is late again, and driver 1's exclusion has lapsed. */
  function LateTimer(lateness: nat): (es: seq<Event>) {
    ([Tick(OFFER_TIMEOUT_MS + lateness)] + [OfferTimeout(1)]) + [Finding(1)]
  }

  lemma ThirdRoundRepeats(t: Trip, lateness: nat)
    requires SecondRound(t, lateness) && !Prompt(lateness)
    ensures var u := Run(t, LateTimer(lateness));
            !u.crashed && |u.rounds| == 3 && u.rounds[0].shown == [1] && u.rounds[2].shown == [1]
  {
    var u := t.(now := t.now + OFFER_TIMEOUT_MS + lateness);
    assert Step(t, Tick(OFFER_TIMEOUT_MS + lateness)) == u;
    AddAllMembers(u.excluded, u.now, [2]);
    EscalationTouchesOnlyStamps(u.row.(status := REQUESTED), u.now);
    var v := Step(u, OfferTimeout(1));
    assert SetOf([2]) == {2};
    assert v.excluded.Live(v.now) == {2};
    FindsOne(1, {2});
    RunTwo(t, Tick(OFFER_TIMEOUT_MS + lateness), OfferTimeout(1));
    RunSnoc(t, [Tick(OFFER_TIMEOUT_MS + lateness)] + [OfferTimeout(1)], Finding(1));
  }

  /** From the first broadcast on, when everything is as late as it may be. */
  function Lapse(lateness: nat): (es: seq<Event>) {
    (Miss() + LatePass(lateness)) + LateTimer(lateness)
  }

  lemma LapseRepeats(t: Trip, lateness: nat)
    requires t == ShownToOne(lateness) || t == Step(ShownToOne(lateness), Decline(1))
    requires !Prompt(lateness)
    ensures var u := Run(t, Lapse(lateness));
            !u.crashed && |u.rounds| == 3 && u.rounds[0].shown == [1] && u.rounds[2].shown == [1]
  {
    FirstRoundMissed(t, lateness);
    RunConcat(t, Miss(), LatePass(lateness));
    SecondRoundReached(lateness);
    RunConcat(t, Miss() + LatePass(lateness), LateTimer(lateness));
    ThirdRoundRepeats(Run(t, Miss() + LatePass(lateness)), lateness);
  }

  ghost predicate NeverShownTwice(t: Trip) {
    forall a, b, d | 0 <= a < b < |t.rounds| && d in t.rounds[a].shown :: d !in t.rounds[b].shown
  }

  /**
   Crash-free trips never show a driver the same trip twice exactly when a pass, an offer and their delays fit in
   the hour.
   */
  lemma {:induction false} NoRepeatExactly(lateness: nat)
    ensures (forall id, isTest, fare, tip, now: Time, es ::
               var t := Run(CreateTrip(id, isTest, fare, tip, now, lateness), es);
               !t.crashed ==> NeverShownTwice(t))
            <==> 15_000 + 2 * lateness < 3_600_000
  {
    if Prompt(lateness) {
      forall id, isTest, fare, tip, now: Time, es
        ensures var t := Run(CreateTrip(id, isTest, fare, tip, now, lateness), es); !t.crashed ==> NeverShownTwice(t)
      {
        CascadeFresh(id, isTest, fare, tip, now, lateness, es);
      }
    } else {
      FirstRoundShown(lateness);
      LapseRepeats(ShownToOne(lateness), lateness);
      RunConcat(Booked(lateness), [Finding(1)], Lapse(lateness));
      var u := Run(Booked(lateness), [Finding(1)] + Lapse(lateness));
      assert 1 in u.rounds[0].shown && 1 in u.rounds[2].shown;
    }
  }

  /** A driver's decline is for good in every run exactly when the same holds. */
  lemma {:induction false} DeclineIsForGoodExactly(lateness: nat)
    ensures (forall id, isTest, fare, tip, now: Time, es, d, later ::
               DeclineHolds(Run(CreateTrip(id, isTest, fare, tip, now, lateness), es), d, later))
            <==> 15_000 + 2 * lateness < 3_600_000
  {
    if Prompt(lateness) {
      forall id, isTest, fare, tip, now: Time, es, d, later
        ensures DeclineHolds(Run(CreateTrip(id, isTest, fare, tip, now, lateness), es), d, later)
      {
        DeclinerNeverShown(id, isTest, fare, tip, now, lateness, es, d, later);
      }
    } else {
      FirstRoundShown(lateness);
      LapseRepeats(Step(ShownToOne(lateness), Decline(1)), lateness);
      assert !DeclineHolds(Run(Booked(lateness), [Finding(1)]), 1, Lapse(lateness)) by {
        var u := Run(Step(ShownToOne(lateness), Decline(1)), Lapse(lateness));
        assert 1 in u.rounds[2].shown;
      }
    }
  }

  lemma CascadeFresh(
    id: nat, isTest: bool, fare: Money, tip: Option<Money>, now: Time, lateness: nat, es: seq<Event>)
    requires Prompt(lateness)
    ensures var t := Run(CreateTrip(id, isTest, fare, tip, now, lateness), es); !t.crashed ==> NeverShownTwice(t)
  {
    NewTripAlive(id, isTest, fare, tip, now, lateness);
    AliveRun(CreateTrip(id, isTest, fare, tip, now, lateness), es);
    RowRun(CreateTrip(id, isTest, fare, tip, now, lateness), es);
  }
}
