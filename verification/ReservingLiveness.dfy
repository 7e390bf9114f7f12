/** Progress of the reserving protocol: no lost wake-up, no repeated offer, a cascade that ends. */
module ReservingLiveness {
  import opened Domain
  import opened Exclusion
  import opened Reserving
  import opened ReservingSafety

  function OfferedTo(j: Job): (r: seq<Driver>) {
    seq(|j.offers|, i requires 0 <= i < |j.offers| => j.offers[i].driver)
  }

  /** The first `n` offers went to drivers who are now in the exclusion set. */
  ghost predicate Excluded(j: Job, n: nat)
    requires n <= |j.offers|
  {
    forall i | 0 <= i < n :: j.offers[i].driver in j.excluded.members
  }

  ghost predicate FreshInv(j: Job) {
    && (forall a, b | 0 <= a < b < |j.offers| :: j.offers[a].driver != j.offers[b].driver)
    && (j.status == Idle(j.kind) && j.passes != [] ==>
          && j.passes[0] <= j.now <= j.passes[0] + j.lateness
          && (j.offers != [] ==> Excluded(j, |j.offers|) && j.passes[0] + EXCLUDED_TTL_MS <= j.excluded.expireAt))
    && (j.status == MATCHING && j.offers != [] ==>
          && Last(j) in j.timers
          && (|j.offers| > 1 ==>
                Excluded(j, |j.offers| - 1)
                && j.offers[Last(j)].at + EXCLUDED_TTL_MS <= j.excluded.expireAt + j.lateness))
  }

  /** Everything a run keeps when timers are prompt enough and the process does not crash. */
  ghost predicate Alive(j: Job) {
    && OFFER_TIMEOUT_MS + 2 * j.lateness < EXCLUDED_TTL_MS
    && RowInv(j) && TimerInv(j)
    && (!j.crashed ==> FreshInv(j))
  }

  lemma FreshMatchPass(j: Job, nearby: seq<seq<Driver>>)
    requires Alive(j) && !j.crashed
    ensures FreshInv(AfterMatchPass(j, nearby))
    ensures var k := AfterMatchPass(j, nearby);
            k.offers != j.offers ==>
              && |k.offers| == |j.offers| + 1
              && k.offers[|j.offers|].driver !in OfferedTo(j)
              && exists i | 0 <= i < |nearby| :: k.offers[|j.offers|].driver in nearby[i]
  {
    CandidateIsFree(nearby, j.excluded.Live(j.now));
  }

  lemma FreshDecline(j: Job, d: Driver)
    requires Alive(j) && FreshInv(j)
    requires j.status == MATCHING && j.driver == Some(d)
    ensures FreshInv(DeclineOrTimeout(j, d))
  {
    assert TimerOk(j, Last(j));
  }

  lemma FreshTimeout(j: Job, n: nat)
    requires Alive(j) && FreshInv(j)
    ensures FreshInv(AfterTimeout(j, n))
  {
    if n in j.timers && j.timers[n].due <= j.now {
      assert TimerOk(j, n);
      if j.status == MATCHING && j.driver == Some(j.timers[n].driver) {
        FreshDecline(j, j.timers[n].driver);
      }
    }
  }

  lemma PassesUntouched(j: Job, e: Event)
    requires Quiet(e) && !e.MarkReady?
    ensures Step(j, e).passes == j.passes && Step(j, e).crashed == j.crashed
  {
  }

  lemma FreshQuiet(j: Job, e: Event)
    requires Alive(j) && FreshInv(j) && Quiet(e) && !e.MarkReady?
    ensures FreshInv(Step(j, e))
  {
    PassesUntouched(j, e);
    TimersUntouched(j, e);
    if j.offers != [] {
      SearchUntouched(j, e);
    } else {
      RowStep(j, e);
      IdleUntouched(j, e);
    }
  }

  lemma IdleUntouched(j: Job, e: Event)
    requires RowInv(j) && Quiet(e) && !e.MarkReady?
    ensures Step(j, e).status == Idle(j.kind) ==> j.status == Idle(j.kind)
  {
  }

  lemma AliveStep(j: Job, e: Event)
    requires Alive(j)
    ensures Alive(Step(j, e))
  {
    RowStep(j, e);
    TimerStep(j, e);
    if !j.crashed {
      match e
      case MatchPass(nearby) => FreshMatchPass(j, nearby);
      case Decline(d) => if j.status == MATCHING && j.driver == Some(d) { FreshDecline(j, d); }
      case Timeout(n) => FreshTimeout(j, n);
      case Tick(_) =>
      case MarkReady =>
      case Crash =>
      case _ => FreshQuiet(j, e);
    } else {
      CrashIsFinal(j, e);
    }
  }

  lemma CrashIsFinal(j: Job, e: Event)
    requires j.crashed
    ensures Step(j, e).crashed
  {
  }

  lemma {:induction false} AliveRun(j: Job, es: seq<Event>)
    requires Alive(j)
    ensures Alive(Run(j, es))
    decreases |es|
  {
    if es != [] {
      var n := |es| - 1;
      AliveRun(j, es[..n]);
      AliveStep(Run(j, es[..n]), es[n]);
    }
  }

  // ---- No lost wake-up ----

  /** Timers are as their offers set them, and without a crash the offer in force has one. */
  ghost predicate WakeInv(j: Job) {
    && (forall n | n in j.timers ::
          n < |j.offers| && j.timers[n] == Timer(j.offers[n].driver, j.offers[n].at + OFFER_TIMEOUT_MS))
    && (!j.crashed && j.status == MATCHING ==> j.offers != [] && Last(j) in j.timers)
  }

  lemma WakeMatchPass(j: Job, nearby: seq<seq<Driver>>)
    requires RowInv(j) && WakeInv(j)
    ensures WakeInv(AfterMatchPass(j, nearby))
  {
  }

  lemma WakeTimeout(j: Job, n: nat)
    requires RowInv(j) && WakeInv(j)
    ensures WakeInv(AfterTimeout(j, n))
  {
  }

  lemma WakeDecline(j: Job, d: Driver)
    requires RowInv(j) && WakeInv(j)
    ensures WakeInv(Step(j, Decline(d)))
  {
  }

  lemma WakeQuiet(j: Job, e: Event)
    requires RowInv(j) && WakeInv(j) && Quiet(e)
    ensures WakeInv(Step(j, e))
  {
    TimersUntouched(j, e);
    CrashNeedsCrash(j, e);
    MatchingNeedsPass(j, e);
  }

  lemma WakeStep(j: Job, e: Event)
    requires RowInv(j) && WakeInv(j)
    ensures WakeInv(Step(j, e))
  {
    match e
    case MatchPass(nearby) => WakeMatchPass(j, nearby);
    case Timeout(n) => WakeTimeout(j, n);
    case Decline(d) => WakeDecline(j, d);
    case Tick(_) =>
    case Crash =>
    case _ => WakeQuiet(j, e);
  }

  lemma CrashNeedsCrash(j: Job, e: Event)
    requires !e.Crash?
    ensures Step(j, e).crashed == j.crashed
  {
  }

  lemma MatchingNeedsPass(j: Job, e: Event)
    requires RowInv(j) && Quiet(e)
    ensures Step(j, e).status == MATCHING ==> j.status == MATCHING
  {
  }

  lemma {:induction false} WakeRun(j: Job, es: seq<Event>)
    requires RowInv(j) && WakeInv(j)
    ensures WakeInv(Run(j, es))
    decreases |es|
  {
    if es != [] {
      var n := |es| - 1;
      WakeRun(j, es[..n]);
      RowRun(j, es[..n]);
      WakeStep(Run(j, es[..n]), es[n]);
    }
  }

  /** Without a crash, whoever holds the offer has a timer running for exactly that offer. */
  lemma {:induction false} NoLostWakeUp(k: Kind, now: Time, lateness: nat, es: seq<Event>)
    ensures var j := Run(NewJob(k, now, lateness), es);
            !j.crashed && j.status == MATCHING ==>
              && j.offers != [] && j.driver.Some?
              && Last(j) in j.timers
              && j.timers[Last(j)] == Timer(j.driver.value, j.offers[Last(j)].at + 15_000)
  {
    NewJobRow(k, now, lateness);
    WakeRun(NewJob(k, now, lateness), es);
    RowRun(NewJob(k, now, lateness), es);
  }

  ghost predicate DrawnFrom(es: seq<Event>, known: set<Driver>) {
    forall i, a | 0 <= i < |es| && es[i].MatchPass? && 0 <= a < |es[i].nearby| :: SetOf(es[i].nearby[a]) <= known
  }

  lemma {:induction false} OfferedAreKnown(j: Job, es: seq<Event>, known: set<Driver>)
    requires Alive(j) && DrawnFrom(es, known) && SetOf(OfferedTo(j)) <= known
    requires !Run(j, es).crashed
    ensures SetOf(OfferedTo(Run(j, es))) <= known
    decreases |es|
  {
    if es != [] {
      var n := |es| - 1;
      var mid := Run(j, es[..n]);
      AliveRun(j, es[..n]);
      if mid.crashed { CrashIsFinal(mid, es[n]); }
      OfferedAreKnown(j, es[..n], known);
      RoundIsNew(mid, es[n], known);
    }
  }

  /** Each new round goes to a driver never shown this job, so the drivers still to try strictly fall. */
  lemma RoundIsNew(j: Job, e: Event, known: set<Driver>)
    requires Alive(j) && !j.crashed && DrawnFrom([e], known) && SetOf(OfferedTo(j)) <= known
    ensures SetOf(OfferedTo(Step(j, e))) <= known
    ensures Step(j, e).offers != j.offers ==>
              known - SetOf(OfferedTo(Step(j, e))) < known - SetOf(OfferedTo(j))
  {
    var k := Step(j, e);
    if e.MatchPass? {
      FreshMatchPass(j, e.nearby);
      if k.offers != j.offers {
        var d := k.offers[|j.offers|].driver;
        var a :| 0 <= a < |e.nearby| && d in e.nearby[a];
        assert [e][0] == e;
        assert d in SetOf(e.nearby[a]);
        assert OfferedTo(k) == OfferedTo(j) + [d];
        assert SetOf(OfferedTo(k)) == SetOf(OfferedTo(j)) + {d};
      }
    } else {
      OnlyPassesOffer(j, e);
    }
  }

  lemma OnlyPassesOffer(j: Job, e: Event)
    requires !e.MatchPass?
    ensures Step(j, e).offers == j.offers
  {
  }

  /** In a crash-free run no driver is offered the same job twice, so it is offered at most once per driver. */
  lemma {:induction false} CascadeEnds(k: Kind, now: Time, lateness: nat, es: seq<Event>, known: set<Driver>)
    requires 15_000 + 2 * lateness < 3_600_000
    requires DrawnFrom(es, known)
    ensures var j := Run(NewJob(k, now, lateness), es);
            !j.crashed ==> Distinct(OfferedTo(j)) && |j.offers| <= |known|
  {
    var j := Run(NewJob(k, now, lateness), es);
    if !j.crashed {
      NewJobRow(k, now, lateness);
      AliveRun(NewJob(k, now, lateness), es);
      OfferedAreKnown(NewJob(k, now, lateness), es, known);
      DistinctFits(OfferedTo(j), known);
    }
  }

  // ---- How prompt is prompt enough ----

  /** Driver 1 declines; the next pass is late, so driver 1's own timer has gone off before driver 2 is offered. */
  function SecondOffer(k: Kind, lateness: nat): (r: seq<Event>) {
    FirstDecline(k) + [Tick(lateness)] + [Timeout(0)] + [MatchPass([[2]])]
  }

  lemma SecondOfferReached(k: Kind, lateness: nat)
    requires lateness >= OFFER_TIMEOUT_MS
    ensures Run(NewJob(k, 0, lateness), SecondOffer(k, lateness)) ==
            Declined(k, lateness).(
              now := lateness, status := MATCHING, driver := Some(2), passes := [],
              timers := map[1 := Timer(2, lateness + OFFER_TIMEOUT_MS)], offers := [Offer(1, 0), Offer(2, lateness)])
  {
    var j := NewJob(k, 0, lateness);
    FirstDeclineReached(k, lateness);
    var s0 := FirstDecline(k);
    var s1 := s0 + [Tick(lateness)];
    RunSnoc(j, s0, Tick(lateness));
    RunSnoc(j, s1, Timeout(0));
    RunSnoc(j, s1 + [Timeout(0)], MatchPass([[2]]));
    assert Run(j, s1 + [Timeout(0)]).timers == map[];
    assert FirstCandidate([[2]], {}) == Some(2) && FirstCandidate([[2]], {1}) == Some(2);
  }

  /** Driver 2 answers late as well, and by then driver 1's exclusion has lapsed. */
  function LapsedSchedule(k: Kind, lateness: nat): (r: seq<Event>) {
    SecondOffer(k, lateness) + [Tick(OFFER_TIMEOUT_MS + lateness)] + [Decline(2)] + [MatchPass([[1]])]
  }

  lemma LapsedScheduleRepeats(k: Kind, lateness: nat)
    requires OFFER_TIMEOUT_MS + 2 * lateness >= EXCLUDED_TTL_MS
    ensures var j := Run(NewJob(k, 0, lateness), LapsedSchedule(k, lateness));
            !j.crashed && OfferedTo(j) == [1, 2, 1]
  {
    var j := NewJob(k, 0, lateness);
    SecondOfferReached(k, lateness);
    var s3 := SecondOffer(k, lateness);
    var s4 := s3 + [Tick(OFFER_TIMEOUT_MS + lateness)];
    RunSnoc(j, s3, Tick(OFFER_TIMEOUT_MS + lateness));
    RunSnoc(j, s4, Decline(2));
    RunSnoc(j, s4 + [Decline(2)], MatchPass([[1]]));
  }

  /** Crash-free runs never repeat an offer exactly when a pass, an offer and their delays fit in the hour. */
  lemma {:induction false} NoRepeatExactly(k: Kind, lateness: nat)
    ensures (forall now: Time, es: seq<Event> :: var j := Run(NewJob(k, now, lateness), es);
               !j.crashed ==> Distinct(OfferedTo(j)))
            <==> 15_000 + 2 * lateness < 3_600_000
  {
    if OFFER_TIMEOUT_MS + 2 * lateness < EXCLUDED_TTL_MS {
      forall now: Time, es: seq<Event> ensures var j := Run(NewJob(k, now, lateness), es);
                                               !j.crashed ==> Distinct(OfferedTo(j))
      {
        NewJobRow(k, now, lateness);
        AliveRun(NewJob(k, now, lateness), es);
      }
    } else {
      LapsedScheduleRepeats(k, lateness);
      var j := Run(NewJob(k, 0, lateness), LapsedSchedule(k, lateness));
      assert OfferedTo(j)[0] == OfferedTo(j)[2];
      assert !Distinct(OfferedTo(j));
    }
  }

  // ---- What nobody retries ----

  /** A match pass that runs here finds nobody. */
  ghost predicate SearchFails(j: Job, nearby: seq<seq<Driver>>) {
    j.passes != [] && Searching(j.kind, j.status) && FirstCandidate(nearby, j.excluded.Live(j.now)).None?
  }

  /** Idle with no search under way. */
  predicate Waiting(j: Job) {
    j.status == Idle(j.kind) && j.passes == []
  }

  lemma WaitingComesFrom(j: Job, e: Event)
    requires RowInv(j) && !Step(j, e).crashed && Waiting(Step(j, e))
    ensures !j.crashed
    ensures Waiting(j) || (e.MatchPass? && SearchFails(j, e.nearby))
    ensures Step(j, e).offers == j.offers && Step(j, e).kind == j.kind
  {
    match e
    case MatchPass(_) =>
    case Timeout(n) => WakeOrStay(j, n);
    case Decline(_) =>
    case Crash =>
    case Tick(_) =>
    case MarkReady =>
    case _ =>
      IdleUntouched(j, e);
      PassesUntouched(j, e);
      TimersUntouched(j, e);
  }

  lemma WakeOrStay(j: Job, n: nat)
    requires AfterTimeout(j, n).passes == []
    ensures var k := AfterTimeout(j, n);
            k.status == j.status && j.passes == [] && k.crashed == j.crashed && k.offers == j.offers && k.kind == j.kind
  {
  }

  /** The run ends in a stretch of waiting that began with a match pass that found nobody. */
  ghost predicate WaitingSinceFailure(j: Job, es: seq<Event>)
    decreases |es|
  {
    && es != [] && Waiting(Run(j, es)) && Run(j, es).offers == Run(j, es[..|es| - 1]).offers
    && var n := |es| - 1;
       (es[n].MatchPass? && SearchFails(Run(j, es[..n]), es[n].nearby)) || WaitingSinceFailure(j, es[..n])
  }

  lemma {:induction false} LastPassOf(j: Job, es: seq<Event>)
    requires RowInv(j) && !Waiting(j) && !Run(j, es).crashed && Waiting(Run(j, es))
    ensures WaitingSinceFailure(j, es)
    decreases |es|
  {
    var n := |es| - 1;
    RowRun(j, es[..n]);
    WaitingComesFrom(Run(j, es[..n]), es[n]);
    if Waiting(Run(j, es[..n])) { LastPassOf(j, es[..n]); }
  }

  /** An idle job with no pass under way is one whose last pass found nobody, and which has waited since. */
  lemma LastPassFoundNobody(k: Kind, now: Time, lateness: nat, es: seq<Event>)
    ensures var j := Run(NewJob(k, now, lateness), es);
            !j.crashed && Waiting(j) ==> WaitingSinceFailure(NewJob(k, now, lateness), es)
  {
    NewJobRow(k, now, lateness);
    if !Run(NewJob(k, now, lateness), es).crashed && Waiting(Run(NewJob(k, now, lateness), es)) {
      LastPassOf(NewJob(k, now, lateness), es);
    }
  }

  /**
   A match pass that finds nobody ends the automatic search for good: from then on nothing but a manual
   assignment or a cancellation changes the row, however long the job waits and whoever comes online.
   */
  lemma {:induction false} UnmatchedStaysUnmatched(j: Job, es: seq<Event>)
    requires RowInv(j) && Waiting(j)
    requires forall i | 0 <= i < |es| :: !es[i].ManualAssign? && !es[i].Cancel?
    ensures var k := Run(j, es); Waiting(k) && k.kind == j.kind && k.driver.None? && k.offers == j.offers
    decreases |es|
  {
    if es != [] {
      var n := |es| - 1;
      UnmatchedStaysUnmatched(j, es[..n]);
      RowRun(j, es[..n]);
      IdleStep(Run(j, es[..n]), es[n]);
    }
  }

  lemma IdleStep(j: Job, e: Event)
    requires RowInv(j) && Waiting(j) && !e.ManualAssign? && !e.Cancel?
    ensures var k := Step(j, e); Waiting(k) && k.kind == j.kind && k.driver == j.driver && k.offers == j.offers
  {
  }
}
