/**
 Writes that land late on a trip: the broadcast at the end of a search, the reset of an offer timer, a
 cancellation and a start are written without a condition, on whatever the row has become since the read.
 */
module TripsRaces {
  import opened Domain
  import opened Commission
  import opened Trips
  import opened TripsSafety
  import Ledger

  /** An unconditional write whose check lies in the past. */
  datatype LateWrite =
    | OfferWrite(shown: seq<Driver>)    // offerToDrivers, at the end of a search
    | FreeWrite(shown: seq<Driver>)     // the body of an offer timer, after its check
    | CancelWrite                       // cancelTrip, after its status check
    | StartWrite                        // startTrip, after its status check

  function Write(t: Trip, w: LateWrite): (u: Trip) {
    match w
    case OfferWrite(shown) => OfferToDrivers(t, shown)
    case FreeWrite(shown) => ExcludeAndRetry(t, shown)
    case CancelWrite => t.(row := t.row.(status := CANCELLED), clears := t.clears + 1)
    case StartWrite => t.(row := t.row.(status := IN_PROGRESS))
  }

  /** What each write would have to ask of the row it lands on. */
  predicate Timely(t: Trip, w: LateWrite) {
    match w
    case OfferWrite(_) => Looking(t.row.status)
    case FreeWrite(_) => Looking(t.row.status)
    case CancelWrite => t.row.status != COMPLETED
    case StartWrite => t.row.status == MATCHED || t.row.status == IN_PROGRESS
  }

  /** At most one winner, who is on the row; and a row without a winner carries nobody. */
  ghost predicate WinInv(t: Trip) {
    && |t.claims| <= 1
    && (t.claims != [] ==> t.row.driver == Some(t.claims[0]) && (Taken(t.row.status) || t.row.status == CANCELLED))
    && (t.claims == [] ==> t.row.driver.None? && (Looking(t.row.status) || t.row.status == CANCELLED))
  }

  /** What was decided stays decided: the winner on the row, the end of the trip, and one winner at most. */
  ghost predicate DecisionKept(t: Trip, u: Trip) {
    && WinInv(u)
    && t.claims <= u.claims
    && (Finished(t.row.status) ==> u.row.status == t.row.status && u.row.driver == t.row.driver)
  }

  /** A late write keeps what was decided exactly if it is timely. */
  lemma LateWriteExactly(t: Trip, w: LateWrite)
    requires WinInv(t)
    ensures DecisionKept(t, Write(t, w)) <==> Timely(t, w)
  {
    EscalationTouchesOnlyStamps(t.row.(status := REQUESTED), t.now);
  }

  datatype Move = Whole(event: Event) | Late(write: LateWrite)

  function After(t: Trip, m: Move): (u: Trip) {
    match m case Whole(e) => Step(t, e) case Late(w) => Write(t, w)
  }

  function RaceRun(t: Trip, ms: seq<Move>): (u: Trip)
    decreases |ms|
  {
    if ms == [] then t else After(RaceRun(t, ms[..|ms| - 1]), ms[|ms| - 1])
  }

  lemma SearchKeeps(t: Trip, e: Event)
    requires WinInv(t) && (e.MatchPass? || e.OfferTimeout? || e.OpsTimer?)
    ensures DecisionKept(t, Step(t, e))
  {
    EscalationTouchesOnlyStamps(t.row.(noDriverFoundAt := OrElse(t.row.noDriverFoundAt, t.now)), t.now);
    EscalationTouchesOnlyStamps(t.row.(status := REQUESTED), t.now);
    EscalationTouchesOnlyStamps(t.row, t.now);
  }

  lemma CallKeeps(t: Trip, e: Event)
    requires WinInv(t) && !e.MatchPass? && !e.OfferTimeout? && !e.OpsTimer?
    ensures DecisionKept(t, Step(t, e))
  {
  }

  /** Every late write of a run finds the row as it would have to ask. */
  ghost predicate AllTimely(t: Trip, ms: seq<Move>)
    decreases |ms|
  {
    ms != [] ==>
      var n := |ms| - 1;
      AllTimely(t, ms[..n]) && (ms[n].Late? ==> Timely(RaceRun(t, ms[..n]), ms[n].write))
  }

  /** No move of a run undoes a decision. */
  ghost predicate AllKept(t: Trip, ms: seq<Move>)
    decreases |ms|
  {
    ms != [] ==>
      var n := |ms| - 1;
      AllKept(t, ms[..n]) && DecisionKept(RaceRun(t, ms[..n]), RaceRun(t, ms))
  }

  /**
   Over whole runs, with late writes anywhere among the handlers: no decision is ever undone if and only
   if every late write is timely.
   */
  lemma {:induction false} RacesExactly(t: Trip, ms: seq<Move>)
    requires WinInv(t)
    ensures AllKept(t, ms) <==> AllTimely(t, ms)
    ensures AllTimely(t, ms) ==> DecisionKept(t, RaceRun(t, ms))
    decreases |ms|
  {
    if ms != [] {
      var n := |ms| - 1;
      RacesExactly(t, ms[..n]);
      var u := RaceRun(t, ms[..n]);
      if AllTimely(t, ms[..n]) {
        if ms[n].Late? { LateWriteExactly(u, ms[n].write); } else { WholeKeeps(u, ms[n].event); }
      }
    }
  }

  /** So with timely writes the single winner stays, and a completed or cancelled trip stays so, for ever. */
  lemma {:induction false} OneWinnerDespiteRaces(
    id: nat, isTest: bool, fare: Money, tip: Option<Money>, now: Time, lateness: nat, ms: seq<Move>, later: seq<Move>)
    requires AllTimely(CreateTrip(id, isTest, fare, tip, now, lateness), ms)
    requires AllTimely(RaceRun(CreateTrip(id, isTest, fare, tip, now, lateness), ms), later)
    ensures var t := RaceRun(CreateTrip(id, isTest, fare, tip, now, lateness), ms);
            var end := RaceRun(t, later);
            && |end.claims| <= 1
            && (Looking(end.row.status) ==> end.row.driver.None?)
            && (t.claims != [] ==> end.claims == t.claims && end.row.driver == Some(t.claims[0]))
            && (Finished(t.row.status) ==> end.row.status == t.row.status && end.row.driver == t.row.driver)
  {
    RacesExactly(CreateTrip(id, isTest, fare, tip, now, lateness), ms);
    RacesExactly(RaceRun(CreateTrip(id, isTest, fare, tip, now, lateness), ms), later);
  }

  // ---- Settlement ----

  function Settlements(t: Trip): (n: nat) {
    |t.stamping| + |t.owing| + |t.payouts|
  }

  /**
   At most one payout done or on its way, none before completion, one after it for a real trip unless the
   process crashed, never one for a test trip; and every completeTrip call and payout is the winner's.
   */
  ghost predicate SettledOnce(t: Trip, fare: Money) {
    && WinInv(t) && FareInv(t, fare)
    && Settlements(t) <= (if t.row.status == COMPLETED then 1 else 0)
    && (t.row.status == COMPLETED && !t.crashed && !t.row.isTest ==> Settlements(t) == 1)
    && (t.row.isTest ==> t.payouts == [])
    && (forall c | c in t.checked || c in t.stamping || c in t.owing :: t.claims == [c.driver])
    && (forall p | p in t.payouts :: p.TripPayout? && t.claims == [p.driver] && p.fare == fare)
  }

  /**
   Which late writes leave the settlement single: the timely ones; on a cancelled row, a start if the trip had
   been won and any other write if it had not; and a cancellation or a start on a completed row with nothing
   settled, be it a test trip or after a crash.
   */
  predicate KeepsSettlement(t: Trip, w: LateWrite) {
    || Timely(t, w)
    || (t.row.status == CANCELLED && (t.claims == [] <==> !w.StartWrite?))
    || (t.row.status == COMPLETED && Settlements(t) == 0 && (w.CancelWrite? || w.StartWrite?))
  }

  lemma LateSettlementExactly(t: Trip, w: LateWrite, fare: Money)
    requires SettledOnce(t, fare)
    ensures SettledOnce(Write(t, w), fare) <==> KeepsSettlement(t, w)
  {
    EscalationTouchesOnlyStamps(t.row.(status := REQUESTED), t.now);
    LateWriteFares(t, w, fare);
  }

  lemma LateWriteFares(t: Trip, w: LateWrite, fare: Money)
    requires FareInv(t, fare)
    ensures FareInv(Write(t, w), fare)
  {
    EscalationTouchesOnlyStamps(t.row.(status := REQUESTED), t.now);
    var u := Write(t, w);
    forall c | c in u.checked || c in u.stamping || c in u.owing ensures Promised(u, c) {
      assert Promised(t, c);
    }
  }

  lemma WholeKeeps(t: Trip, e: Event)
    requires WinInv(t)
    ensures DecisionKept(t, Step(t, e))
  {
    if e.MatchPass? || e.OfferTimeout? || e.OpsTimer? { SearchKeeps(t, e); } else { CallKeeps(t, e); }
  }

  lemma CallsStay(t: Trip, e: Event, fare: Money)
    requires SettledOnce(t, fare) && Elsewhere(e)
    ensures SettledOnce(Step(t, e), fare)
  {
    WholeKeeps(t, e);
    FareStep(t, e, fare);
    CallsUntouched(t, e);
    FaresUntouched(t, e);
  }

  lemma ClaimSettles(t: Trip, i: nat, fare: Money)
    requires SettledOnce(t, fare)
    ensures SettledOnce(AfterCompleteClaim(t, i), fare)
  {
    FareClaim(t, i, fare);
  }

  lemma StampSettles(t: Trip, fare: Money)
    requires SettledOnce(t, fare)
    ensures SettledOnce(AfterCompleteStamp(t), fare)
  {
    FareStamp(t, fare);
  }

  lemma PaySettles(t: Trip, fare: Money)
    requires SettledOnce(t, fare)
    ensures SettledOnce(AfterCompletePay(t), fare)
  {
    FarePay(t, fare);
    if t.owing != [] { assert Promised(t, t.owing[0]) && t.owing[0] in t.owing; }
  }

  lemma ReadSettles(t: Trip, e: Event, fare: Money)
    requires SettledOnce(t, fare) && (e.CompleteRead? || e.Crash?)
    ensures SettledOnce(Step(t, e), fare)
  {
    FareStep(t, e, fare);
  }

  lemma WholeSettles(t: Trip, e: Event, fare: Money)
    requires SettledOnce(t, fare)
    ensures SettledOnce(Step(t, e), fare)
  {
    match e
    case CompleteRead(_) => ReadSettles(t, e, fare);
    case Crash => ReadSettles(t, e, fare);
    case CompleteClaim(i) => ClaimSettles(t, i, fare);
    case CompleteStamp => StampSettles(t, fare);
    case CompletePay => PaySettles(t, fare);
    case _ => CallsStay(t, e, fare);
  }

  ghost predicate AlwaysSettledOnce(t: Trip, ms: seq<Move>, fare: Money)
    decreases |ms|
  {
    SettledOnce(RaceRun(t, ms), fare) && (ms != [] ==> AlwaysSettledOnce(t, ms[..|ms| - 1], fare))
  }

  ghost predicate AllKeepSettlement(t: Trip, ms: seq<Move>)
    decreases |ms|
  {
    ms != [] ==>
      var n := |ms| - 1;
      AllKeepSettlement(t, ms[..n]) && (ms[n].Late? ==> KeepsSettlement(RaceRun(t, ms[..n]), ms[n].write))
  }

  /** Over whole runs with late writes: settlement stays single exactly if every late write is of that sort. */
  lemma {:induction false} SettlementExactly(t: Trip, ms: seq<Move>, fare: Money)
    requires SettledOnce(t, fare)
    ensures AlwaysSettledOnce(t, ms, fare) <==> AllKeepSettlement(t, ms)
    decreases |ms|
  {
    if ms != [] {
      var n := |ms| - 1;
      SettlementExactly(t, ms[..n], fare);
      var u := RaceRun(t, ms[..n]);
      if AlwaysSettledOnce(t, ms[..n], fare) {
        assert SettledOnce(u, fare);
        if ms[n].Whole? { WholeSettles(u, ms[n].event, fare); } else { LateSettlementExactly(u, ms[n].write, fare); }
      }
    }
  }

  lemma {:induction false} TimelyKeepsSettlement(t: Trip, ms: seq<Move>)
    requires AllTimely(t, ms)
    ensures AllKeepSettlement(t, ms)
    decreases |ms|
  {
    if ms != [] { TimelyKeepsSettlement(t, ms[..|ms| - 1]); }
  }

  /**
   So with timely writes a trip is paid for at most once, only when completed, at the promised fare, to its
   winner.
   */
  lemma {:induction false} PaidOnceDespiteRaces(
    id: nat, isTest: bool, fare: Money, tip: Option<Money>, now: Time, lateness: nat, ms: seq<Move>)
    requires AllTimely(CreateTrip(id, isTest, fare, tip, now, lateness), ms)
    ensures var t := RaceRun(CreateTrip(id, isTest, fare, tip, now, lateness), ms);
            && Settlements(t) <= (if t.row.status == COMPLETED then 1 else 0)
            && (!t.crashed && !t.row.isTest ==> Settlements(t) == (if t.row.status == COMPLETED then 1 else 0))
            && (forall p | p in t.payouts :: p.TripPayout? && t.claims == [p.driver] && p.fare == fare && !t.row.isTest)
  {
    var t0 := CreateTrip(id, isTest, fare, tip, now, lateness);
    TimelyKeepsSettlement(t0, ms);
    SettlementExactly(t0, ms, fare);
    assert AlwaysSettledOnce(t0, ms, fare);
  }

  // ---- What late writes can do ----

  /** A search still under way when the rider cancels brings the trip back, and a driver can then win it. */
  lemma LateOfferReopens(t: Trip, shown: seq<Driver>, d: Driver)
    requires WinInv(t) && t.row.status == CANCELLED
    ensures var u := Write(t, OfferWrite(shown));
            u.row.status == MATCHING && Step(u, Accept(d)).claims == t.claims + [d]
  {
  }

  /**
   One still under way at a manual assignment takes the winner off the row, and a second driver can win the trip.
   */
  lemma LateOfferUnseats(t: Trip, winner: Driver, shown: seq<Driver>, d: Driver)
    requires WinInv(t) && Looking(t.row.status)
    ensures var u := Write(Step(t, ManualAssign(winner)), OfferWrite(shown));
            u.row.driver.None? && Step(u, Accept(d)).claims == [winner, d]
  {
  }

  /**
   The reset of an offer timer that lands after an accept puts the trip back to REQUESTED with the winner
   still on the row; the search it starts takes the winner off, and a second driver can win.
   */
  lemma LateFreeLetsTwoWin(t: Trip, shown: seq<Driver>, next: seq<Driver>, d: Driver)
    requires WinInv(t) && |t.claims| == 1
    ensures var u := Write(t, FreeWrite(shown));
            && u.row.status == REQUESTED && u.row.driver == Some(t.claims[0])
            && Timely(u, OfferWrite(next)) && Step(Write(u, OfferWrite(next)), Accept(d)).claims == t.claims + [d]
  {
    EscalationTouchesOnlyStamps(t.row.(status := REQUESTED), t.now);
  }

  /** A second startTrip whose write lands after the completion lets completeTrip pay the driver again. */
  lemma LateStartPaysTwice(t: Trip, d: Driver, fare: Money)
    requires SettledOnce(t, fare) && t.row.status == COMPLETED && !t.row.isTest
    requires t.claims == [d] && t.checked == [] && |t.payouts| == 1
    ensures var u := Write(t, StartWrite);
            var v := Step(Step(Step(Step(u, CompleteRead(d)), CompleteClaim(0)), CompleteStamp), CompletePay);
            && v.row.status == COMPLETED
            && v.payouts == t.payouts + [Ledger.TripPayout(d, t.id, fare, t.row.tipAmount)]
  {
    CompletionPays(Write(t, StartWrite), d, fare);
  }
}
