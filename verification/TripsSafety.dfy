/** What every run of a trip keeps: one winner, one payout, the promised fare. */
module TripsSafety {
  import opened Domain
  import opened Exclusion
  import opened Commission
  import opened Ranking
  import opened Trips
  import Ledger

  // ---- One winner ----

  ghost predicate RowInv(t: Trip) {
    && |t.passes| <= 1
    && |t.claims| <= 1
    && (t.claims != [] ==> t.row.driver == Some(t.claims[0]))
    && (Looking(t.row.status) ==> t.row.driver.None? && t.claims == [] && t.clears == 0)
    && (t.row.status == MATCHING ==> t.passes == [] && t.rounds != [])
    && (Taken(t.row.status) ==> |t.claims| == 1)
    && t.row.offerCount == |t.rounds|
  }

  ghost predicate RowKept(t: Trip, u: Trip) {
    && RowInv(u)
    && t.claims <= u.claims && t.rounds <= u.rounds
    && u.lateness == t.lateness && u.row.isTest == t.row.isTest && u.row.requestedAt == t.row.requestedAt
  }

  lemma EscalationTouchesOnlyStamps(row: Row, now: Time)
    ensures EscalateIfStuck(row, now)
            == row.(opsAlertedAt := EscalateIfStuck(row, now).opsAlertedAt,
                    opsEscalatedAt := EscalateIfStuck(row, now).opsEscalatedAt)
  {
  }

  lemma RowMatchPass(t: Trip, nearby: seq<seq<Scored>>)
    requires RowInv(t)
    ensures RowKept(t, AfterMatchPass(t, nearby))
  {
    EscalationTouchesOnlyStamps(t.row.(noDriverFoundAt := OrElse(t.row.noDriverFoundAt, t.now)), t.now);
  }

  lemma RowTimer(t: Trip, e: Event)
    requires RowInv(t) && (e.OfferTimeout? || e.OpsTimer?)
    ensures RowKept(t, Step(t, e))
  {
    EscalationTouchesOnlyStamps(t.row.(status := REQUESTED), t.now);
    EscalationTouchesOnlyStamps(t.row, t.now);
  }

  lemma RowClaim(t: Trip, e: Event)
    requires RowInv(t) && (e.Accept? || e.ManualAssign? || e.Cancel? || e.Start?)
    ensures RowKept(t, Step(t, e))
  {
  }

  lemma RowComplete(t: Trip, e: Event)
    requires RowInv(t) && (e.CompleteClaim? || e.CompleteStamp? || e.CompletePay?)
    ensures RowKept(t, Step(t, e))
  {
  }

  lemma RowStep(t: Trip, e: Event)
    requires RowInv(t)
    ensures RowKept(t, Step(t, e))
  {
    match e
    case MatchPass(nearby) => RowMatchPass(t, nearby);
    case OfferTimeout(_) => RowTimer(t, e);
    case OpsTimer(_) => RowTimer(t, e);
    case Accept(_) => RowClaim(t, e);
    case ManualAssign(_) => RowClaim(t, e);
    case Cancel => RowClaim(t, e);
    case Start(_) => RowClaim(t, e);
    case CompleteClaim(_) => RowComplete(t, e);
    case CompleteStamp => RowComplete(t, e);
    case CompletePay => RowComplete(t, e);
    case _ =>
  }

  lemma {:induction false} RowRun(t: Trip, es: seq<Event>)
    requires RowInv(t)
    ensures RowKept(t, Run(t, es))
    decreases |es|
  {
    if es != [] {
      var n := |es| - 1;
      RowRun(t, es[..n]);
      RowStep(Run(t, es[..n]), es[n]);
    }
  }

  /**
   Over every interleaving of offers, accepts, declines, timeouts, manual assignments and cancellations at
   most one accept or assignment succeeds; its driver stays on the row through everything that follows; and
   a trip nobody has claimed carries no driver.
   */
  lemma {:induction false} OneWinnerForEver(
    id: nat, isTest: bool, fare: Money, tip: Option<Money>, now: Time, lateness: nat, es: seq<Event>, later: seq<Event>)
    ensures var t := Run(CreateTrip(id, isTest, fare, tip, now, lateness), es);
            && |t.claims| <= 1
            && (Looking(t.row.status) ==> t.row.driver.None? && t.claims == [])
            && (Taken(t.row.status) ==> t.claims != [])
            && (t.claims != [] ==>
                  Run(t, later).claims == t.claims && Run(t, later).row.driver == Some(t.claims[0]))
  {
    RowRun(CreateTrip(id, isTest, fare, tip, now, lateness), es);
    RowRun(Run(CreateTrip(id, isTest, fare, tip, now, lateness), es), later);
  }

  // ---- The promised fare ----

  ghost predicate Promised(t: Trip, c: Call) {
    c.fare == t.row.fare && c.acceptedFare == t.row.acceptedFare
  }

  /** The posting that settling this trip writes. */
  ghost predicate Settles(t: Trip, p: Ledger.Posting)
    requires t.row.fare.Some? && t.row.driver.Some?
  {
    p == Ledger.TripPayout(t.row.driver.value, t.id, t.row.fare.value, t.row.tipAmount)
  }

  ghost predicate FareInv(t: Trip, fare: Money) {
    && t.row.fare == Some(fare) && t.row.quotedFare == Some(fare) && t.row.acceptedFare == Some(fare)
    && (t.row.finalFare.Some? ==> t.row.finalFare == Some(fare))
    && !t.row.fareDrifted
    && (forall c | c in t.checked || c in t.stamping || c in t.owing :: Promised(t, c))
    && (t.owing != [] || t.payouts != [] ==> t.row.finalFare.Some?)
  }

  /** The events that are no part of a completeTrip call. */
  predicate Elsewhere(e: Event) {
    !e.CompleteRead? && !e.CompleteClaim? && !e.CompleteStamp? && !e.CompletePay? && !e.Crash?
  }

  lemma CallsUntouched(t: Trip, e: Event)
    requires Elsewhere(e)
    ensures var u := Step(t, e);
            && u.checked == t.checked && u.stamping == t.stamping && u.owing == t.owing && u.payouts == t.payouts
            && u.crashed == t.crashed && u.id == t.id
  {
  }

  ghost predicate SameFares(r: Row, s: Row) {
    && r.fare == s.fare && r.quotedFare == s.quotedFare && r.acceptedFare == s.acceptedFare
    && r.finalFare == s.finalFare && r.fareDrifted == s.fareDrifted && r.tipAmount == s.tipAmount
    && r.isTest == s.isTest
  }

  lemma RowOnlyMoves(t: Trip, e: Event)
    requires Elsewhere(e) && !e.MatchPass? && !e.OfferTimeout? && !e.OpsTimer?
    ensures SameFares(Step(t, e).row, t.row)
    ensures Step(t, e).row.status == COMPLETED <==> t.row.status == COMPLETED
  {
  }

  lemma FaresUntouched(t: Trip, e: Event)
    requires Elsewhere(e)
    ensures SameFares(Step(t, e).row, t.row)
    ensures Step(t, e).row.status == COMPLETED <==> t.row.status == COMPLETED
  {
    match e
    case MatchPass(_) =>
      EscalationTouchesOnlyStamps(t.row.(noDriverFoundAt := OrElse(t.row.noDriverFoundAt, t.now)), t.now);
    case OfferTimeout(_) => EscalationTouchesOnlyStamps(t.row.(status := REQUESTED), t.now);
    case OpsTimer(_) => EscalationTouchesOnlyStamps(t.row, t.now);
    case _ => RowOnlyMoves(t, e);
  }

  lemma FareClaim(t: Trip, i: nat, fare: Money)
    requires FareInv(t, fare)
    ensures FareInv(AfterCompleteClaim(t, i), fare)
  {
    var u := AfterCompleteClaim(t, i);
    forall c | c in u.checked || c in u.stamping || c in u.owing ensures Promised(u, c) {
      assert c in t.checked || c in t.stamping || c in t.owing;
    }
  }

  lemma FareStamp(t: Trip, fare: Money)
    requires FareInv(t, fare)
    ensures FareInv(AfterCompleteStamp(t), fare)
  {
    if t.stamping != [] {
      assert t.stamping[0] in t.stamping;
      assert Promised(t, t.stamping[0]);
      var u := AfterCompleteStamp(t);
      forall c | c in u.checked || c in u.stamping || c in u.owing ensures Promised(u, c) {
        assert c in t.checked || c in t.stamping || c in t.owing;
      }
    }
  }

  lemma FareRead(t: Trip, d: Driver, fare: Money)
    requires FareInv(t, fare)
    ensures FareInv(Step(t, CompleteRead(d)), fare)
  {
    var u := Step(t, CompleteRead(d));
    forall c | c in u.checked || c in u.stamping || c in u.owing ensures Promised(u, c) {
      assert c in t.checked || c in t.stamping || c in t.owing || c == Call(d, t.row.fare, t.row.acceptedFare);
    }
  }

  lemma FarePay(t: Trip, fare: Money)
    requires FareInv(t, fare)
    ensures FareInv(AfterCompletePay(t), fare)
  {
    var u := AfterCompletePay(t);
    forall c | c in u.checked || c in u.stamping || c in u.owing ensures Promised(u, c) {
      assert c in t.checked || c in t.stamping || c in t.owing;
    }
  }

  lemma FareStep(t: Trip, e: Event, fare: Money)
    requires FareInv(t, fare)
    ensures FareInv(Step(t, e), fare)
  {
    match e
    case CompleteRead(d) => FareRead(t, d, fare);
    case CompleteClaim(i) => FareClaim(t, i, fare);
    case CompleteStamp => FareStamp(t, fare);
    case CompletePay => FarePay(t, fare);
    case Crash =>
    case _ =>
      CallsUntouched(t, e);
      FaresUntouched(t, e);
  }

  lemma {:induction false} FareRun(t: Trip, es: seq<Event>, fare: Money)
    requires FareInv(t, fare)
    ensures FareInv(Run(t, es), fare)
    decreases |es|
  {
    if es != [] {
      var n := |es| - 1;
      FareRun(t, es[..n], fare);
      FareStep(Run(t, es[..n]), es[n], fare);
    }
  }

  // ---- One payout ----

  ghost predicate PayInv(t: Trip) {
    && (t.row.status != COMPLETED ==> t.stamping == [] && t.owing == [] && t.payouts == [])
    && |t.payouts| + |t.owing| + |t.stamping| <= 1
    && (t.row.status == COMPLETED && !t.crashed && !t.row.isTest ==>
          |t.payouts| + |t.owing| + |t.stamping| == 1)
    && (t.row.isTest ==> t.payouts == [])
    && (t.row.status != IN_PROGRESS && t.row.status != COMPLETED ==> t.checked == [])
    && (forall c | c in t.checked || c in t.stamping || c in t.owing ::
          t.row.driver == Some(c.driver) && (t.row.status == IN_PROGRESS || t.row.status == COMPLETED))
    && (forall p | p in t.payouts :: t.row.driver.Some? && t.row.fare.Some? && Settles(t, p))
  }

  lemma UnderWayStays(t: Trip, e: Event)
    requires t.row.status == IN_PROGRESS || t.row.status == COMPLETED
    requires !e.CompleteClaim?
    ensures Step(t, e).row.status == t.row.status && Step(t, e).row.driver == t.row.driver
  {
  }

  lemma PayClaim(t: Trip, i: nat, fare: Money)
    requires PayInv(t) && FareInv(t, fare)
    ensures PayInv(AfterCompleteClaim(t, i))
  {
  }

  lemma PayWrite(t: Trip, fare: Money)
    requires PayInv(t) && FareInv(t, fare)
    ensures PayInv(AfterCompletePay(t))
  {
    if t.owing != [] {
      assert t.owing[0] in t.owing;
      assert Promised(t, t.owing[0]);
    }
  }

  lemma PayStamp(t: Trip, e: Event)
    requires PayInv(t) && (e.CompleteRead? || e.CompleteStamp?)
    ensures PayInv(Step(t, e))
  {
  }

  lemma PayStep(t: Trip, e: Event, fare: Money)
    requires PayInv(t) && FareInv(t, fare)
    ensures PayInv(Step(t, e))
  {
    match e
    case CompleteRead(_) => PayStamp(t, e);
    case CompleteClaim(i) => PayClaim(t, i, fare);
    case CompleteStamp => PayStamp(t, e);
    case CompletePay => PayWrite(t, fare);
    case Crash =>
    case _ =>
      CallsUntouched(t, e);
      FaresUntouched(t, e);
      if t.row.status == IN_PROGRESS || t.row.status == COMPLETED { UnderWayStays(t, e); }
  }

  lemma {:induction false} PayRun(t: Trip, es: seq<Event>, fare: Money)
    requires PayInv(t) && FareInv(t, fare)
    ensures PayInv(Run(t, es))
    decreases |es|
  {
    if es != [] {
      var n := |es| - 1;
      PayRun(t, es[..n], fare);
      FareRun(t, es[..n], fare);
      PayStep(Run(t, es[..n]), es[n], fare);
    }
  }

  /**
   Settlement is exactly once however completeTrip calls interleave. For a real trip, payouts written plus
   calls past the claim and not yet paid make one when the trip is COMPLETED and none before; a crash can
   only lose the call that was under way. A test trip never pays.
   */
  lemma {:induction false} PaidExactlyOnce(
    id: nat, isTest: bool, fare: Money, tip: Option<Money>, now: Time, lateness: nat, es: seq<Event>)
    ensures var t := Run(CreateTrip(id, isTest, fare, tip, now, lateness), es);
            var settled := |t.payouts| + |t.owing| + |t.stamping|;
            && settled <= (if t.row.status == COMPLETED then 1 else 0)
            && (!isTest && !t.crashed ==> settled == (if t.row.status == COMPLETED then 1 else 0))
            && (isTest ==> t.payouts == [])
  {
    var t0 := CreateTrip(id, isTest, fare, tip, now, lateness);
    RowRun(t0, es);
    PayRun(t0, es, fare);
  }

  /**
   The fare promise over whole runs: quoted, accepted and operative fare stay what was booked, no drift is
   ever stamped, and what the ledger is told is that fare, paid to the driver who won the trip, after the
   same figure was stamped as the final fare.
   */
  lemma {:induction false} FarePromiseKept(
    id: nat, isTest: bool, fare: Money, tip: Option<Money>, now: Time, lateness: nat, es: seq<Event>)
    ensures var t := Run(CreateTrip(id, isTest, fare, tip, now, lateness), es);
            && t.row.fare == t.row.quotedFare == t.row.acceptedFare == Some(fare)
            && !t.row.fareDrifted
            && forall p | p in t.payouts ::
                 && p.TripPayout? && p.fare == fare
                 && p.tip == t.row.tipAmount == (if tip.Some? && tip.value > 0 then tip else None)
                 && t.row.finalFare == Some(fare)
                 && t.claims == [p.driver]
  {
    var t0 := CreateTrip(id, isTest, fare, tip, now, lateness);
    FareRun(t0, es, fare);
    RowRun(t0, es);
    PayRun(t0, es, fare);
    var t := Run(t0, es);
    TipStays(t0, es);
    forall p | p in t.payouts ensures Settles(t, p) && t.claims == [p.driver] { }
  }

  lemma {:induction false} TipStays(t: Trip, es: seq<Event>)
    ensures Run(t, es).row.tipAmount == t.row.tipAmount
    decreases |es|
  {
    if es != [] {
      var n := |es| - 1;
      TipStays(t, es[..n]);
      TipStep(Run(t, es[..n]), es[n]);
    }
  }

  lemma TipStep(t: Trip, e: Event)
    ensures Step(t, e).row.tipAmount == t.row.tipAmount
  {
    if Elsewhere(e) { FaresUntouched(t, e); }
  }

  // ---- The end of a trip ----

  predicate Finished(st: TripStatus) {
    st.COMPLETED? || st.CANCELLED?
  }

  lemma FinishedStep(t: Trip, e: Event)
    requires Finished(t.row.status)
    ensures Step(t, e).row.status == t.row.status && Step(t, e).row.driver == t.row.driver
  {
  }

  /**
   A completed trip stays completed and a cancelled one cancelled, timers and match passes still pending
   included.
   */
  lemma {:induction false} FinishedForEver(t: Trip, es: seq<Event>)
    requires Finished(t.row.status)
    ensures Run(t, es).row.status == t.row.status && Run(t, es).row.driver == t.row.driver
    decreases |es|
  {
    if es != [] {
      var n := |es| - 1;
      FinishedForEver(t, es[..n]);
      FinishedStep(Run(t, es[..n]), es[n]);
    }
  }

  lemma RunSnoc(t: Trip, es: seq<Event>, e: Event)
    ensures Run(t, es + [e]) == Step(Run(t, es), e)
  {
    assert (es + [e])[..|es + [e]| - 1] == es;
  }

  /** The calls of the driver who was matched, up to the ledger write. */
  function Journey(d: Driver): (r: seq<Event>) {
    [Start(d)] + [CompleteRead(d)] + [CompleteClaim(0)] + [CompleteStamp] + [CompletePay]
  }

  lemma StampedAndPaid(t: Trip, call: Call, fare: Money)
    requires t.stamping == [call] && call.fare == call.acceptedFare == Some(fare) && t.owing == []
    ensures var u := Step(Step(t, CompleteStamp), CompletePay);
            && u.row.status == t.row.status && u.row.finalFare == Some(fare)
            && u.payouts == t.payouts + if t.row.isTest then []
                                        else [Ledger.TripPayout(call.driver, t.id, fare, t.row.tipAmount)]
  {
  }

  lemma CompletionPays(t: Trip, d: Driver, fare: Money)
    requires t.row.driver == Some(d) && t.row.status == IN_PROGRESS && t.row.fare == t.row.acceptedFare == Some(fare)
    requires t.checked == [] && t.stamping == [] && t.owing == []
    ensures var u := Step(Step(Step(Step(t, CompleteRead(d)), CompleteClaim(0)), CompleteStamp), CompletePay);
            && u.row.status == COMPLETED && u.row.finalFare == Some(fare)
            && u.payouts == t.payouts + if t.row.isTest then [] else [Ledger.TripPayout(d, t.id, fare, t.row.tipAmount)]
  {
    var call := Call(d, Some(fare), Some(fare));
    var u := t.(checked := [call]);
    assert Step(t, CompleteRead(d)) == u;
    var v := t.(row := t.row.(status := COMPLETED), stamping := [call]);
    assert Step(u, CompleteClaim(0)) == v;
    StampedAndPaid(v, call, fare);
  }

  /**
   The matched driver's own calls complete the trip, at the promised fare, and pay that driver (a test trip
   nobody).
   */
  lemma JourneyPays(t: Trip, d: Driver, fare: Money)
    requires RowInv(t) && FareInv(t, fare) && PayInv(t) && t.row.status == MATCHED && t.row.driver == Some(d)
    ensures var u := Run(t, Journey(d));
            && u.row.status == COMPLETED && u.row.finalFare == Some(fare)
            && u.payouts == if t.row.isTest then [] else [Ledger.TripPayout(d, t.id, fare, t.row.tipAmount)]
  {
    var k := t.(row := t.row.(status := IN_PROGRESS));
    CompletionPays(k, d, fare);
    assert Run(t, []) == t && [] + [Start(d)] == [Start(d)];
    RunSnoc(t, [], Start(d));
    RunSnoc(t, [Start(d)], CompleteRead(d));
    RunSnoc(t, [Start(d)] + [CompleteRead(d)], CompleteClaim(0));
    RunSnoc(t, [Start(d)] + [CompleteRead(d)] + [CompleteClaim(0)], CompleteStamp);
    RunSnoc(t, [Start(d)] + [CompleteRead(d)] + [CompleteClaim(0)] + [CompleteStamp], CompletePay);
  }
}
