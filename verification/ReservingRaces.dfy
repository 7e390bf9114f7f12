/**
 Writes that land late. Several handlers of the reserving services read the row, await, and then write
 without a condition. Here such a write may land at any later moment, on whatever the row has become.
 The protocol's decisions survive exactly if the write still finds the row in a state it was meant for.
 */
module ReservingRaces {
  import opened Domain
  import opened Reserving
  import opened ReservingSafety

  /** An unconditional write whose check lies in the past. */
  datatype LateWrite =
    | OfferWrite(driver: Driver)    // offerToDriver, at the end of a search
    | FreeWrite(driver: Driver)     // handleDeclineOrTimeout, after the check of a decline or a timer
    | CancelWrite                   // the cancellation, after its status check
    | ProgressWrite(to: Status)     // a progress call of the driver, after its status check
    | KitchenWrite(to: Status)      // acceptOrder or markReady, after its status check

  function Write(j: Job, w: LateWrite): (k: Job) {
    match w
    case OfferWrite(d) => OfferTo(j, d)
    case FreeWrite(d) => DeclineOrTimeout(j, d)
    case CancelWrite => j.(status := CANCELLED, clears := j.clears + 1)
    case ProgressWrite(to) => j.(status := to)
    case KitchenWrite(to) => j.(status := to, passes := if to == READY then j.passes + [j.now] else j.passes)
  }

  /** The check that came before the write, on the row as it then was; the one of an offer is its search. */
  predicate CheckPasses(j: Job, w: LateWrite) {
    match w
    case OfferWrite(_) => Searching(j.kind, j.status)
    case FreeWrite(d) => j.status == MATCHING && j.driver == Some(d)
    case CancelWrite => CancellableFrom(j.kind, j.status)
    case ProgressWrite(to) => j.driver.Some? && Advanced(j.kind, j.status) == Some(to)
    case KitchenWrite(to) =>
      j.kind.Food? && ((j.status == PLACED && to == ACCEPTED) || (j.status == ACCEPTED && to == READY))
  }

  /** The statuses progress calls write. */
  predicate IsProgress(k: Kind, st: Status) {
    Held(k, st) && st != DELIVERED
  }

  predicate WellFormed(k: Kind, w: LateWrite) {
    && (w.ProgressWrite? ==> IsProgress(k, w.to))
    && (w.KitchenWrite? ==> k.Food? && (w.to == ACCEPTED || w.to == READY))
  }

  /** What each write would have to ask of the row it lands on. */
  predicate Timely(j: Job, w: LateWrite) {
    match w
    case OfferWrite(_) => Preparing(j.kind, j.status) || Searching(j.kind, j.status)
    case FreeWrite(_) => Preparing(j.kind, j.status) || Searching(j.kind, j.status)
    case KitchenWrite(_) => Preparing(j.kind, j.status) || Searching(j.kind, j.status)
    case CancelWrite => j.status != DELIVERED
    case ProgressWrite(_) => IsProgress(j.kind, j.status)
  }

  /** At most one winner, who is on the row; and a row without a winner is held by nobody. */
  ghost predicate WinInv(j: Job) {
    && |j.claims| <= 1
    && (j.claims != [] ==> j.driver == Some(j.claims[0]) && (Held(j.kind, j.status) || j.status == CANCELLED))
    && (j.claims == [] ==>
          Preparing(j.kind, j.status) || Searching(j.kind, j.status) || j.status == CANCELLED)
  }

  /** What was decided stays decided: the winner on the row, the end of the job, and one winner at most. */
  ghost predicate DecisionKept(j: Job, k: Job) {
    && WinInv(k) && k.kind == j.kind
    && j.claims <= k.claims
    && (Finished(j.status) ==> k.status == j.status && k.driver == j.driver)
  }

  /** A late write keeps what was decided exactly if it is timely. */
  lemma LateWriteExactly(j: Job, w: LateWrite)
    requires WinInv(j) && WellFormed(j.kind, w)
    ensures DecisionKept(j, Write(j, w)) <==> Timely(j, w)
  {
  }

  datatype Move = Whole(event: Event) | Late(write: LateWrite)

  function After(j: Job, m: Move): (k: Job) {
    match m case Whole(e) => Step(j, e) case Late(w) => Write(j, w)
  }

  function RaceRun(j: Job, ms: seq<Move>): (k: Job)
    decreases |ms|
  {
    if ms == [] then j else After(RaceRun(j, ms[..|ms| - 1]), ms[|ms| - 1])
  }

  lemma WholeKeeps(j: Job, e: Event)
    requires WinInv(j)
    ensures DecisionKept(j, Step(j, e))
  {
    match e
    case MatchPass(_) => PassKeeps(j, e);
    case Decline(_) => PassKeeps(j, e);
    case Timeout(_) => PassKeeps(j, e);
    case DeliverClaim(d) => DeliverKeeps(j, d);
    case Advance(_) => ProgressKeeps(j, e);
    case RestaurantAccept => ProgressKeeps(j, e);
    case MarkReady => ProgressKeeps(j, e);
    case _ => ClaimKeeps(j, e);
  }

  lemma PassKeeps(j: Job, e: Event)
    requires WinInv(j) && (e.MatchPass? || e.Decline? || e.Timeout?)
    ensures DecisionKept(j, Step(j, e))
  {
  }

  lemma DeliverKeeps(j: Job, d: Driver)
    requires WinInv(j)
    ensures DecisionKept(j, AfterDeliverClaim(j, d))
  {
  }

  lemma ProgressKeeps(j: Job, e: Event)
    requires WinInv(j) && (e.Advance? || e.RestaurantAccept? || e.MarkReady?)
    ensures DecisionKept(j, Step(j, e))
  {
  }

  lemma ClaimKeeps(j: Job, e: Event)
    requires WinInv(j) && !e.MatchPass? && !e.Decline? && !e.Timeout? && !e.DeliverClaim?
    requires !e.Advance? && !e.RestaurantAccept? && !e.MarkReady?
    ensures DecisionKept(j, Step(j, e))
  {
  }

  /** Every late write of a run finds the row as it would have to ask. */
  ghost predicate AllTimely(j: Job, ms: seq<Move>)
    decreases |ms|
  {
    ms != [] ==>
      var n := |ms| - 1;
      AllTimely(j, ms[..n]) && (ms[n].Late? ==> Timely(RaceRun(j, ms[..n]), ms[n].write))
  }

  /** No move of a run undoes a decision. */
  ghost predicate AllKept(j: Job, ms: seq<Move>)
    decreases |ms|
  {
    ms != [] ==>
      var n := |ms| - 1;
      AllKept(j, ms[..n]) && DecisionKept(RaceRun(j, ms[..n]), RaceRun(j, ms))
  }

  /** The handlers meant here write only statuses that exist for the kind. */
  ghost predicate AllWellFormed(k: Kind, ms: seq<Move>) {
    forall i | 0 <= i < |ms| && ms[i].Late? :: WellFormed(k, ms[i].write)
  }

  /**
   Over whole runs, with late writes anywhere among the handlers: no decision is ever undone if and only
   if every late write is timely.
   */
  lemma {:induction false} RacesExactly(j: Job, ms: seq<Move>)
    requires WinInv(j) && AllWellFormed(j.kind, ms)
    ensures AllKept(j, ms) <==> AllTimely(j, ms)
    ensures AllTimely(j, ms) ==> DecisionKept(j, RaceRun(j, ms))
    decreases |ms|
  {
    if ms != [] {
      var n := |ms| - 1;
      RacesExactly(j, ms[..n]);
      var k := RaceRun(j, ms[..n]);
      if AllTimely(j, ms[..n]) {
        if ms[n].Whole? { WholeKeeps(k, ms[n].event); } else { LateWriteExactly(k, ms[n].write); }
      }
    }
  }

  /** So with timely writes the single winner stays, and a delivered or cancelled job stays so, for ever. */
  lemma {:induction false} OneWinnerDespiteRaces(k: Kind, now: Time, lateness: nat, ms: seq<Move>, later: seq<Move>)
    requires AllWellFormed(k, ms) && AllWellFormed(k, later)
    requires AllTimely(NewJob(k, now, lateness), ms) && AllTimely(RaceRun(NewJob(k, now, lateness), ms), later)
    ensures var j := RaceRun(NewJob(k, now, lateness), ms);
            var end := RaceRun(j, later);
            && |end.claims| <= 1
            && (j.claims != [] ==> end.claims == j.claims && end.driver == Some(j.claims[0]))
            && (Finished(j.status) ==> end.status == j.status && end.driver == j.driver)
  {
    RacesExactly(NewJob(k, now, lateness), ms);
    RacesExactly(RaceRun(NewJob(k, now, lateness), ms), later);
  }

  // ---- Settlement ----

  /**
   At most one payout done or owed, none before the delivery, one after it unless the process crashed; and
   every markDelivered call, payout and debt is the winner's.
   */
  ghost predicate SettledOnce(j: Job) {
    && WinInv(j)
    && |j.owing| + |j.payouts| <= (if j.status == DELIVERED then 1 else 0)
    && (j.status == DELIVERED && !j.crashed ==> |j.owing| + |j.payouts| == 1)
    && (forall d | d in j.checked || d in j.owing || d in j.payouts :: j.claims == [d])
  }

  /**
   Which late writes leave the settlement single: the timely ones; on a cancelled row, a progress call if the
   job had been won and any other write if it had not; and a cancellation or a progress call on a delivered
   row whose payout a crash has lost.
   */
  predicate KeepsSettlement(j: Job, w: LateWrite) {
    || Timely(j, w)
    || (j.status == CANCELLED && (j.claims == [] <==> !w.ProgressWrite?))
    || (j.status == DELIVERED && j.owing == [] && j.payouts == [] && (w.CancelWrite? || w.ProgressWrite?))
  }

  lemma LateSettlementExactly(j: Job, w: LateWrite)
    requires SettledOnce(j) && WellFormed(j.kind, w)
    ensures SettledOnce(Write(j, w)) <==> KeepsSettlement(j, w)
  {
  }

  lemma CallsStay(j: Job, e: Event)
    requires SettledOnce(j)
    requires !e.DeliverRead? && !e.DeliverClaim? && !e.DeliverPay? && !e.Crash?
    ensures SettledOnce(Step(j, e))
  {
    CallsUntouched(j, e);
    WholeKeeps(j, e);
  }

  lemma ReadSettles(j: Job, d: Driver)
    requires SettledOnce(j)
    ensures SettledOnce(Step(j, DeliverRead(d)))
  {
  }

  lemma ClaimSettles(j: Job, d: Driver)
    requires SettledOnce(j)
    ensures SettledOnce(AfterDeliverClaim(j, d))
  {
    assert forall x | x in AfterDeliverClaim(j, d).checked :: x in j.checked;
  }

  lemma PaySettles(j: Job, e: Event)
    requires SettledOnce(j) && (e.DeliverPay? || e.Crash?)
    ensures SettledOnce(Step(j, e))
  {
  }

  lemma WholeSettles(j: Job, e: Event)
    requires SettledOnce(j)
    ensures SettledOnce(Step(j, e))
  {
    match e
    case DeliverRead(d) => ReadSettles(j, d);
    case DeliverClaim(d) => ClaimSettles(j, d);
    case DeliverPay => PaySettles(j, e);
    case Crash => PaySettles(j, e);
    case _ => CallsStay(j, e);
  }

  ghost predicate AlwaysSettledOnce(j: Job, ms: seq<Move>)
    decreases |ms|
  {
    SettledOnce(RaceRun(j, ms)) && (ms != [] ==> AlwaysSettledOnce(j, ms[..|ms| - 1]))
  }

  ghost predicate AllKeepSettlement(j: Job, ms: seq<Move>)
    decreases |ms|
  {
    ms != [] ==>
      var n := |ms| - 1;
      AllKeepSettlement(j, ms[..n]) && (ms[n].Late? ==> KeepsSettlement(RaceRun(j, ms[..n]), ms[n].write))
  }

  /** Over whole runs with late writes: settlement stays single exactly if every late write is of that sort. */
  lemma {:induction false} SettlementExactly(j: Job, ms: seq<Move>)
    requires SettledOnce(j) && AllWellFormed(j.kind, ms)
    ensures RaceRun(j, ms).kind == j.kind
    ensures AlwaysSettledOnce(j, ms) <==> AllKeepSettlement(j, ms)
    decreases |ms|
  {
    if ms != [] {
      var n := |ms| - 1;
      SettlementExactly(j, ms[..n]);
      var k := RaceRun(j, ms[..n]);
      MoveKeepsKind(k, ms[n]);
      if AlwaysSettledOnce(j, ms[..n]) {
        assert SettledOnce(k);
        if ms[n].Whole? { WholeSettles(k, ms[n].event); } else { LateSettlementExactly(k, ms[n].write); }
      }
    }
  }

  lemma MoveKeepsKind(j: Job, m: Move)
    ensures After(j, m).kind == j.kind
  {
  }

  lemma {:induction false} TimelyKeepsSettlement(j: Job, ms: seq<Move>)
    requires AllTimely(j, ms)
    ensures AllKeepSettlement(j, ms)
    decreases |ms|
  {
    if ms != [] { TimelyKeepsSettlement(j, ms[..|ms| - 1]); }
  }

  /** So with timely writes a job is paid for at most once, only when delivered, and to the driver who won it. */
  lemma {:induction false} PaidOnceDespiteRaces(k: Kind, now: Time, lateness: nat, ms: seq<Move>)
    requires AllWellFormed(k, ms) && AllTimely(NewJob(k, now, lateness), ms)
    ensures var j := RaceRun(NewJob(k, now, lateness), ms);
            && |j.payouts| + |j.owing| <= (if j.status == DELIVERED then 1 else 0)
            && (!j.crashed ==> |j.payouts| + |j.owing| == (if j.status == DELIVERED then 1 else 0))
            && (forall d | d in j.payouts :: j.claims == [d])
  {
    TimelyKeepsSettlement(NewJob(k, now, lateness), ms);
    SettlementExactly(NewJob(k, now, lateness), ms);
    assert AlwaysSettledOnce(NewJob(k, now, lateness), ms);
  }

  // ---- What late writes can do ----

  /** A search still under way when the customer cancels brings the job back, and a driver can then win it. */
  lemma LateOfferReopens(j: Job, d: Driver)
    requires WinInv(j) && j.status == CANCELLED
    ensures var k := Write(j, OfferWrite(d));
            k.status == MATCHING && Step(k, Accept(d)).claims == j.claims + [d]
  {
  }

  /** So does a restaurant's markReady that is checked before the cancellation and written after it. */
  lemma LateReadyReopens(j: Job)
    requires WinInv(j) && j.kind.Food? && j.status == ACCEPTED
    ensures var k := Write(Step(j, Cancel), KitchenWrite(READY));
            CheckPasses(j, KitchenWrite(READY)) && k.status == Idle(j.kind) && k.passes != []
  {
  }

  /** One still under way at a manual assignment takes the winner off the row, and a second driver can win the job. */
  lemma LateOfferUnseats(j: Job, winner: Driver, d: Driver)
    requires WinInv(j) && Searching(j.kind, j.status) && d != winner
    ensures var k := Write(Step(j, ManualAssign(winner)), OfferWrite(d));
            k.driver == Some(d) && Step(k, Accept(d)).claims == [winner, d]
  {
  }

  /** The write of a timeout or a decline that lands after a claim does the same. */
  lemma LateFreeLetsTwoWin(j: Job, late: Driver, other: Driver)
    requires WinInv(j) && |j.claims| == 1 && j.passes == [] && other != late && other !in j.excluded.members
    ensures var k := Write(j, FreeWrite(late));
            k.driver.None? && Step(Step(k, MatchPass([[other]])), Accept(other)).claims == j.claims + [other]
  {
    var k := DeclineOrTimeout(j, late);
    assert FirstCandidate([[other]], k.excluded.Live(k.now)) == Some(other);
  }

  /**
   The write of markInTransit that lands after the delivery lets the parcel be delivered, and its driver
   paid, again; then only the unique (job, type) key of the ledger stands between.
   */
  lemma LateProgressPaysTwice(j: Job, d: Driver)
    requires j.kind.Parcel? && j.status == DELIVERED && j.driver == Some(d) && j.payouts == [d] && j.owing == []
    ensures var k := Write(j, ProgressWrite(IN_TRANSIT));
            Step(Step(Step(k, DeliverRead(d)), DeliverClaim(d)), DeliverPay).payouts == [d, d]
  {
    DeliveryPays(Write(j, ProgressWrite(IN_TRANSIT)), d);
  }

  // ---- The window of an offer ----

  /** A reset that ends another driver's offer before its time. */
  ghost predicate CutsShort(j: Job, k: Job, d: Driver) {
    && j.status == MATCHING && j.offers != [] && j.driver != Some(d)
    && k.status != MATCHING && j.now < j.offers[Last(j)].at + OFFER_TIMEOUT_MS
  }

  /**
   A late reset for `d` cuts an offer short exactly if it finds the row on offer to somebody else whose time
   is not up.
   */
  lemma LateFreeCutsExactly(j: Job, d: Driver)
    requires j.offers != []
    ensures !CutsShort(j, Write(j, FreeWrite(d)), d)
            <==> j.status != MATCHING || j.driver == Some(d) || j.offers[Last(j)].at + 15_000 <= j.now
  {
  }

  /**
   The input, with timers that are never late: the timer of driver 1's offer and driver 1's own decline have
   both passed their checks; the one lands, the job is offered to driver 2, and the other lands at once.
   */
  lemma DeclineAndTimerCutShort(j: Job)
    requires j.status == MATCHING && j.driver == Some(1) && j.passes == [] && 2 !in j.excluded.members
    ensures CheckPasses(j, FreeWrite(1))
    ensures var k := Step(Write(j, FreeWrite(1)), MatchPass([[2]]));
            && k.driver == Some(2) && k.offers[Last(k)] == Offer(2, j.now)
            && CutsShort(k, Write(k, FreeWrite(1)), 1)
  {
    var k := Write(j, FreeWrite(1));
    assert 2 !in k.excluded.Live(k.now);
    OfferStep(k, 2);
  }
}
