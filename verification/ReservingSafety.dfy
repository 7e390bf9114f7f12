/** What every run of the reserving protocol keeps: one winner, one payout, and no stale timer. */
module ReservingSafety {
  import opened Domain
  import opened Exclusion
  import opened Reserving

  // ---- One winner ----

  /** Who may be on the row, and what may be pending, in each status. */
  ghost predicate RowInv(j: Job) {
    && (Preparing(j.kind, j.status) || Searching(j.kind, j.status) || Held(j.kind, j.status) || j.status == CANCELLED)
    && |j.passes| <= 1
    && |j.claims| <= 1
    && (j.claims != [] ==> j.driver == Some(j.claims[0]))
    && (Preparing(j.kind, j.status) ==>
          j.driver.None? && j.claims == [] && j.passes == [] && j.clears == 0 && j.offers == [])
    && (j.status == Idle(j.kind) ==> j.driver.None? && j.claims == [] && j.clears == 0)
    && (j.status == MATCHING ==>
          && j.claims == [] && j.passes == [] && j.clears == 0
          && j.offers != [] && j.driver == Some(j.offers[|j.offers| - 1].driver))
    && (Held(j.kind, j.status) ==> |j.claims| == 1)
  }

  ghost predicate RowKept(j: Job, k: Job) {
    && RowInv(k)
    && j.claims <= k.claims
    && k.kind == j.kind && k.lateness == j.lateness
    && j.offers <= k.offers
  }

  lemma RowMatchPass(j: Job, nearby: seq<seq<Driver>>)
    requires RowInv(j)
    ensures RowKept(j, AfterMatchPass(j, nearby))
  {
  }

  lemma RowDecline(j: Job, e: Event)
    requires RowInv(j) && (e.Decline? || e.Timeout?)
    ensures RowKept(j, Step(j, e))
  {
  }

  lemma RowClaim(j: Job, e: Event)
    requires RowInv(j) && (e.Accept? || e.ManualAssign? || e.Cancel?)
    ensures RowKept(j, Step(j, e))
  {
  }

  lemma RowRestaurant(j: Job, e: Event)
    requires RowInv(j) && (e.RestaurantAccept? || e.MarkReady?)
    ensures RowKept(j, Step(j, e))
  {
  }

  lemma RowAdvance(j: Job, d: Driver)
    requires RowInv(j)
    ensures RowKept(j, Step(j, Advance(d)))
  {
  }

  lemma RowDeliver(j: Job, d: Driver)
    requires RowInv(j)
    ensures RowKept(j, AfterDeliverClaim(j, d))
  {
  }

  lemma RowStep(j: Job, e: Event)
    requires RowInv(j)
    ensures RowKept(j, Step(j, e))
  {
    match e
    case MatchPass(nearby) => RowMatchPass(j, nearby);
    case Decline(_) => RowDecline(j, e);
    case Timeout(_) => RowDecline(j, e);
    case Accept(_) => RowClaim(j, e);
    case ManualAssign(_) => RowClaim(j, e);
    case Cancel => RowClaim(j, e);
    case RestaurantAccept => RowRestaurant(j, e);
    case MarkReady => RowRestaurant(j, e);
    case Advance(d) => RowAdvance(j, d);
    case DeliverClaim(d) => RowDeliver(j, d);
    case _ =>
  }

  lemma {:induction false} RowRun(j: Job, es: seq<Event>)
    requires RowInv(j)
    ensures RowInv(Run(j, es))
    ensures j.claims <= Run(j, es).claims
    ensures Run(j, es).kind == j.kind && Run(j, es).lateness == j.lateness
    decreases |es|
  {
    if es != [] {
      var n := |es| - 1;
      RowRun(j, es[..n]);
      RowStep(Run(j, es[..n]), es[n]);
    }
  }

  lemma NewJobRow(k: Kind, now: Time, lateness: nat)
    ensures RowInv(NewJob(k, now, lateness))
  {
  }

  /** In any run at most one accept or manual assignment succeeds, and its driver never leaves the row. */
  lemma {:induction false} OneWinnerForEver(k: Kind, now: Time, lateness: nat, es: seq<Event>, later: seq<Event>)
    ensures var j := Run(NewJob(k, now, lateness), es);
            && |j.claims| <= 1
            && (j.claims == [] && j.status != MATCHING ==> j.driver.None? || j.status == CANCELLED)
            && (j.claims != [] ==> Run(j, later).claims == j.claims && Run(j, later).driver == Some(j.claims[0]))
  {
    NewJobRow(k, now, lateness);
    RowRun(NewJob(k, now, lateness), es);
    RowRun(Run(NewJob(k, now, lateness), es), later);
  }

  // ---- One payout ----

  ghost predicate InDelivery(k: Kind, st: Status) {
    st == DELIVERED || DeliverableFrom(k, st)
  }

  ghost predicate PayInv(j: Job) {
    && (j.status != DELIVERED ==> j.owing == [] && j.payouts == [])
    && (j.status == DELIVERED ==> |j.owing| + |j.payouts| <= 1)
    && (j.status == DELIVERED && !j.crashed ==> |j.owing| + |j.payouts| == 1)
    && (forall d | d in j.checked || d in j.owing || d in j.payouts ::
          j.driver == Some(d) && InDelivery(j.kind, j.status))
  }

  lemma DeliveryStays(j: Job, e: Event)
    requires InDelivery(j.kind, j.status)
    ensures InDelivery(j.kind, Step(j, e).status) && Step(j, e).driver == j.driver
    ensures j.status == DELIVERED ==> Step(j, e).status == DELIVERED
  {
  }

  lemma CallsUntouched(j: Job, e: Event)
    requires !e.DeliverRead? && !e.DeliverClaim? && !e.DeliverPay? && !e.Crash?
    ensures var k := Step(j, e);
            && k.checked == j.checked && k.owing == j.owing && k.payouts == j.payouts && k.crashed == j.crashed
            && (k.status == DELIVERED ==> j.status == DELIVERED)
  {
  }

  lemma PayRead(j: Job, d: Driver)
    requires PayInv(j)
    ensures PayInv(Step(j, DeliverRead(d)))
  {
  }

  lemma PayClaim(j: Job, d: Driver)
    requires PayInv(j)
    ensures PayInv(AfterDeliverClaim(j, d))
  {
    assert forall x | x in AfterDeliverClaim(j, d).checked :: x in j.checked;
  }

  lemma PayWrite(j: Job)
    requires PayInv(j)
    ensures PayInv(Step(j, DeliverPay))
  {
  }

  lemma PayStep(j: Job, e: Event)
    requires PayInv(j)
    ensures PayInv(Step(j, e))
  {
    match e
    case DeliverRead(d) => PayRead(j, d);
    case DeliverClaim(d) => PayClaim(j, d);
    case DeliverPay => PayWrite(j);
    case Crash =>
    case _ =>
      CallsUntouched(j, e);
      if InDelivery(j.kind, j.status) { DeliveryStays(j, e); }
  }

  lemma {:induction false} PayRun(j: Job, es: seq<Event>)
    requires PayInv(j)
    ensures PayInv(Run(j, es))
    decreases |es|
  {
    if es != [] {
      var n := |es| - 1;
      PayRun(j, es[..n]);
      PayStep(Run(j, es[..n]), es[n]);
    }
  }

  /**
   Settlement is exactly once however markDelivered calls interleave: ledger writes done plus ledger
   writes still owed make one for a delivered job and none for any other. A crash can only lose the
   write that was owed. Whoever is paid is the driver who won the job.
   */
  lemma {:induction false} PaidExactlyOnce(k: Kind, now: Time, lateness: nat, es: seq<Event>)
    ensures var j := Run(NewJob(k, now, lateness), es);
            && |j.payouts| + |j.owing| <= (if j.status == DELIVERED then 1 else 0)
            && (!j.crashed ==> |j.payouts| + |j.owing| == (if j.status == DELIVERED then 1 else 0))
            && (forall d | d in j.payouts :: j.claims == [d])
  {
    NewJobRow(k, now, lateness);
    RowRun(NewJob(k, now, lateness), es);
    PayRun(NewJob(k, now, lateness), es);
  }

  // ---- No stale timer ever ends a later offer ----

  function Last(j: Job): (r: int) {
    |j.offers| - 1
  }

  /** A pending timer whose guard would pass belongs to the offer now in force. */
  ghost predicate GuardSound(j: Job) {
    forall n | n in j.timers && j.status == MATCHING && j.driver == Some(j.timers[n].driver) :: n == Last(j)
  }

  ghost predicate TimerInv(j: Job) {
    forall n | n in j.timers :: TimerOk(j, n)
  }

  ghost predicate TimerOk(j: Job, n: nat)
    requires n in j.timers
  {
    && n < |j.offers|
    && j.timers[n] == Timer(j.offers[n].driver, j.offers[n].at + OFFER_TIMEOUT_MS)
    && j.offers[n].at <= j.now <= j.timers[n].due + j.lateness
    && (Searching(j.kind, j.status) && !(j.status == MATCHING && n == Last(j)) ==>
          && j.timers[n].driver in j.excluded.members
          && j.timers[n].due + j.lateness < j.excluded.expireAt
          && j.driver != Some(j.timers[n].driver))
  }

  lemma TimerMatchPass(j: Job, nearby: seq<seq<Driver>>)
    requires RowInv(j) && TimerInv(j)
    ensures TimerInv(AfterMatchPass(j, nearby))
  {
    CandidateIsFree(nearby, j.excluded.Live(j.now));
    var k := AfterMatchPass(j, nearby);
    forall n | n in k.timers ensures TimerOk(k, n) {
      if n in j.timers { assert TimerOk(j, n); }
    }
  }

  /** Declined or timed out, a driver's pending timers become stale and the driver is excluded for an hour. */
  lemma TimerDecline(j: Job, d: Driver)
    requires OFFER_TIMEOUT_MS + j.lateness < EXCLUDED_TTL_MS
    requires RowInv(j) && TimerInv(j)
    requires j.status == MATCHING && j.driver == Some(d)
    ensures TimerInv(DeclineOrTimeout(j, d))
  {
    var k := DeclineOrTimeout(j, d);
    forall n | n in k.timers ensures TimerOk(k, n) {
      assert TimerOk(j, n);
    }
  }

  lemma TimerRemoved(j: Job, n: nat)
    requires TimerInv(j)
    ensures TimerInv(j.(timers := j.timers - {n}))
  {
    forall m | m in j.timers - {n} ensures TimerOk(j.(timers := j.timers - {n}), m) {
      assert TimerOk(j, m);
    }
  }

  /** The events that neither offer, decline nor time out, nor move the clock. */
  predicate Quiet(e: Event) {
    !e.MatchPass? && !e.Decline? && !e.Timeout? && !e.Crash? && !e.Tick?
  }

  lemma TimersUntouched(j: Job, e: Event)
    requires Quiet(e)
    ensures var k := Step(j, e);
            && k.timers == j.timers && k.offers == j.offers && k.now == j.now
            && k.lateness == j.lateness && k.kind == j.kind
  {
  }

  lemma SearchUntouched(j: Job, e: Event)
    requires RowInv(j) && j.offers != [] && Quiet(e)
    ensures var k := Step(j, e);
            Searching(j.kind, k.status) ==>
              k.status == j.status && k.driver == j.driver && k.excluded == j.excluded
  {
    match e
    case RestaurantAccept => RowRestaurant(j, e);
    case MarkReady => RowRestaurant(j, e);
    case Accept(_) => RowClaim(j, e);
    case ManualAssign(_) => RowClaim(j, e);
    case Cancel => RowClaim(j, e);
    case Advance(d) => RowAdvance(j, d);
    case DeliverClaim(d) => RowDeliver(j, d);
    case _ =>
  }

  lemma TimerQuiet(j: Job, e: Event)
    requires RowInv(j) && TimerInv(j) && Quiet(e)
    ensures TimerInv(Step(j, e))
  {
    TimersUntouched(j, e);
    var k := Step(j, e);
    forall n | n in k.timers ensures TimerOk(k, n) {
      assert TimerOk(j, n);
      SearchUntouched(j, e);
    }
  }

  lemma TimerTick(j: Job, ms: nat)
    requires TimerInv(j)
    ensures TimerInv(Step(j, Tick(ms)))
  {
    var k := Step(j, Tick(ms));
    forall n | n in k.timers ensures TimerOk(k, n) {
      assert TimerOk(j, n);
    }
  }

  lemma TimerStep(j: Job, e: Event)
    requires OFFER_TIMEOUT_MS + j.lateness < EXCLUDED_TTL_MS
    requires RowInv(j) && TimerInv(j)
    ensures TimerInv(Step(j, e))
  {
    match e
    case MatchPass(nearby) => TimerMatchPass(j, nearby);
    case Decline(d) =>
      if j.status == MATCHING && j.driver == Some(d) { TimerDecline(j, d); }
    case Timeout(n) =>
      if n in j.timers && j.timers[n].due <= j.now {
        TimerRemoved(j, n);
        var k := j.(timers := j.timers - {n});
        if j.status == MATCHING && j.driver == Some(j.timers[n].driver) { TimerDecline(k, j.timers[n].driver); }
      }
    case Tick(ms) => TimerTick(j, ms);
    case Crash =>
    case _ => TimerQuiet(j, e);
  }

  lemma {:induction false} TimerRun(j: Job, es: seq<Event>)
    requires OFFER_TIMEOUT_MS + j.lateness < EXCLUDED_TTL_MS
    requires RowInv(j) && TimerInv(j)
    ensures TimerInv(Run(j, es))
    decreases |es|
  {
    if es != [] {
      var n := |es| - 1;
      TimerRun(j, es[..n]);
      RowRun(j, es[..n]);
      TimerStep(Run(j, es[..n]), es[n]);
    }
  }

  /** When timers are prompt enough, in every run, crashes included, a passing guard is never stale. */
  lemma {:induction false} NoStaleTimer(k: Kind, now: Time, lateness: nat, es: seq<Event>)
    requires 15_000 + lateness < 3_600_000
    ensures GuardSound(Run(NewJob(k, now, lateness), es))
  {
    NewJobRow(k, now, lateness);
    TimerRun(NewJob(k, now, lateness), es);
    RowRun(NewJob(k, now, lateness), es);
    var j := Run(NewJob(k, now, lateness), es);
    forall n | n in j.timers && j.status == MATCHING && j.driver == Some(j.timers[n].driver) ensures n == Last(j) {
      assert TimerOk(j, n);
    }
  }

  /** A timeout that would end the offer in force now would end one that has been open for the full window. */
  ghost predicate WindowKept(j: Job) {
    forall n | j.status == MATCHING && Step(j, Timeout(n)).status != MATCHING ::
      j.offers != [] && j.offers[Last(j)].at + OFFER_TIMEOUT_MS <= j.now
  }

  /** Hence a timeout never cuts an offer short. */
  lemma {:induction false} OfferKeepsItsWindow(k: Kind, now: Time, lateness: nat, es: seq<Event>)
    requires 15_000 + lateness < 3_600_000
    ensures WindowKept(Run(NewJob(k, now, lateness), es))
  {
    NoStaleTimer(k, now, lateness, es);
    NewJobRow(k, now, lateness);
    TimerRun(NewJob(k, now, lateness), es);
    var j := Run(NewJob(k, now, lateness), es);
    forall n | j.status == MATCHING && Step(j, Timeout(n)).status != MATCHING
      ensures j.offers != [] && j.offers[Last(j)].at + OFFER_TIMEOUT_MS <= j.now
    {
      assert n in j.timers && TimerOk(j, n);
    }
  }

  // ---- How prompt is prompt enough ----

  /** The events that bring a new job to its first match pass. */
  function Opening(k: Kind): (r: seq<Event>) {
    if k.Food? then [RestaurantAccept, MarkReady] else []
  }

  lemma RunSnoc(j: Job, es: seq<Event>, e: Event)
    ensures Run(j, es + [e]) == Step(Run(j, es), e)
  {
    assert (es + [e])[..|es + [e]| - 1] == es;
  }

  lemma RunTwo(j: Job, es: seq<Event>, e: Event, f: Event)
    ensures Run(j, es + [e] + [f]) == Step(Step(Run(j, es), e), f)
  {
    RunSnoc(j, es, e);
    RunSnoc(j, es + [e], f);
  }

  lemma Opened(k: Kind, lateness: nat)
    ensures Run(NewJob(k, 0, lateness), Opening(k)) == NewJob(k, 0, lateness).(status := Idle(k), passes := [0])
  {
    var j := NewJob(k, 0, lateness);
    assert Run(j, []) == j;
    if k.Food? {
      RunSnoc(j, [], RestaurantAccept);
      assert [] + [RestaurantAccept] == [RestaurantAccept];
      RunSnoc(j, [RestaurantAccept], MarkReady);
      assert [RestaurantAccept] + [MarkReady] == Opening(k);
    }
  }

  /** Driver 1 is offered the job at once and declines at once; the next match pass is pending. */
  function FirstDecline(k: Kind): (r: seq<Event>) {
    Opening(k) + [MatchPass([[1]])] + [Decline(1)]
  }

  function Declined(k: Kind, lateness: nat): (r: Job) {
    NewJob(k, 0, lateness).(
      status := Idle(k), passes := [0], timers := map[0 := Timer(1, OFFER_TIMEOUT_MS)], offers := [Offer(1, 0)],
      excluded := ExclusionSet({1}, EXCLUDED_TTL_MS))
  }

  lemma OfferStep(j: Job, d: Driver)
    requires |j.passes| == 1 && Searching(j.kind, j.status) && d !in j.excluded.Live(j.now)
    ensures Step(j, MatchPass([[d]])) == OfferTo(j.(passes := []), d)
  {
  }

  lemma DeclineStep(j: Job, d: Driver)
    requires j.status == MATCHING && j.driver == Some(d)
    ensures Step(j, Decline(d))
         == j.(status := Idle(j.kind), driver := None, passes := j.passes + [j.now],
               excluded := j.excluded.Add(j.now, d))
  {
  }

  lemma FirstDeclineReached(k: Kind, lateness: nat)
    ensures Run(NewJob(k, 0, lateness), FirstDecline(k)) == Declined(k, lateness)
  {
    var j := NewJob(k, 0, lateness);
    Opened(k, lateness);
    RunTwo(j, Opening(k), MatchPass([[1]]), Decline(1));
    var open := j.(status := Idle(k), passes := [0]);
    OfferStep(open, 1);
    DeclineStep(OfferTo(open.(passes := []), 1), 1);
  }

  /**
   The interleaving that breaks the guard when timers can be an hour late: driver 1 declines, driver 2
   holds the offer until the exclusion set has expired, and driver 1 is offered the job a second time
   while the timer of the first time is still pending.
   */
  function LateSchedule(k: Kind): (r: seq<Event>) {
    FirstDecline(k) + [MatchPass([[2]])] + [Tick(EXCLUDED_TTL_MS)] + [Decline(2)] + [MatchPass([[1]])]
  }

  lemma LateScheduleIsStale(k: Kind, lateness: nat)
    requires OFFER_TIMEOUT_MS + lateness >= EXCLUDED_TTL_MS
    ensures !GuardSound(Run(NewJob(k, 0, lateness), LateSchedule(k)))
    ensures !WindowKept(Run(NewJob(k, 0, lateness), LateSchedule(k)))
  {
    var j := NewJob(k, 0, lateness);
    FirstDeclineReached(k, lateness);
    SecondHolds(k, lateness);
    RunTwo(j, FirstDecline(k), MatchPass([[2]]), Tick(EXCLUDED_TTL_MS));
    FirstAgain(HeldByTwo(k, lateness));
    RunTwo(j, FirstDecline(k) + [MatchPass([[2]])] + [Tick(EXCLUDED_TTL_MS)], Decline(2), MatchPass([[1]]));
  }

  /** An hour later, driver 2 still holds the offer, and the timer of driver 1's offer is still pending. */
  function HeldByTwo(k: Kind, lateness: nat): (r: Job) {
    OfferTo(Declined(k, lateness).(passes := []), 2).(now := EXCLUDED_TTL_MS)
  }

  lemma SecondHolds(k: Kind, lateness: nat)
    requires OFFER_TIMEOUT_MS + lateness >= EXCLUDED_TTL_MS
    ensures Step(Step(Declined(k, lateness), MatchPass([[2]])), Tick(EXCLUDED_TTL_MS)) == HeldByTwo(k, lateness)
  {
    OfferStep(Declined(k, lateness), 2);
    assert MayTick(OfferTo(Declined(k, lateness).(passes := []), 2), EXCLUDED_TTL_MS);
  }

  lemma FirstAgain(j: Job)
    requires j.status == MATCHING && j.driver == Some(2) && j.passes == [] && |j.offers| == 2
    requires 0 in j.timers && j.timers[0].driver == 1
    requires j.now >= j.excluded.expireAt && j.now >= j.timers[0].due
    ensures var last := Step(Step(j, Decline(2)), MatchPass([[1]]));
            !GuardSound(last) && !WindowKept(last)
  {
    DeclineStep(j, 2);
    var k := Step(j, Decline(2));
    OfferStep(k, 1);
    var last := Step(k, MatchPass([[1]]));
    assert 0 in last.timers && last.timers[0].driver == 1 && last.driver == Some(1) && Last(last) == 2;
    StaleTimeoutStep(last);
    assert last.offers[Last(last)].at == last.now;
  }

  lemma StaleTimeoutStep(j: Job)
    requires j.status == MATCHING && j.driver == Some(1)
    requires 0 in j.timers && j.timers[0].driver == 1 && j.timers[0].due <= j.now
    ensures Step(j, Timeout(0)).status != MATCHING
  {
  }

  /** No timer is ever stale exactly when a timer's window and its delay fit in the life of the exclusion set. */
  lemma {:induction false} StaleTimersExactly(k: Kind, lateness: nat)
    ensures (forall now: Time, es: seq<Event> :: GuardSound(Run(NewJob(k, now, lateness), es)))
            <==> 15_000 + lateness < 3_600_000
  {
    if OFFER_TIMEOUT_MS + lateness < EXCLUDED_TTL_MS {
      forall now: Time, es: seq<Event> ensures GuardSound(Run(NewJob(k, now, lateness), es)) {
        NoStaleTimer(k, now, lateness, es);
      }
    } else {
      LateScheduleIsStale(k, lateness);
    }
  }

  /** Nor does any timer take an offer away early, exactly then. */
  lemma {:induction false} WindowsKeptExactly(k: Kind, lateness: nat)
    ensures (forall now: Time, es: seq<Event> :: WindowKept(Run(NewJob(k, now, lateness), es)))
            <==> 15_000 + lateness < 3_600_000
  {
    if OFFER_TIMEOUT_MS + lateness < EXCLUDED_TTL_MS {
      forall now: Time, es: seq<Event> ensures WindowKept(Run(NewJob(k, now, lateness), es)) {
        OfferKeepsItsWindow(k, now, lateness, es);
      }
    } else {
      LateScheduleIsStale(k, lateness);
    }
  }

  // ---- The way to the payout ----

  /** The progress calls of the driver who holds a freshly claimed job. */
  function ToTheDoor(k: Kind, d: Driver): (r: seq<Event>) {
    if k.Food? then [Advance(d)] else [Advance(d)] + [Advance(d)]
  }

  /** All calls of that driver, up to the ledger write. */
  function Journey(k: Kind, d: Driver): (r: seq<Event>) {
    ToTheDoor(k, d) + [DeliverRead(d)] + [DeliverClaim(d)] + [DeliverPay]
  }

  lemma DeliveryPays(j: Job, d: Driver)
    requires j.driver == Some(d) && DeliverableFrom(j.kind, j.status) && j.owing == []
    ensures var last := Step(Step(Step(j, DeliverRead(d)), DeliverClaim(d)), DeliverPay);
            last.status == DELIVERED && last.payouts == j.payouts + [d]
  {
  }

  /** The driver's own calls lead every claimed job to a delivery that pays that driver once. */
  lemma JourneyPays(j: Job, d: Driver)
    requires RowInv(j) && PayInv(j) && j.status == Claimed(j.kind) && j.driver == Some(d)
    ensures Run(j, Journey(j.kind, d)).status == DELIVERED && Run(j, Journey(j.kind, d)).payouts == [d]
  {
    var s := ToTheDoor(j.kind, d);
    JourneyToTheDoor(j, d);
    DeliveryPays(Run(j, s), d);
    RunTwo(j, s, DeliverRead(d), DeliverClaim(d));
    RunSnoc(j, s + [DeliverRead(d)] + [DeliverClaim(d)], DeliverPay);
  }

  lemma JourneyToTheDoor(j: Job, d: Driver)
    requires j.status == Claimed(j.kind) && j.driver == Some(d)
    ensures var k := Run(j, ToTheDoor(j.kind, d));
            && DeliverableFrom(k.kind, k.status) && k == j.(status := k.status)
  {
    assert Run(j, []) == j;
    if j.kind.Food? {
      RunSnoc(j, [], Advance(d));
      assert [] + [Advance(d)] == ToTheDoor(j.kind, d);
      AdvancesOnce(j, d);
    } else {
      RunTwo(j, [], Advance(d), Advance(d));
      assert [] + [Advance(d)] + [Advance(d)] == ToTheDoor(j.kind, d);
      AdvancesTwice(j, d);
    }
  }

  lemma AdvancesOnce(j: Job, d: Driver)
    requires j.kind.Food? && j.status == ASSIGNED && j.driver == Some(d)
    ensures Step(j, Advance(d)) == j.(status := PICKED_UP)
  {
  }

  lemma AdvancesTwice(j: Job, d: Driver)
    requires !j.kind.Food? && j.status == Claimed(j.kind) && j.driver == Some(d)
    ensures Step(Step(j, Advance(d)), Advance(d)) == j.(status := if j.kind.Parcel? then IN_TRANSIT else ON_THE_WAY)
  {
  }

  // ---- The end of a job ----

  predicate Finished(st: Status) {
    st.DELIVERED? || st.CANCELLED?
  }

  lemma FinishedStep(j: Job, e: Event)
    requires Finished(j.status)
    ensures Step(j, e).status == j.status && Step(j, e).driver == j.driver
  {
  }

  /**
   A delivered job stays delivered and a cancelled one cancelled, timers and match passes still pending included.
   */
  lemma {:induction false} FinishedForEver(j: Job, es: seq<Event>)
    requires Finished(j.status)
    ensures Run(j, es).status == j.status && Run(j, es).driver == j.driver
    decreases |es|
  {
    if es != [] {
      var n := |es| - 1;
      FinishedForEver(j, es[..n]);
      FinishedStep(Run(j, es[..n]), es[n]);
    }
  }
}
