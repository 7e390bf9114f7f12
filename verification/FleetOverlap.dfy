/**
 Calls about one driver that overlap between their read and their write. Without any, no driver is on two
 jobs and everybody stays in the queue of the job they hold; with one, either can fail.
 */
module FleetOverlap {
  import opened Domain
  import opened Reserving
  import opened ReservingRaces
  import opened Eligibility
  import opened Fleet

  // ---- Runs without overlap ----

  ghost predicate OfferPending(s: State, d: Driver) {
    exists i | 0 <= i < |s.found| :: s.found[i].driver == d
  }

  ghost predicate SwitchPending(s: State, d: Driver) {
    exists i | 0 <= i < |s.switches| :: s.switches[i].driver == d
  }

  /** Somebody is on the job. */
  predicate UnderWay(j: Job) {
    j.driver.Some? && HoldsJob(j, j.driver.value)
  }

  /** A job ends or is freed while a progress call of its driver is between its check and its write. */
  ghost predicate Overtakes(s: State, e: FleetEvent) {
    !CallsUnderWay(FleetStep(s, e))
  }

  ghost predicate CallsUnderWay(s: State) {
    forall i | 0 <= i < |s.calls| && s.calls[i].write.ProgressWrite? ::
      s.calls[i].id in s.jobs && UnderWay(s.jobs[s.calls[i].id])
  }

  /**
   Two calls about one driver overlap: a search finds a driver another search is about to offer a job to,
   or who is about to switch queues; a switch is checked while an offer to that driver is on its way; or a
   progress call is overtaken. The queries of one search or one count that ran at different moments count
   as overlapping whatever came between them.
   */
  ghost predicate Overlaps(s: State, e: FleetEvent) {
    || (e.Search? && Found(s, e.id, e.nearby).Some?
        && (OfferPending(s, Found(s, e.id, e.nearby).value) || SwitchPending(s, Found(s, e.id, e.nearby).value)))
    || (e.CheckMode? && OfferPending(s, e.driver))
    || Overtakes(s, e)
    || e.SlowSearch? || e.SlowCount?
  }

  ghost predicate NeverOverlaps(es: seq<FleetEvent>)
    decreases |es|
  {
    es != [] ==> NeverOverlaps(es[..|es| - 1]) && !Overlaps(FleetRun(es[..|es| - 1]), es[|es| - 1])
  }

  lemma NeverOvertaken(es: seq<FleetEvent>)
    requires NeverOverlaps(es)
    ensures CallsUnderWay(FleetRun(es)) && CallsFit(FleetRun(es))
  {
    CallsFitRun(es);
  }

  /** A progress call that is not overtaken joins its driver to the job they are on anyway. */
  lemma ProgressOnOwnJob(s: State, e: FleetEvent)
    requires CallsUnderWay(s) && e.LandCall? && Puts(s, e).Some?
    ensures var p := Puts(s, e).value;
            p.id in s.jobs && HoldsJob(s.jobs[p.id], p.driver)
  {
    assert s.calls[e.call].write.ProgressWrite?;
  }

  /** Drivers about to be offered a job are on none, and each is about to be offered one only. */
  ghost predicate FindingsFree(s: State) {
    && (forall i | 0 <= i < |s.found| ::
          s.found[i].id in s.jobs && forall id | id in s.jobs :: !HoldsJob(s.jobs[id], s.found[i].driver))
    && (forall i, k | 0 <= i < k < |s.found| :: s.found[i].driver != s.found[k].driver)
  }

  lemma FindingsStep(s: State, e: FleetEvent)
    requires CallsFit(s) && CallsUnderWay(s) && SoleJobs(s) && FindingsFree(s) && !Overlaps(s, e)
    requires !(e.OnJob? && e.event.ManualAssign?)
    ensures FindingsFree(FleetStep(s, e)) && !Crowds(s, e)
  {
    var t := FleetStep(s, e);
    if e.LandCall? && Puts(s, e).Some? { ProgressOnOwnJob(s, e); }
    if e.Search? && Found(s, e.id, e.nearby).Some? { FoundIsOfferable(s, e.id, e.nearby); }
    FindingsDistinct(s, e);
    forall i | 0 <= i < |t.found|
      ensures t.found[i].id in t.jobs && forall id | id in t.jobs :: !HoldsJob(t.jobs[id], t.found[i].driver)
    {
      FindingFrom(s, e, i);
      forall id | id in t.jobs ensures !HoldsJob(t.jobs[id], t.found[i].driver) {
        if HoldsJob(t.jobs[id], t.found[i].driver) { HolderComesFrom(s, e, id, t.found[i].driver); }
      }
    }
  }

  /**
   What is about to be offered after a step was so before, or has just been found; and is not what was just
   written.
   */
  lemma FindingFrom(s: State, e: FleetEvent, i: nat)
    requires CallsUnderWay(s) && FindingsFree(s) && !Overlaps(s, e) && i < |FleetStep(s, e).found|
    requires !(e.OnJob? && e.event.ManualAssign?)
    ensures var f := FleetStep(s, e).found[i];
            && f.id in FleetStep(s, e).jobs
            && (forall id | id in s.jobs :: !HoldsJob(s.jobs[id], f.driver))
            && (Puts(s, e).Some? ==> Puts(s, e).value.driver != f.driver)
  {
    var f := FleetStep(s, e).found[i];
    FoundBefore(s, e, i);
    if f !in s.found { FoundIsOfferable(s, e.id, e.nearby); }
    KindStays(s, e, f.id);
    if e.WriteOffer? && Puts(s, e).Some? { WrittenIsGone(s, e.finding, i); }
    if e.LandCall? && Puts(s, e).Some? { ProgressOnOwnJob(s, e); }
  }

  lemma WrittenIsGone(s: State, n: nat, i: nat)
    requires FindingsFree(s) && n < |s.found| && s.found[n].id in s.jobs && i < |FleetStep(s, WriteOffer(n)).found|
    ensures FleetStep(s, WriteOffer(n)).found[i].driver != s.found[n].driver
  {
    assert FleetStep(s, WriteOffer(n)).found[i] == s.found[if i < n then i else i + 1];
  }

  lemma FindingsDistinct(s: State, e: FleetEvent)
    requires FindingsFree(s) && !Overlaps(s, e)
    ensures var t := FleetStep(s, e);
            forall i, k | 0 <= i < k < |t.found| :: t.found[i].driver != t.found[k].driver
  {
  }

  /**
   With automatic matching only, and no two calls about one driver overlapping between their read and
   their write, no driver is ever on two parcels, food orders or errands at once.
   */
  lemma {:induction false} OneJobPerDriver(es: seq<FleetEvent>)
    requires forall i | 0 <= i < |es| :: !(es[i].OnJob? && es[i].event.ManualAssign?)
    requires NeverOverlaps(es)
    ensures AlwaysSole(es) && FindingsFree(FleetRun(es))
    decreases |es|
  {
    if es != [] {
      var n := |es| - 1;
      OneJobPerDriver(es[..n]);
      NeverOvertaken(es[..n]);
      FindingsStep(FleetRun(es[..n]), es[n]);
      SoleStepExactly(FleetRun(es[..n]), es[n]);
    }
  }

  /**
   Nobody about to be offered a food order or errand is out of that queue or leaving it; nobody leaving it holds
   one.
   */
  ghost predicate QueuesSettled(s: State) {
    && (forall i | 0 <= i < |s.found| :: FindingSettled(s, s.found[i]))
    && (forall i | 0 <= i < |s.switches| :: SwitchSettled(s, s.switches[i].driver))
  }

  ghost predicate FindingSettled(s: State, f: Finding) {
    && f.id in s.jobs && !SwitchPending(s, f.driver)
    && (!s.jobs[f.id].kind.Parcel? ==> ModeIn(s.modes, f.driver) == FOOD_ERRAND)
  }

  ghost predicate SwitchSettled(s: State, d: Driver) {
    forall id | id in s.jobs :: !HoldsQueued(s, id, d)
  }

  lemma SettledNeverStrays(s: State, e: FleetEvent)
    requires CallsUnderWay(s) && ModesOk(s) && QueuesSettled(s)
    ensures !Strays(s, e)
  {
    if e.LandCall? && PutsQueued(s, e) {
      ProgressOnOwnJob(s, e);
      assert !s.jobs[Puts(s, e).value.id].kind.Parcel? ==> HoldsQueued(s, Puts(s, e).value.id, Puts(s, e).value.driver);
    }
    if e.WriteOffer? && Puts(s, e).Some? { assert FindingSettled(s, s.found[e.finding]); }
    if e.WriteMode? && e.switch < |s.switches| { assert SwitchSettled(s, s.switches[e.switch].driver); }
  }

  lemma SwitchFrom(s: State, e: FleetEvent, i: nat)
    requires i < |FleetStep(s, e).switches|
    ensures var w := FleetStep(s, e).switches[i];
            || SwitchPending(s, w.driver)
            || (e.CheckMode? && e.driver == w.driver && !OnAJob(s, w.driver))
            || e.SlowCount?
  {
    if e.WriteMode? && e.switch < |s.switches| {
      assert FleetStep(s, e).switches[i] == s.switches[if i < e.switch then i else i + 1];
    }
  }

  lemma SwitchesSettle(s: State, e: FleetEvent, i: nat)
    requires CallsFit(s) && CallsUnderWay(s) && QueuesSettled(s) && !Overlaps(s, e) && i < |FleetStep(s, e).switches|
    ensures SwitchSettled(FleetStep(s, e), FleetStep(s, e).switches[i].driver)
  {
    var t := FleetStep(s, e);
    var d := t.switches[i].driver;
    SwitchFrom(s, e, i);
    if e.WriteOffer? && Puts(s, e).Some? { assert FindingSettled(s, s.found[e.finding]); }
    if e.LandCall? && Puts(s, e).Some? { ProgressOnOwnJob(s, e); }
    if SwitchPending(s, d) {
      var k :| 0 <= k < |s.switches| && s.switches[k].driver == d;
      assert SwitchSettled(s, s.switches[k].driver);
    }
    forall id | id in t.jobs ensures !HoldsQueued(t, id, d) {
      if HoldsQueued(t, id, d) { QueuedBefore(s, e, id, d); }
    }
  }

  lemma FindingsSettle(s: State, e: FleetEvent, i: nat)
    requires QueuesSettled(s) && !Overlaps(s, e) && i < |FleetStep(s, e).found|
    ensures FindingSettled(FleetStep(s, e), FleetStep(s, e).found[i])
  {
    var t := FleetStep(s, e);
    var f := t.found[i];
    ModesChange(s, e);
    FoundBefore(s, e, i);
    assert e.WriteMode? && e.switch < |s.switches| ==> SwitchPending(s, s.switches[e.switch].driver);
    if f in s.found {
      var k :| 0 <= k < |s.found| && s.found[k] == f;
      assert FindingSettled(s, s.found[k]);
      assert OfferPending(s, f.driver);
    } else {
      FoundIsOfferable(s, e.id, e.nearby);
    }
    KindStays(s, e, f.id);
    if SwitchPending(t, f.driver) {
      var k :| 0 <= k < |t.switches| && t.switches[k].driver == f.driver;
      SwitchFrom(s, e, k);
    }
  }

  /**
   Whatever the ops desk does: if no two calls about one driver overlap between their read and their write,
   a driver who holds an automatically matched food order or errand is in FOOD_ERRAND mode, because
   switching is refused in every status in which a driver is held.
   */
  lemma {:induction false} QueueKeptUntilDone(es: seq<FleetEvent>)
    requires NeverOverlaps(es)
    ensures AlwaysInQueue(es) && QueuesSettled(FleetRun(es))
    decreases |es|
  {
    if es != [] {
      var n := |es| - 1;
      var s := FleetRun(es[..n]);
      QueueKeptUntilDone(es[..n]);
      NeverOvertaken(es[..n]);
      SettledNeverStrays(s, es[n]);
      ModesStepExactly(s, es[n]);
      var t := FleetRun(es);
      forall i | 0 <= i < |t.found| ensures FindingSettled(t, t.found[i]) { FindingsSettle(s, es[n], i); }
      forall i | 0 <= i < |t.switches| ensures SwitchSettled(t, t.switches[i].driver) { SwitchesSettle(s, es[n], i); }
    }
  }

  // ---- What overlapping calls can do ----

  lemma {:induction false} SameOfferables(s: State, t: State, id: JobId, k: Kind, drivers: seq<Driver>)
    requires forall d :: Offerable(t, id, k, d) <==> Offerable(s, id, k, d)
    ensures Offerables(t, id, k, drivers) == Offerables(s, id, k, drivers)
  {
    if drivers != [] { SameOfferables(s, t, id, k, drivers[1..]); }
  }

  /** A search changes nothing that another search looks at. */
  lemma SearchIsInvisible(s: State, a: JobId, b: JobId, nearby: seq<seq<Driver>>)
    requires a != b && b in s.jobs
    ensures Found(FleetStep(s, Search(a, nearby)), b, nearby) == Found(s, b, nearby)
  {
    var t := FleetStep(s, Search(a, nearby));
    forall d ensures OnAJob(t, d) <==> OnAJob(s, d) { SearchLeavesJobs(s, a, nearby, d); }
    var k := s.jobs[b].kind;
    forall i | 0 <= i < |nearby| ensures Offerables(t, b, k, nearby[i]) == Offerables(s, b, k, nearby[i]) {
      SameOfferables(s, t, b, k, nearby[i]);
    }
    assert Filtered(t, b, k, nearby) == Filtered(s, b, k, nearby);
  }

  lemma SearchLeavesJobs(s: State, a: JobId, nearby: seq<seq<Driver>>, d: Driver)
    ensures OnAJob(FleetStep(s, Search(a, nearby)), d) <==> OnAJob(s, d)
  {
    var t := FleetStep(s, Search(a, nearby));
    assert forall id | id in s.jobs :: HoldsJob(t.jobs[id], d) <==> HoldsJob(s.jobs[id], d);
  }

  /**
   Two jobs searched for at the same time near one free driver: both offers are written, and the driver is on
   both.
   */
  lemma TwoSearchesCollide(s: State, a: JobId, b: JobId, nearby: seq<seq<Driver>>)
    requires CallsFit(s) && s.found == []
    requires a != b && Found(s, a, nearby).Some? && Found(s, b, nearby) == Found(s, a, nearby)
    ensures !SoleJobs(Steps(s, [Search(a, nearby), Search(b, nearby), WriteOffer(0), WriteOffer(0)]))
  {
    var d := Found(s, a, nearby).value;
    var t := FleetStep(s, Search(a, nearby));
    SearchIsInvisible(s, a, b, nearby);
    var u := FleetStep(t, Search(b, nearby));
    assert u.found == [Finding(a, d), Finding(b, d)];
    CallsFitStep(s, Search(a, nearby));
    CallsFitStep(t, Search(b, nearby));
    BothWritten(u, a, b, d);
    FourSteps(s, Search(a, nearby), Search(b, nearby), WriteOffer(0), WriteOffer(0));
  }

  lemma BothWritten(u: State, a: JobId, b: JobId, d: Driver)
    requires CallsFit(u) && a != b && a in u.jobs && b in u.jobs && u.found == [Finding(a, d), Finding(b, d)]
    ensures !SoleJobs(FleetStep(FleetStep(u, WriteOffer(0)), WriteOffer(0)))
  {
    var v := FleetStep(u, WriteOffer(0));
    PutHolds(u, WriteOffer(0));
    CallsFitStep(u, WriteOffer(0));
    assert v.found == [Finding(b, d)];
    PutHolds(v, WriteOffer(0));
    var w := FleetStep(v, WriteOffer(0));
    assert HoldsJob(w.jobs[a], d) && HoldsJob(w.jobs[b], d);
  }

  /**
   A driver who switches queues while a food order or errand is about to be offered to them ends up on it from
   RIDE.
   */
  lemma SwitchSlipsThrough(s: State, id: JobId, nearby: seq<seq<Driver>>)
    requires CallsFit(s) && Found(s, id, nearby).Some? && !s.jobs[id].kind.Parcel? && s.found == [] && s.switches == []
    ensures var d := Found(s, id, nearby).value;
            !ModesOk(Steps(s, [Search(id, nearby), CheckMode(d, RIDE), WriteOffer(0), WriteMode(0)]))
  {
    var d := Found(s, id, nearby).value;
    FoundIsOfferable(s, id, nearby);
    SearchLeavesJobs(s, id, nearby, d);
    var t := FleetStep(s, Search(id, nearby));
    var u := FleetStep(t, CheckMode(d, RIDE));
    CallsFitStep(s, Search(id, nearby));
    CallsFitStep(t, CheckMode(d, RIDE));
    OfferThenSwitch(u, id, d);
    FourSteps(s, Search(id, nearby), CheckMode(d, RIDE), WriteOffer(0), WriteMode(0));
  }

  lemma OfferThenSwitch(u: State, id: JobId, d: Driver)
    requires CallsFit(u) && id in u.jobs && !u.jobs[id].kind.Parcel?
    requires u.found == [Finding(id, d)] && u.switches == [Switch(d, RIDE)]
    ensures !ModesOk(FleetStep(FleetStep(u, WriteOffer(0)), WriteMode(0)))
  {
    PutHolds(u, WriteOffer(0));
    KindStays(u, WriteOffer(0), id);
    var v := FleetStep(u, WriteOffer(0));
    assert HoldsQueued(v, id, d) && v.switches == u.switches;
    var w := FleetStep(v, WriteMode(0));
    assert HoldsQueued(w, id, d) && ModeIn(w.modes, d) == RIDE;
  }

  function Steps(s: State, es: seq<FleetEvent>): (t: State)
    decreases |es|
  {
    if es == [] then s else FleetStep(Steps(s, es[..|es| - 1]), es[|es| - 1])
  }

  lemma StepsSnoc(s: State, es: seq<FleetEvent>, e: FleetEvent)
    ensures Steps(s, es + [e]) == FleetStep(Steps(s, es), e)
  {
    assert (es + [e])[..|es|] == es;
  }

  lemma FourSteps(s: State, e: FleetEvent, f: FleetEvent, g: FleetEvent, h: FleetEvent)
    ensures Steps(s, [e, f, g, h]) == FleetStep(FleetStep(FleetStep(FleetStep(s, e), f), g), h)
  {
    assert Steps(s, []) == s && [] + [e] == [e] && [e] + [f] == [e, f];
    assert [e, f] + [g] == [e, f, g] && [e, f, g] + [h] == [e, f, g, h];
    StepsSnoc(s, [], e);
    StepsSnoc(s, [e], f);
    StepsSnoc(s, [e, f], g);
    StepsSnoc(s, [e, f, g], h);
  }

  lemma {:induction false} RunThenSteps(es: seq<FleetEvent>, fs: seq<FleetEvent>)
    ensures FleetRun(es + fs) == Steps(FleetRun(es), fs)
    decreases |fs|
  {
    if fs == [] {
      assert es + fs == es;
    } else {
      var n := |fs| - 1;
      var init, last := fs[..n], fs[n];
      assert fs == init + [last] && es + fs == (es + init) + [last];
      RunThenSteps(es, init);
      RunSnoc(es + init, last);
      StepsSnoc(FleetRun(es), init, last);
    }
  }

  lemma RunSnoc(es: seq<FleetEvent>, e: FleetEvent)
    ensures FleetRun(es + [e]) == FleetStep(FleetRun(es), e)
  {
    assert (es + [e])[..|es|] == es;
  }

  /** Two jobs of one kind booked by customers near driver 1, who is free and, for food and errands, in that queue. */
  function TwoBookings(k: Kind): (es: seq<FleetEvent>)
    requires !k.Food?
  {
    [] + [SetAccount(1, Account(true, true, true, false))] + [CheckMode(1, FOOD_ERRAND)] + [WriteMode(0)]
    + [Create(0, k, 0, 0, false)] + [Create(1, k, 0, 0, false)]
  }

  function Booked(k: Kind): (s: State) {
    State(map[0 := NewJob(k, 0, 0), 1 := NewJob(k, 0, 0)], {}, map[1 := Account(true, true, true, false)],
          map[1 := FOOD_ERRAND], {}, {}, [], [], [])
  }

  lemma TwoBookingsMade(k: Kind)
    requires !k.Food?
    ensures FleetRun(TwoBookings(k)) == Booked(k)
  {
    var e1, e2, e3 := SetAccount(1, Account(true, true, true, false)), CheckMode(1, FOOD_ERRAND), WriteMode(0);
    RunSnoc([], e1);
    RunSnoc([] + [e1], e2);
    RunSnoc([] + [e1] + [e2], e3);
    RunSnoc([] + [e1] + [e2] + [e3], Create(0, k, 0, 0, false));
    RunSnoc([] + [e1] + [e2] + [e3] + [Create(0, k, 0, 0, false)], Create(1, k, 0, 0, false));
  }

  lemma DriverOneFound(s: State, k: Kind, id: JobId)
    requires id in s.jobs && s.jobs[id] == NewJob(k, 0, 0) && !k.Food? && Offerable(s, id, k, 1)
    ensures Found(s, id, [[1]]) == Some(1)
  {
    assert Offerables(s, id, k, [1]) == [1];
    assert Filtered(s, id, k, [[1]]) == [[1]];
    assert FirstFree([1], {}) == Some(1);
    assert FirstCandidate([[1]], {}) == Some(1);
  }

  /** The racing input: two parcels, or two errands, booked at the same time near one free driver. */
  lemma BothJobsOneDriver(k: Kind)
    requires !k.Food?
    ensures var es := TwoBookings(k) + [Search(0, [[1]]), Search(1, [[1]]), WriteOffer(0), WriteOffer(0)];
            !SoleJobs(FleetRun(es)) && !AlwaysSole(es)
  {
    var fs := [Search(0, [[1]]), Search(1, [[1]]), WriteOffer(0), WriteOffer(0)];
    TwoBookingsMade(k);
    CallsFitRun(TwoBookings(k));
    assert !OnAJob(Booked(k), 1);
    DriverOneFound(Booked(k), k, 0);
    DriverOneFound(Booked(k), k, 1);
    TwoSearchesCollide(Booked(k), 0, 1, [[1]]);
    RunThenSteps(TwoBookings(k), fs);
  }

  /** And for the queues: the driver switches to rides while the errand is about to be offered. */
  lemma ErrandFromTheRideQueue()
    ensures var es := TwoBookings(Errand) + [Search(0, [[1]]), CheckMode(1, RIDE), WriteOffer(0), WriteMode(0)];
            !ModesOk(FleetRun(es)) && !AlwaysInQueue(es)
  {
    var fs := [Search(0, [[1]]), CheckMode(1, RIDE), WriteOffer(0), WriteMode(0)];
    TwoBookingsMade(Errand);
    CallsFitRun(TwoBookings(Errand));
    assert !OnAJob(Booked(Errand), 1);
    DriverOneFound(Booked(Errand), Errand, 0);
    SwitchSlipsThrough(Booked(Errand), 0, [[1]]);
    RunThenSteps(TwoBookings(Errand), fs);
  }

  // ---- What an overtaken progress call can do ----

  /** The driver's progress call has passed its check; the customer cancels; and the driver is offered another job. */
  function OfferedMeanwhile(a: JobId, to: Status, b: JobId, nearby: seq<seq<Driver>>): (es: seq<FleetEvent>) {
    [CheckCall(a, ProgressWrite(to)), OnJob(a, Event.Cancel), Search(b, nearby), WriteOffer(0)]
  }

  /** When the write of the call lands, the driver is on both jobs, though no offer was written for a busy driver. */
  lemma OvertakenCallCrowds(s: State, a: JobId, d: Driver, to: Status, b: JobId, nearby: seq<seq<Driver>>)
    requires CallsFit(s) && SoleJobs(s) && s.calls == [] && s.found == [] && a != b && a in s.jobs
    requires HoldsJob(s.jobs[a], d) && CheckPasses(s.jobs[a], ProgressWrite(to))
    requires CancellableFrom(s.jobs[a].kind, s.jobs[a].status)
    requires Found(Dropped(s, a, to), b, nearby) == Some(d)
    ensures var v := Steps(s, OfferedMeanwhile(a, to, b, nearby));
            SoleJobs(v) && !SoleJobs(FleetStep(v, LandCall(0)))
  {
    var t := FleetStep(s, CheckCall(a, ProgressWrite(to)));
    var u := Dropped(s, a, to);
    CallsFitStep(s, CheckCall(a, ProgressWrite(to)));
    SoleStepExactly(s, CheckCall(a, ProgressWrite(to)));
    CallsFitStep(t, OnJob(a, Event.Cancel));
    SoleStepExactly(t, OnJob(a, Event.Cancel));
    assert u.calls == [LateCall(a, ProgressWrite(to))] && u.jobs[a].driver == Some(d);
    OfferThenLanding(u, a, d, to, b, nearby);
    FourSteps(s, CheckCall(a, ProgressWrite(to)), OnJob(a, Event.Cancel), Search(b, nearby), WriteOffer(0));
  }

  function Dropped(s: State, a: JobId, to: Status): (u: State) {
    FleetStep(FleetStep(s, CheckCall(a, ProgressWrite(to))), OnJob(a, Event.Cancel))
  }

  lemma OfferThenLanding(u: State, a: JobId, d: Driver, to: Status, b: JobId, nearby: seq<seq<Driver>>)
    requires CallsFit(u) && SoleJobs(u) && u.found == [] && a != b && Found(u, b, nearby) == Some(d)
    requires u.calls == [LateCall(a, ProgressWrite(to))] && a in u.jobs && u.jobs[a].driver == Some(d)
    ensures var v := FleetStep(FleetStep(u, Search(b, nearby)), WriteOffer(0));
            SoleJobs(v) && !SoleJobs(FleetStep(v, LandCall(0)))
  {
    OfferMeanwhile(u, a, d, b, nearby);
    var v := FleetStep(FleetStep(u, Search(b, nearby)), WriteOffer(0));
    SoleStepExactly(v, LandCall(0));
  }

  lemma OfferMeanwhile(u: State, a: JobId, d: Driver, b: JobId, nearby: seq<seq<Driver>>)
    requires CallsFit(u) && SoleJobs(u) && u.found == [] && a != b && Found(u, b, nearby) == Some(d)
    requires a in u.jobs && u.jobs[a].driver == Some(d)
    ensures var v := FleetStep(FleetStep(u, Search(b, nearby)), WriteOffer(0));
            && CallsFit(v) && SoleJobs(v) && v.calls == u.calls
            && a in v.jobs && v.jobs[a].driver == Some(d) && b in v.jobs && HoldsJob(v.jobs[b], d)
  {
    FoundForOffer(u, a, d, b, nearby);
    var w := FleetStep(u, Search(b, nearby));
    CallsFitStep(w, WriteOffer(0));
    SoleStepExactly(w, WriteOffer(0));
    PutHolds(w, WriteOffer(0));
  }

  lemma FoundForOffer(u: State, a: JobId, d: Driver, b: JobId, nearby: seq<seq<Driver>>)
    requires CallsFit(u) && SoleJobs(u) && u.found == [] && Found(u, b, nearby) == Some(d)
    requires a in u.jobs && u.jobs[a].driver == Some(d)
    ensures var w := FleetStep(u, Search(b, nearby));
            && CallsFit(w) && SoleJobs(w) && w.calls == u.calls && w.found == [Finding(b, d)] && b in w.jobs
            && !OnAJob(w, d) && a in w.jobs && w.jobs[a].driver == Some(d)
  {
    FoundIsOfferable(u, b, nearby);
    SearchLeavesJobs(u, b, nearby, d);
    CallsFitStep(u, Search(b, nearby));
    SoleStepExactly(u, Search(b, nearby));
  }

  /** The same with a switch to rides in the place of the offer: the errand is held from the ride queue. */
  function SwitchedMeanwhile(a: JobId, to: Status, d: Driver): (es: seq<FleetEvent>) {
    [CheckCall(a, ProgressWrite(to)), OnJob(a, Event.Cancel), CheckMode(d, RIDE), WriteMode(0)]
  }

  lemma OvertakenCallStrays(s: State, a: JobId, d: Driver, to: Status)
    requires CallsFit(s) && SoleJobs(s) && ModesOk(s) && s.calls == [] && s.switches == [] && d !in s.onTrips
    requires a in s.jobs && HoldsQueued(s, a, d) && CheckPasses(s.jobs[a], ProgressWrite(to))
    requires CancellableFrom(s.jobs[a].kind, s.jobs[a].status)
    ensures var v := Steps(s, SwitchedMeanwhile(a, to, d));
            ModesOk(v) && !ModesOk(FleetStep(v, LandCall(0)))
  {
    var t := FleetStep(s, CheckCall(a, ProgressWrite(to)));
    var u := Dropped(s, a, to);
    CallsFitStep(s, CheckCall(a, ProgressWrite(to)));
    ModesStepExactly(s, CheckCall(a, ProgressWrite(to)));
    CallsFitStep(t, OnJob(a, Event.Cancel));
    ModesStepExactly(t, OnJob(a, Event.Cancel));
    CancelFrees(s, a, d, to);
    SwitchThenLanding(u, a, d, to);
    FourSteps(s, CheckCall(a, ProgressWrite(to)), OnJob(a, Event.Cancel), CheckMode(d, RIDE), WriteMode(0));
  }

  lemma CancelFrees(s: State, a: JobId, d: Driver, to: Status)
    requires SoleJobs(s) && d !in s.onTrips && a in s.jobs && HoldsJob(s.jobs[a], d)
    requires CancellableFrom(s.jobs[a].kind, s.jobs[a].status) && CheckPasses(s.jobs[a], ProgressWrite(to))
    ensures var u := Dropped(s, a, to);
            && !OnAJob(u, d) && a in u.jobs && u.jobs[a].driver == Some(d) && u.jobs[a].kind == s.jobs[a].kind
            && u.calls == s.calls + [LateCall(a, ProgressWrite(to))]
            && u.switches == s.switches && u.manual == s.manual
  {
    var u := Dropped(s, a, to);
    forall id | id in u.jobs ensures !HoldsJob(u.jobs[id], d) {
      if id != a { assert u.jobs[id] == s.jobs[id]; }
    }
  }

  lemma SwitchThenLanding(u: State, a: JobId, d: Driver, to: Status)
    requires CallsFit(u) && ModesOk(u) && u.switches == [] && !OnAJob(u, d)
    requires u.calls == [LateCall(a, ProgressWrite(to))]
    requires a in u.jobs && u.jobs[a].driver == Some(d) && !u.jobs[a].kind.Parcel? && a !in u.manual
    ensures var v := FleetStep(FleetStep(u, CheckMode(d, RIDE)), WriteMode(0));
            ModesOk(v) && !ModesOk(FleetStep(v, LandCall(0)))
  {
    var w := FleetStep(u, CheckMode(d, RIDE));
    CallsFitStep(u, CheckMode(d, RIDE));
    ModesStepExactly(u, CheckMode(d, RIDE));
    CallsFitStep(w, WriteMode(0));
    ModesStepExactly(w, WriteMode(0));
    var v := FleetStep(w, WriteMode(0));
    assert ModeIn(v.modes, d) == RIDE;
    ModesStepExactly(v, LandCall(0));
  }

  function Accepting(): (es: seq<FleetEvent>) {
    [Search(0, [[1]]), WriteOffer(0), OnJob(0, Event.Accept(1)), OnJob(0, ClearExclusions)]
  }

  /** Driver 1 has accepted the first of the two jobs. */
  function FirstAccepted(k: Kind): (es: seq<FleetEvent>)
    requires !k.Food?
  {
    TwoBookings(k) + Accepting()
  }

  function Taken(k: Kind): (s: State) {
    Booked(k).(jobs := Booked(k).jobs[0 :=
      OfferTo(NewJob(k, 0, 0).(passes := []), 1).(status := Claimed(k), claims := [1])])
  }

  lemma FirstIsAccepted(k: Kind)
    requires !k.Food?
    ensures FleetRun(FirstAccepted(k)) == Taken(k)
  {
    TwoBookingsMade(k);
    RunThenSteps(TwoBookings(k), Accepting());
    FourSteps(Booked(k), Search(0, [[1]]), WriteOffer(0), OnJob(0, Event.Accept(1)), OnJob(0, ClearExclusions));
    FirstIsOffered(k);
    FirstIsTaken(k);
  }

  function Offered(k: Kind): (s: State) {
    Booked(k).(jobs := Booked(k).jobs[0 := OfferTo(NewJob(k, 0, 0).(passes := []), 1)])
  }

  function Searched(k: Kind): (s: State) {
    Booked(k).(jobs := Booked(k).jobs[0 := NewJob(k, 0, 0).(passes := [])], found := [Finding(0, 1)])
  }

  lemma FirstIsOffered(k: Kind)
    requires !k.Food?
    ensures FleetStep(FleetStep(Booked(k), Search(0, [[1]])), WriteOffer(0)) == Offered(k)
  {
    FirstIsSearched(k);
    var s := Searched(k);
    var t := FleetStep(s, WriteOffer(0));
    assert t.jobs == s.jobs[0 := OfferTo(s.jobs[0], 1)] && t.found == [];
  }

  lemma FirstIsSearched(k: Kind)
    requires !k.Food?
    ensures FleetStep(Booked(k), Search(0, [[1]])) == Searched(k)
  {
    var s := Booked(k);
    assert !OnAJob(s, 1);
    DriverOneFound(s, k, 0);
    var t := FleetStep(s, Search(0, [[1]]));
    assert s.jobs[0].passes[1..] == [];
    assert t.jobs == Searched(k).jobs && t.found == [Finding(0, 1)];
  }

  lemma FirstIsTaken(k: Kind)
    requires !k.Food?
    ensures FleetStep(FleetStep(Offered(k), OnJob(0, Event.Accept(1))), OnJob(0, ClearExclusions)) == Taken(k)
  {
    var j := OfferTo(NewJob(k, 0, 0).(passes := []), 1);
    var taken := j.(status := Claimed(k), claims := [1]);
    assert Step(j, Event.Accept(1)) == taken.(clears := 1);
    assert Step(taken.(clears := 1), ClearExclusions) == taken;
  }

  /**
   The input: driver 1 has accepted parcel 0, and markPickedUp has read MATCHED; the sender cancels; parcel 1
   is offered to driver 1, who is free; and the write of markPickedUp lands.
   */
  lemma PickUpAfterCancel()
    ensures var es := FirstAccepted(Parcel) + OfferedMeanwhile(0, PICKED_UP, 1, [[1]]);
            SoleJobs(FleetRun(es)) && !SoleJobs(FleetRun(es + [LandCall(0)]))
  {
    var s := Taken(Parcel);
    FirstIsAccepted(Parcel);
    CallsFitRun(FirstAccepted(Parcel));
    TakenHolders(Parcel);
    StillFound();
    OvertakenCallCrowds(s, 0, 1, PICKED_UP, 1, [[1]]);
    var es := FirstAccepted(Parcel) + OfferedMeanwhile(0, PICKED_UP, 1, [[1]]);
    RunThenSteps(FirstAccepted(Parcel), OfferedMeanwhile(0, PICKED_UP, 1, [[1]]));
    RunSnoc(es, LandCall(0));
  }

  lemma StillFound()
    ensures Found(Dropped(Taken(Parcel), 0, PICKED_UP), 1, [[1]]) == Some(1)
  {
    var s := Taken(Parcel);
    TakenHolders(Parcel);
    CancelFrees(s, 0, 1, PICKED_UP);
    var u := Dropped(s, 0, PICKED_UP);
    assert u.jobs[1] == NewJob(Parcel, 0, 0) && u.accounts == s.accounts && u.testJobs == {};
    DriverOneFound(u, Parcel, 1);
  }

  lemma TakenHolders(k: Kind)
    requires !k.Food?
    ensures var s := Taken(k);
            SoleJobs(s) && HoldsJob(s.jobs[0], 1) && ModesOk(s) && 1 !in s.onTrips && s.calls == [] && s.found == []
  {
  }

  /**
   And for the queues: startShopping has read ACCEPTED, the errand is cancelled, and its driver goes over to
   rides.
   */
  lemma ShoppingAfterCancel()
    ensures var es := FirstAccepted(Errand) + SwitchedMeanwhile(0, SHOPPING, 1);
            ModesOk(FleetRun(es)) && !ModesOk(FleetRun(es + [LandCall(0)]))
  {
    FirstIsAccepted(Errand);
    CallsFitRun(FirstAccepted(Errand));
    TakenHolders(Errand);
    OvertakenCallStrays(Taken(Errand), 0, 1, SHOPPING);
    var es := FirstAccepted(Errand) + SwitchedMeanwhile(0, SHOPPING, 1);
    RunThenSteps(FirstAccepted(Errand), SwitchedMeanwhile(0, SHOPPING, 1));
    RunSnoc(es, LandCall(0));
  }
}
