/**
 All parcels, food orders and errands together: the shared busy check, the two queues, the two fleets, and
 manual assignment. Each job runs the reserving protocol. A match pass is two steps: a search, which sees
 only drivers who at that moment are on no job, belong to the job's fleet and, for food and errands, are in
 that queue; and the offer, which is written later and without a condition. Switching queues is two steps
 as well: the count of the driver's jobs, and the write. So are, besides the handlers in one piece, a
 cancellation, a progress call of the driver, a step of the restaurant, and the reset after a decline or a
 timeout.
 */
module Fleet {
  import opened Domain
  import opened Reserving
  import opened ReservingSafety
  import opened ReservingRaces
  import opened Eligibility
  import Trips
  import TripsSafety

  type JobId = nat

  /** A search that has found its driver and not yet written the offer. */
  datatype Finding = Finding(id: JobId, driver: Driver)

  /** A change of queue past its count of active jobs and not yet written. */
  datatype Switch = Switch(driver: Driver, mode: Mode)

  /** A cancellation, a progress call, a reset or a step of the restaurant past its check and not yet written. */
  datatype LateCall = LateCall(id: JobId, write: LateWrite)

  datatype State = State(
    jobs: map<JobId, Job>,
    testJobs: set<JobId>,       // jobs whose owner is a review account
    accounts: map<Driver, Account>,
    modes: map<Driver, Mode>,
    onTrips: set<Driver>,       // drivers on a trip row in MATCHING, MATCHED or IN_PROGRESS
    manual: set<JobId>,         // jobs whose driver was placed by the ops desk
    found: seq<Finding>,
    switches: seq<Switch>,
    calls: seq<LateCall>)

  const EMPTY := State(map[], {}, map[], map[], {}, {}, [], [], [])

  /** The row condition of the busy query: this driver, in a busy status. */
  predicate HoldsJob(j: Job, d: Driver) {
    j.driver == Some(d) && BusyStatus(j.kind, j.status)
  }

  predicate OnAJob(s: State, d: Driver) {
    d in s.onTrips || exists id | id in s.jobs :: HoldsJob(s.jobs[id], d)
  }

  predicate OfItsFleet(s: State, id: JobId, d: Driver) {
    d in s.accounts && s.accounts[d].isTest == (id in s.testJobs)
  }

  /** An approved, active driver account of the job's own fleet: required of every match, automatic or manual. */
  predicate MayCarry(s: State, id: JobId, d: Driver) {
    && d in s.accounts && s.accounts[d].isDriver && s.accounts[d].isActive && s.accounts[d].kycApproved
    && s.accounts[d].isTest == (id in s.testJobs)
  }

  predicate Offerable(s: State, id: JobId, k: Kind, d: Driver) {
    MayCarry(s, id, d) && !OnAJob(s, d) && (k.Parcel? || ModeIn(s.modes, d) == FOOD_ERRAND)
  }

  function Offerables(s: State, id: JobId, k: Kind, drivers: seq<Driver>): (r: seq<Driver>)
    ensures forall d :: d in r <==> d in drivers && Offerable(s, id, k, d)
  {
    if drivers == [] then []
    else
      var rest := Offerables(s, id, k, drivers[1..]);
      if Offerable(s, id, k, drivers[0]) then [drivers[0]] + rest else rest
  }

  function Filtered(s: State, id: JobId, k: Kind, nearby: seq<seq<Driver>>): (r: seq<seq<Driver>>) {
    seq(|nearby|, i requires 0 <= i < |nearby| => Offerables(s, id, k, nearby[i]))
  }

  datatype FleetEvent =
    | Create(id: JobId, kind: Kind, now: Time, lateness: nat, isTest: bool)
    | SetAccount(driver: Driver, account: Account)
    | OnJob(id: JobId, event: Event)
    | Search(id: JobId, nearby: seq<seq<Driver>>)
    | WriteOffer(finding: nat)
    | CheckMode(driver: Driver, mode: Mode)
    | WriteMode(switch: nat)
    | CheckCall(id: JobId, write: LateWrite)
    | LandCall(call: nat)
    // A search or a count whose queries ran at different moments: of all it asks, only the fleet is sure.
    | SlowSearch(id: JobId, driver: Driver)
    | SlowCount(driver: Driver, mode: Mode)
    | TripsMove(onTrips: set<Driver>)

  /** Whom a search for this job finds now, if it runs at all. */
  function Found(s: State, id: JobId, nearby: seq<seq<Driver>>): (r: Option<Driver>) {
    if id !in s.jobs || s.jobs[id].passes == [] || !Searching(s.jobs[id].kind, s.jobs[id].status) then None
    else FirstCandidate(Filtered(s, id, s.jobs[id].kind, nearby), s.jobs[id].excluded.Live(s.jobs[id].now))
  }

  function Without<T>(s: seq<T>, i: nat): (r: seq<T>)
    requires i < |s|
    ensures forall x :: x in r ==> x in s
  {
    s[..i] + s[i + 1..]
  }

  function AfterSearching(s: State, id: JobId, nearby: seq<seq<Driver>>): (t: State) {
    if id !in s.jobs || s.jobs[id].passes == [] then s
    else
      var d := Found(s, id, nearby);
      s.(jobs := s.jobs[id := s.jobs[id].(passes := s.jobs[id].passes[1..])],
         found := if d.Some? then s.found + [Finding(id, d.value)] else s.found)
  }

  function AfterOffer(s: State, n: nat): (t: State) {
    if n >= |s.found| || s.found[n].id !in s.jobs then s
    else
      var f := s.found[n];
      s.(jobs := s.jobs[f.id := Write(s.jobs[f.id], OfferWrite(f.driver))],
         manual := s.manual - {f.id},
         found := Without(s.found, n))
  }

  function AfterCheck(s: State, id: JobId, w: LateWrite): (t: State) {
    if id in s.jobs && !w.OfferWrite? && CheckPasses(s.jobs[id], w) then s.(calls := s.calls + [LateCall(id, w)]) else s
  }

  function AfterLanding(s: State, n: nat): (t: State) {
    if n >= |s.calls| || s.calls[n].id !in s.jobs then s
    else
      var c := s.calls[n];
      s.(jobs := s.jobs[c.id := Write(s.jobs[c.id], c.write)], calls := Without(s.calls, n))
  }

  function AfterOnJob(s: State, id: JobId, e: Event): (t: State) {
    if id !in s.jobs || e.MatchPass? || (e.ManualAssign? && !MayCarry(s, id, e.driver)) then s
    else
      var j := s.jobs[id];
      s.(jobs := s.jobs[id := Step(j, e)],
         manual := if e.ManualAssign? && Searching(j.kind, j.status) then s.manual + {id} else s.manual)
  }

  function FleetStep(s: State, e: FleetEvent): (t: State) {
    match e
    case Create(id, k, now, lateness, isTest) =>
      if id in s.jobs then s
      else s.(jobs := s.jobs[id := NewJob(k, now, lateness)],
              testJobs := if isTest then s.testJobs + {id} else s.testJobs - {id})
    case SetAccount(d, account) =>
      // Roles, approval and suspension change; nothing in the program sets the review flag.
      if d in s.accounts && s.accounts[d].isTest != account.isTest then s
      else s.(accounts := s.accounts[d := account])
    case OnJob(id, ev) => AfterOnJob(s, id, ev)
    case Search(id, nearby) => AfterSearching(s, id, nearby)
    case WriteOffer(n) => AfterOffer(s, n)
    case CheckMode(d, m) =>
      if OnAJob(s, d) then s else s.(switches := s.switches + [Switch(d, m)])
    case WriteMode(n) =>
      if n >= |s.switches| then s
      else s.(modes := s.modes[s.switches[n].driver := s.switches[n].mode], switches := Without(s.switches, n))
    case CheckCall(id, w) => AfterCheck(s, id, w)
    case LandCall(n) => AfterLanding(s, n)
    case SlowSearch(id, d) =>
      if id in s.jobs && OfItsFleet(s, id, d) then s.(found := s.found + [Finding(id, d)]) else s
    case SlowCount(d, m) => s.(switches := s.switches + [Switch(d, m)])
    case TripsMove(ds) => s.(onTrips := ds)
  }

  function FleetRun(es: seq<FleetEvent>): (s: State)
    decreases |es|
  {
    if es == [] then EMPTY else FleetStep(FleetRun(es[..|es| - 1]), es[|es| - 1])
  }

  /** A search whose offer is written before anything else happens is the match pass of the protocol. */
  lemma PassIsSearchThenOffer(s: State, id: JobId, nearby: seq<seq<Driver>>)
    requires id in s.jobs
    ensures var j := s.jobs[id];
            var t := FleetStep(s, Search(id, nearby));
            var u := if Found(s, id, nearby).Some? then FleetStep(t, WriteOffer(|s.found|)) else t;
            && id in u.jobs && u.jobs[id] == Step(j, MatchPass(Filtered(s, id, j.kind, nearby)))
            && u.found == s.found
            && forall other | other in s.jobs && other != id :: other in u.jobs && u.jobs[other] == s.jobs[other]
  {
  }

  lemma FoundIsOfferable(s: State, id: JobId, nearby: seq<seq<Driver>>)
    requires Found(s, id, nearby).Some?
    ensures id in s.jobs && Offerable(s, id, s.jobs[id].kind, Found(s, id, nearby).value)
  {
    CandidateIsFree(Filtered(s, id, s.jobs[id].kind, nearby), s.jobs[id].excluded.Live(s.jobs[id].now));
  }

  /** What is about to be offered after a step was so before, or has just been found. */
  lemma FoundBefore(s: State, e: FleetEvent, i: nat)
    requires i < |FleetStep(s, e).found|
    ensures var f := FleetStep(s, e).found[i];
            || f in s.found
            || (e.Search? && Found(s, e.id, e.nearby) == Some(f.driver) && f.id == e.id)
            || (e.SlowSearch? && f == Finding(e.id, e.driver) && e.id in s.jobs && OfItsFleet(s, e.id, e.driver))
  {
  }

  /** What is about to be written is a reset, a cancellation or a progress call that fits its job. */
  ghost predicate CallsFit(s: State) {
    forall i | 0 <= i < |s.calls| :: CallFits(s, s.calls[i])
  }

  ghost predicate CallFits(s: State, c: LateCall) {
    c.id in s.jobs && WellFormed(s.jobs[c.id].kind, c.write) && !c.write.OfferWrite?
  }

  lemma CallBefore(s: State, e: FleetEvent, i: nat)
    requires i < |FleetStep(s, e).calls|
    ensures var c := FleetStep(s, e).calls[i];
            c in s.calls || (e == CheckCall(c.id, c.write) && c.id in s.jobs && CheckPasses(s.jobs[c.id], c.write)
                             && !c.write.OfferWrite?)
  {
  }

  lemma CallsFitStep(s: State, e: FleetEvent)
    requires CallsFit(s)
    ensures CallsFit(FleetStep(s, e))
  {
    var t := FleetStep(s, e);
    forall i | 0 <= i < |t.calls| ensures CallFits(t, t.calls[i]) {
      CallBefore(s, e, i);
      KindStays(s, e, t.calls[i].id);
    }
  }

  lemma {:induction false} CallsFitRun(es: seq<FleetEvent>)
    ensures CallsFit(FleetRun(es))
    decreases |es|
  {
    if es != [] {
      CallsFitRun(es[..|es| - 1]);
      CallsFitStep(FleetRun(es[..|es| - 1]), es[|es| - 1]);
    }
  }

  // ---- Who gets onto a row ----

  /** The busy statuses are exactly those in which an unfinished row carries a driver. */
  lemma BusyCoversEveryHolder(j: Job)
    requires RowInv(j)
    ensures BusyStatus(j.kind, j.status) <==> j.driver.Some? && j.status != DELIVERED && j.status != CANCELLED
  {
  }

  /** For trips too: whoever is on an unfinished one is on a job. */
  lemma BusyCoversEveryTrip(t: Trips.Trip)
    requires TripsSafety.RowInv(t) && t.row.driver.Some?
    ensures Occupies(TripRow(t.row.driver, t.row.status))
            <==> t.row.status != Trips.COMPLETED && t.row.status != Trips.CANCELLED
  {
  }

  /** Of one job's handlers, only a match pass or a manual assignment puts a driver on it. */
  lemma HoldersStay(j: Job, e: Event, d: Driver)
    requires !e.MatchPass? && !e.ManualAssign?
    requires HoldsJob(Step(j, e), d)
    ensures HoldsJob(j, d)
  {
  }

  /**
   The job and driver that an event joins, if it joins any: an offer or a manual assignment does, and so
   does a progress call, with whoever is on the row it lands on.
   */
  function Puts(s: State, e: FleetEvent): (r: Option<Finding>) {
    if e.WriteOffer? && e.finding < |s.found| && s.found[e.finding].id in s.jobs then Some(s.found[e.finding])
    else if e.OnJob? && e.event.ManualAssign? && e.id in s.jobs && MayCarry(s, e.id, e.event.driver)
            && Searching(s.jobs[e.id].kind, s.jobs[e.id].status)
    then Some(Finding(e.id, e.event.driver))
    else if e.LandCall? && e.call < |s.calls| && s.calls[e.call].write.ProgressWrite? && s.calls[e.call].id in s.jobs
            && s.jobs[s.calls[e.call].id].driver.Some?
    then Some(Finding(s.calls[e.call].id, s.jobs[s.calls[e.call].id].driver.value))
    else None
  }

  /**
   Jobs neither vanish nor change their kind; a new holder is the one the event puts there, and does hold the
   job.
   */
  lemma HolderComesFrom(s: State, e: FleetEvent, id: JobId, d: Driver)
    requires CallsFit(s)
    requires id in FleetStep(s, e).jobs && HoldsJob(FleetStep(s, e).jobs[id], d)
    ensures Puts(s, e) == Some(Finding(id, d)) || (id in s.jobs && HoldsJob(s.jobs[id], d) && !Replaced(s, e, id))
  {
    if e.OnJob? && e.id == id && id in s.jobs && !e.event.MatchPass? && !e.event.ManualAssign? {
      HoldersStay(s.jobs[id], e.event, d);
    }
    if e.LandCall? && e.call < |s.calls| && s.calls[e.call].id == id {
      assert CallFits(s, s.calls[e.call]);
      LandedHolder(s.jobs[id], s.calls[e.call].write, d);
    }
  }

  /** Of the other late writes only a progress call leaves somebody on the job, and that whoever is on the row. */
  lemma LandedHolder(j: Job, w: LateWrite, d: Driver)
    requires WellFormed(j.kind, w) && !w.OfferWrite? && HoldsJob(Write(j, w), d)
    ensures w.ProgressWrite? && j.driver == Some(d)
  {
  }

  predicate Replaced(s: State, e: FleetEvent, id: JobId) {
    Puts(s, e).Some? && Puts(s, e).value.id == id
  }

  lemma PutHolds(s: State, e: FleetEvent)
    requires CallsFit(s) && Puts(s, e).Some?
    ensures var p := Puts(s, e).value;
            && p.id in FleetStep(s, e).jobs && HoldsJob(FleetStep(s, e).jobs[p.id], p.driver)
            && FleetStep(s, e).jobs.Keys == s.jobs.Keys
            && forall other | other in s.jobs && other != p.id :: FleetStep(s, e).jobs[other] == s.jobs[other]
  {
    if e.LandCall? { assert CallFits(s, s.calls[e.call]); }
  }

  // ---- One job at a time ----

  /** No driver is on two jobs. */
  ghost predicate SoleJobs(s: State) {
    forall a, b, d | a in s.jobs && b in s.jobs && HoldsJob(s.jobs[a], d) && HoldsJob(s.jobs[b], d) :: a == b
  }

  ghost predicate HoldsAnother(s: State, id: JobId, d: Driver) {
    exists other | other in s.jobs :: other != id && HoldsJob(s.jobs[other], d)
  }

  /** The event puts a driver on a job who at that moment is on another. */
  ghost predicate Crowds(s: State, e: FleetEvent) {
    Puts(s, e).Some? && HoldsAnother(s, Puts(s, e).value.id, Puts(s, e).value.driver)
  }

  /** One step keeps every driver on one job at most exactly if it does not put a driver on a second one. */
  lemma SoleStepExactly(s: State, e: FleetEvent)
    requires CallsFit(s) && SoleJobs(s)
    ensures SoleJobs(FleetStep(s, e)) <==> !Crowds(s, e)
  {
    var t := FleetStep(s, e);
    if Crowds(s, e) {
      PutHolds(s, e);
      var p := Puts(s, e).value;
      var other :| other in s.jobs && other != p.id && HoldsJob(s.jobs[other], p.driver);
      assert HoldsJob(t.jobs[other], p.driver) && HoldsJob(t.jobs[p.id], p.driver);
    } else {
      forall a, b, d | a in t.jobs && b in t.jobs && HoldsJob(t.jobs[a], d) && HoldsJob(t.jobs[b], d) ensures a == b {
        HolderComesFrom(s, e, a, d);
        HolderComesFrom(s, e, b, d);
      }
    }
  }

  ghost predicate AlwaysSole(es: seq<FleetEvent>)
    decreases |es|
  {
    SoleJobs(FleetRun(es)) && (es != [] ==> AlwaysSole(es[..|es| - 1]))
  }

  ghost predicate NeverCrowds(es: seq<FleetEvent>)
    decreases |es|
  {
    es != [] ==> NeverCrowds(es[..|es| - 1]) && !Crowds(FleetRun(es[..|es| - 1]), es[|es| - 1])
  }

  /**
   Over whole runs: nobody is ever on two parcels, food orders or errands if and only if no offer and no
   manual assignment is written for a driver who at that moment is on another, and no progress call is
   written on a row whose driver is on another.
   */
  lemma {:induction false} OneJobExactly(es: seq<FleetEvent>)
    ensures AlwaysSole(es) <==> NeverCrowds(es)
    decreases |es|
  {
    if es != [] {
      var n := |es| - 1;
      OneJobExactly(es[..n]);
      CallsFitRun(es[..n]);
      if SoleJobs(FleetRun(es[..n])) { SoleStepExactly(FleetRun(es[..n]), es[n]); }
      if AlwaysSole(es[..n]) { assert SoleJobs(FleetRun(es[..n])); }
    }
  }

  /** A late offer in particular: it is safe exactly if no other job holds its driver when it is written. */
  lemma LateOfferExactly(s: State, n: nat)
    requires CallsFit(s) && SoleJobs(s) && n < |s.found| && s.found[n].id in s.jobs
    ensures SoleJobs(FleetStep(s, WriteOffer(n))) <==> !HoldsAnother(s, s.found[n].id, s.found[n].driver)
  {
    SoleStepExactly(s, WriteOffer(n));
  }

  /** A late progress call: exactly if no other job holds the driver of the row it lands on, if there is one. */
  lemma LateProgressExactly(s: State, n: nat)
    requires CallsFit(s) && SoleJobs(s) && n < |s.calls| && s.calls[n].write.ProgressWrite?
    ensures var id := s.calls[n].id;
            && id in s.jobs
            && (SoleJobs(FleetStep(s, LandCall(n)))
                <==> (s.jobs[id].driver.Some? ==> !HoldsAnother(s, id, s.jobs[id].driver.value)))
  {
    assert CallFits(s, s.calls[n]);
    SoleStepExactly(s, LandCall(n));
  }

  /** And a manual assignment, which asks neither. */
  lemma ManualAssignExactly(s: State, id: JobId, d: Driver)
    requires CallsFit(s) && SoleJobs(s)
    requires id in s.jobs && Searching(s.jobs[id].kind, s.jobs[id].status) && MayCarry(s, id, d)
    ensures SoleJobs(FleetStep(s, OnJob(id, ManualAssign(d)))) <==> !HoldsAnother(s, id, d)
  {
    SoleStepExactly(s, OnJob(id, ManualAssign(d)));
  }

  // ---- One queue at a time ----

  /** Whoever holds an automatically matched food order or errand is in that queue. */
  ghost predicate ModesOk(s: State) {
    forall id, d | id in s.jobs && HoldsQueued(s, id, d) :: ModeIn(s.modes, d) == FOOD_ERRAND
  }

  ghost predicate HoldsQueued(s: State, id: JobId, d: Driver)
    requires id in s.jobs
  {
    id !in s.manual && !s.jobs[id].kind.Parcel? && HoldsJob(s.jobs[id], d)
  }

  /** The event joins a driver to a job, and not by the ops desk. */
  predicate PutsQueued(s: State, e: FleetEvent) {
    Puts(s, e).Some? && (e.WriteOffer? || (e.LandCall? && Puts(s, e).value.id !in s.manual))
  }

  /**
   The event joins a food order or errand to a driver who has left that queue, or takes a driver out of
   it who holds one.
   */
  ghost predicate Strays(s: State, e: FleetEvent) {
    || (PutsQueued(s, e)
        && !s.jobs[Puts(s, e).value.id].kind.Parcel? && ModeIn(s.modes, Puts(s, e).value.driver) != FOOD_ERRAND)
    || (e.WriteMode? && e.switch < |s.switches| && s.switches[e.switch].mode != FOOD_ERRAND
        && exists id | id in s.jobs :: HoldsQueued(s, id, s.switches[e.switch].driver))
  }

  /** A row held after a step and not put there by it was held, and was automatic, before it. */
  lemma QueuedBefore(s: State, e: FleetEvent, id: JobId, d: Driver)
    requires CallsFit(s) && id in FleetStep(s, e).jobs && HoldsQueued(FleetStep(s, e), id, d)
    ensures (PutsQueued(s, e) && Puts(s, e) == Some(Finding(id, d)) && !s.jobs[id].kind.Parcel?)
            || (id in s.jobs && HoldsQueued(s, id, d) && !Replaced(s, e, id))
  {
    HolderComesFrom(s, e, id, d);
    if id in s.jobs { KindStays(s, e, id); }
  }

  lemma KindStays(s: State, e: FleetEvent, id: JobId)
    requires id in s.jobs
    ensures id in FleetStep(s, e).jobs && FleetStep(s, e).jobs[id].kind == s.jobs[id].kind
  {
    if e.OnJob? && e.id == id { StepKeepsKind(s.jobs[id], e.event); }
  }

  lemma StepKeepsKind(j: Job, e: Event)
    ensures Step(j, e).kind == j.kind
  {
  }

  lemma ModesChange(s: State, e: FleetEvent)
    ensures !e.WriteMode? ==> FleetStep(s, e).modes == s.modes
    ensures e.WriteMode? ==> FleetStep(s, e).jobs == s.jobs && FleetStep(s, e).manual == s.manual
  {
  }

  lemma ModesStepExactly(s: State, e: FleetEvent)
    requires CallsFit(s) && ModesOk(s)
    ensures ModesOk(FleetStep(s, e)) <==> !Strays(s, e)
  {
    var t := FleetStep(s, e);
    ModesChange(s, e);
    if Strays(s, e) {
      StrayBreaks(s, e);
    } else {
      forall id, d | id in t.jobs && HoldsQueued(t, id, d) ensures ModeIn(t.modes, d) == FOOD_ERRAND {
        QueuedBefore(s, e, id, d);
      }
    }
  }

  lemma StrayBreaks(s: State, e: FleetEvent)
    requires CallsFit(s) && Strays(s, e)
    ensures !ModesOk(FleetStep(s, e))
  {
    var t := FleetStep(s, e);
    ModesChange(s, e);
    if PutsQueued(s, e) {
      PutHolds(s, e);
      var p := Puts(s, e).value;
      KindStays(s, e, p.id);
      assert HoldsQueued(t, p.id, p.driver);
    } else {
      var d := s.switches[e.switch].driver;
      var id :| id in s.jobs && HoldsQueued(s, id, d);
      assert HoldsQueued(t, id, d);
    }
  }

  ghost predicate AlwaysInQueue(es: seq<FleetEvent>)
    decreases |es|
  {
    ModesOk(FleetRun(es)) && (es != [] ==> AlwaysInQueue(es[..|es| - 1]))
  }

  ghost predicate NeverStrays(es: seq<FleetEvent>)
    decreases |es|
  {
    es != [] ==> NeverStrays(es[..|es| - 1]) && !Strays(FleetRun(es[..|es| - 1]), es[|es| - 1])
  }

  /**
   Over whole runs: whoever holds an automatically matched food order or errand is always in that queue if
   and only if no offer of one is written for a driver who has left the queue, no progress call is written
   on one whose driver has left it, and no switch out of it is written for a driver who holds one.
   */
  lemma {:induction false} QueueKeptExactly(es: seq<FleetEvent>)
    ensures AlwaysInQueue(es) <==> NeverStrays(es)
    decreases |es|
  {
    if es != [] {
      var n := |es| - 1;
      QueueKeptExactly(es[..n]);
      CallsFitRun(es[..n]);
      if ModesOk(FleetRun(es[..n])) { ModesStepExactly(FleetRun(es[..n]), es[n]); }
      if AlwaysInQueue(es[..n]) { assert ModesOk(FleetRun(es[..n])); }
    }
  }

  // ---- The two fleets ----

  /** Review jobs are on review drivers and real jobs on real drivers, finished and cancelled ones included. */
  ghost predicate FleetsApart(s: State) {
    forall id: JobId, d: Driver | id in s.jobs :: InItsFleet(s, id, d)
  }

  ghost predicate InItsFleet(s: State, id: JobId, d: Driver)
    requires id in s.jobs
  {
    s.jobs[id].driver == Some(d) ==> OfItsFleet(s, id, d)
  }

  /** So are the drivers about to be offered a job. */
  ghost predicate FindingsApart(s: State) {
    forall i | 0 <= i < |s.found| :: s.found[i].id in s.jobs && OfItsFleet(s, s.found[i].id, s.found[i].driver)
  }

  lemma DriverOnlyLeaves(j: Job, e: Event)
    requires !e.MatchPass? && !e.ManualAssign?
    ensures Step(j, e).driver == j.driver || Step(j, e).driver.None?
  {
  }

  /** A driver new to a row was put there. */
  lemma NewOnRow(s: State, e: FleetEvent, id: JobId, d: Driver)
    requires CallsFit(s)
    requires id in FleetStep(s, e).jobs && FleetStep(s, e).jobs[id].driver == Some(d)
    ensures Puts(s, e) == Some(Finding(id, d)) || (id in s.jobs && s.jobs[id].driver == Some(d))
  {
    if e.OnJob? && e.id == id && id in s.jobs && !e.event.MatchPass? && !e.event.ManualAssign? {
      DriverOnlyLeaves(s.jobs[id], e.event);
    }
    if e.LandCall? && e.call < |s.calls| { assert CallFits(s, s.calls[e.call]); }
  }

  /** A step takes no account away, moves nobody to the other fleet, and keeps each job in its own. */
  lemma FleetsStay(s: State, e: FleetEvent, id: JobId, d: Driver)
    requires id in s.jobs && OfItsFleet(s, id, d)
    ensures OfItsFleet(FleetStep(s, e), id, d)
  {
  }

  lemma FleetsStep(s: State, e: FleetEvent)
    requires CallsFit(s) && FleetsApart(s) && FindingsApart(s)
    ensures FleetsApart(FleetStep(s, e)) && FindingsApart(FleetStep(s, e))
  {
    var t := FleetStep(s, e);
    forall id: JobId, d: Driver | id in t.jobs ensures InItsFleet(t, id, d) {
      if t.jobs[id].driver == Some(d) {
        NewOnRow(s, e, id, d);
        if id in s.jobs { assert InItsFleet(s, id, d); }
        FleetsStay(s, e, id, d);
      }
    }
    forall i | 0 <= i < |t.found| ensures t.found[i].id in t.jobs && OfItsFleet(t, t.found[i].id, t.found[i].driver) {
      FoundBefore(s, e, i);
      if t.found[i] !in s.found && e.Search? { FoundIsOfferable(s, e.id, e.nearby); }
      KindStays(s, e, t.found[i].id);
      FleetsStay(s, e, t.found[i].id, t.found[i].driver);
    }
  }

  /**
   Parcels, food orders and errands stay on their side of the wall between the review fleet and the real
   one in every run, late offers and manual assignments included.
   */
  lemma {:induction false} FleetsNeverMix(es: seq<FleetEvent>)
    ensures FleetsApart(FleetRun(es)) && FindingsApart(FleetRun(es))
    decreases |es|
  {
    if es != [] {
      var n := |es| - 1;
      FleetsNeverMix(es[..n]);
      CallsFitRun(es[..n]);
      FleetsStep(FleetRun(es[..n]), es[n]);
    }
  }

  // ---- The pointwise rule behind the match passes ----

  /** A database whose accounts, queues and job tables are those of the state. */
  ghost predicate Shows(w: World, s: State) {
    && w.accounts == s.accounts && w.modes == s.modes
    && (forall id | id in s.jobs :: KindRow(s.jobs[id].driver, s.jobs[id].kind, s.jobs[id].status) in w.jobs)
    && (forall d | d in s.onTrips :: exists r | r in w.jobs :: r.TripRow? && r.driver == Some(d) && Occupies(r))
  }

  /** Whoever the matcher's rule accepts (in the right queue) is someone a match pass here may pick. */
  lemma EligibleIsOfferable(w: World, s: State, seen: map<Driver, Stamp>, now: Time, id: JobId, k: Kind, d: Driver)
    requires Shows(w, s)
    requires Eligible(w, seen, now, id in s.testJobs, d)
    requires k.Parcel? || ModeIn(s.modes, d) == FOOD_ERRAND
    ensures Offerable(s, id, k, d)
  {
    JobsAgree(w, s, d);
  }

  lemma JobsAgree(w: World, s: State, d: Driver)
    requires Shows(w, s)
    ensures OnAJob(s, d) ==> Busy(w, d)
  {
    if d in s.onTrips {
      var r :| r in w.jobs && r.TripRow? && r.driver == Some(d) && Occupies(r);
      RowMakesBusy(w, r, d);
    } else if OnAJob(s, d) {
      var other :| other in s.jobs && HoldsJob(s.jobs[other], d);
      RowMakesBusy(w, KindRow(s.jobs[other].driver, s.jobs[other].kind, s.jobs[other].status), d);
    }
  }

  lemma RowMakesBusy(w: World, r: JobRow, d: Driver)
    requires r in w.jobs && r.driver == Some(d) && Occupies(r)
    ensures Busy(w, d)
  {
    var i :| 0 <= i < |w.jobs| && w.jobs[i] == r;
  }

  // ---- The two services that write these tables from outside the protocol ----

  datatype AssignResult = Assigned | DriverNotFound | NotApproved | WrongFleet | NotAwaiting

  class FleetTables {
    var jobs: map<JobId, Job>
    var testJobs: set<JobId>
    var accounts: map<Driver, Account>
    var activeMode: map<Driver, Mode>
    var onTrips: set<Driver>
    var switches: seq<Switch>
    ghost var manual: set<JobId>
    ghost var found: seq<Finding>
    ghost var calls: seq<LateCall>

    ghost function Snapshot(): (r: State)
      reads this
    {
      State(jobs, testJobs, accounts, activeMode, onTrips, manual, found, switches, calls)
    }

    /** UsersService.setActiveMode, the four counts: refused while any job of the four tables holds the driver. */
    method BeginSwitch(driver: Driver, mode: Mode) returns (ok: bool)
      modifies this`switches
      ensures Snapshot() == FleetStep(old(Snapshot()), CheckMode(driver, mode))
      ensures ok <==> driver !in onTrips && forall id | id in jobs && jobs[id].driver == Some(driver) ::
                        !BusyStatus(jobs[id].kind, jobs[id].status)
      ensures switches == if ok then old(switches) + [Switch(driver, mode)] else old(switches)
    {
      var active := driver in onTrips || exists id | id in jobs :: HoldsJob(jobs[id], driver);
      if active { return false; }
      switches := switches + [Switch(driver, mode)];
      ok := true;
    }

    /** The upsert, whatever the driver is doing by now. */
    method CommitSwitch(n: nat)
      requires n < |switches|
      modifies this`switches, this`activeMode
      ensures Snapshot() == FleetStep(old(Snapshot()), WriteMode(n))
      ensures ModeIn(activeMode, old(switches[n]).driver) == old(switches[n]).mode
    {
      activeMode := activeMode[switches[n].driver := switches[n].mode];
      switches := Without(switches, n);
    }

    /**
     AdminService.manuallyAssign for parcels, food orders and errands: the checks in their order, then the
     update.
     */
    method ManuallyAssign(id: JobId, driver: Driver) returns (r: AssignResult)
      modifies this`jobs, this`manual
      ensures Snapshot() == FleetStep(old(Snapshot()), OnJob(id, ManualAssign(driver)))
      ensures r.DriverNotFound? <==> driver !in accounts || !accounts[driver].isDriver
      ensures r.NotApproved? <==>
                !r.DriverNotFound? && !(accounts[driver].kycApproved && accounts[driver].isActive)
      ensures r.WrongFleet? <==>
                !r.DriverNotFound? && !r.NotApproved? && accounts[driver].isTest != (id in jobs && id in testJobs)
      ensures r.NotAwaiting? <==>
                && !r.DriverNotFound? && !r.NotApproved? && !r.WrongFleet?
                && (id !in jobs || !Searching(old(jobs)[id].kind, old(jobs)[id].status))
      ensures r.Assigned? <==> id in jobs && MayCarry(old(Snapshot()), id, driver)
                               && Searching(old(jobs)[id].kind, old(jobs)[id].status)
    {
      if driver !in accounts || !accounts[driver].isDriver { return DriverNotFound; }
      if !accounts[driver].kycApproved || !accounts[driver].isActive { return NotApproved; }
      var jobIsTest := id in jobs && id in testJobs;
      if accounts[driver].isTest != jobIsTest { return WrongFleet; }
      if id !in jobs { return NotAwaiting; }
      var awaiting := Searching(jobs[id].kind, jobs[id].status);
      jobs := jobs[id := AfterManualAssign(jobs[id], driver)];
      if awaiting {
        manual := manual + {id};
        return Assigned;
      }
      r := NotAwaiting;
    }
  }
}
