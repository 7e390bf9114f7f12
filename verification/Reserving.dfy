/**
 The reserving dispatch protocol shared by parcels, food orders and errands.

 One driver's id is written on the row while the job is offered to them. Each offer starts a timer;
 a decline starts the next match pass while the timer of the declined offer is still pending. The
 protocol is one step function over one job, with the statuses of the three kinds as parameters.
 A timer or a match pass may run up to `lateness` after it is due, and `Crash` loses everything that
 lived in the process.
 */
module Reserving {
  import opened Domain
  import opened Exclusion

  datatype Kind = Parcel | Food | Errand

  datatype Status =
    | PLACED | ACCEPTED | REQUESTED | READY | MATCHING | MATCHED | ASSIGNED
    | PICKED_UP | IN_TRANSIT | SHOPPING | ON_THE_WAY | DELIVERED | CANCELLED

  // ---- The three state machines ----

  function FirstStatus(k: Kind): (r: Status) {
    if k.Food? then PLACED else REQUESTED
  }

  function Idle(k: Kind): (r: Status) {
    if k.Food? then READY else REQUESTED
  }

  function Claimed(k: Kind): (r: Status) {
    match k
    case Parcel => MATCHED
    case Food => ASSIGNED
    case Errand => ACCEPTED
  }

  /** The driver's own progress calls: each names the only status it moves from. */
  function Advanced(k: Kind, st: Status): (r: Option<Status>) {
    match (k, st)
    case (Parcel, MATCHED) => Some(PICKED_UP)
    case (Parcel, PICKED_UP) => Some(IN_TRANSIT)
    case (Food, ASSIGNED) => Some(PICKED_UP)
    case (Errand, ACCEPTED) => Some(SHOPPING)
    case (Errand, SHOPPING) => Some(ON_THE_WAY)
    case _ => None
  }

  predicate DeliverableFrom(k: Kind, st: Status) {
    match k
    case Parcel => st.PICKED_UP? || st.IN_TRANSIT?
    case Food => st.PICKED_UP?
    case Errand => st.ON_THE_WAY?
  }

  predicate CancellableFrom(k: Kind, st: Status) {
    match k
    case Parcel => st.REQUESTED? || st.MATCHING? || st.MATCHED?
    case Food => st.PLACED? || st.ACCEPTED? || st.READY? || st.MATCHING?
    case Errand => st.REQUESTED? || st.MATCHING? || st.ACCEPTED?
  }

  /** The statuses in which the matcher counts the row's driver as being on a job. */
  predicate BusyStatus(k: Kind, st: Status) {
    match k
    case Parcel => st.MATCHING? || st.MATCHED? || st.PICKED_UP? || st.IN_TRANSIT?
    case Food => st.MATCHING? || st.ASSIGNED? || st.PICKED_UP?
    case Errand => st.MATCHING? || st.ACCEPTED? || st.SHOPPING? || st.ON_THE_WAY?
  }

  predicate Preparing(k: Kind, st: Status) {
    k.Food? && (st.PLACED? || st.ACCEPTED?)
  }

  predicate Searching(k: Kind, st: Status) {
    st == Idle(k) || st == MATCHING
  }

  /** Claimed by a driver and not cancelled. */
  predicate Held(k: Kind, st: Status) {
    st.DELIVERED? || (!st.MATCHING? && BusyStatus(k, st))
  }

  // ---- The job ----

  datatype Timer = Timer(driver: Driver, due: Time)

  datatype Offer = Offer(driver: Driver, at: Time)

  datatype Job = Job(
    kind: Kind,
    lateness: nat,
    now: Time,
    crashed: bool,
    // The row.
    status: Status,
    driver: Option<Driver>,
    excluded: ExclusionSet,
    // Work the process still has to do.
    passes: seq<Time>,          // match passes asked for and not yet run, by the time they were asked for
    timers: map<nat, Timer>,    // pending offer timers, by offer number
    clears: nat,                // accepts and cancels that have yet to clear the exclusion set
    checked: multiset<Driver>,  // markDelivered calls past their read, before their conditional update
    owing: seq<Driver>,         // markDelivered calls that won the update, before their ledger write
    // What has happened.
    offers: seq<Offer>,
    claims: seq<Driver>,        // accepts and manual assignments that succeeded
    payouts: seq<Driver>)

  function NewJob(k: Kind, now: Time, lateness: nat): (r: Job) {
    Job(k, lateness, now, false, FirstStatus(k), None, NO_EXCLUSIONS,
        if k.Food? then [] else [now], map[], 0, multiset{}, [], [], [], [])
  }

  datatype Event =
    | Tick(ms: nat)
    | RestaurantAccept
    | MarkReady
    | MatchPass(nearby: seq<seq<Driver>>)
    | Accept(driver: Driver)
    | ClearExclusions
    | Decline(driver: Driver)
    | Timeout(offerNo: nat)
    | ManualAssign(driver: Driver)
    | Cancel
    | Advance(driver: Driver)
    | DeliverRead(driver: Driver)
    | DeliverClaim(driver: Driver)
    | DeliverPay
    | Crash

  // ---- The handlers ----

  /** `nearby.find(d => !excluded.has(d))` */
  function FirstFree(drivers: seq<Driver>, excluded: set<Driver>): (r: Option<Driver>) {
    if drivers == [] then None
    else if drivers[0] !in excluded then Some(drivers[0])
    else FirstFree(drivers[1..], excluded)
  }

  /** The radius loop: one list of drivers per radius, and an early exit at the first candidate. */
  function FirstCandidate(nearby: seq<seq<Driver>>, excluded: set<Driver>): (r: Option<Driver>) {
    if nearby == [] then None
    else
      var found := FirstFree(nearby[0], excluded);
      if found.Some? then found else FirstCandidate(nearby[1..], excluded)
  }

  function OfferTo(j: Job, d: Driver): (r: Job) {
    j.(status := MATCHING,
       driver := Some(d),
       timers := j.timers[|j.offers| := Timer(d, j.now + OFFER_TIMEOUT_MS)],
       offers := j.offers + [Offer(d, j.now)])
  }

  function AfterMatchPass(j: Job, nearby: seq<seq<Driver>>): (r: Job) {
    if j.passes == [] then j
    else
      var k := j.(passes := j.passes[1..]);
      if !Searching(j.kind, j.status) then k
      else
        var found := FirstCandidate(nearby, j.excluded.Live(j.now));
        if found.Some? then OfferTo(k, found.value) else k
  }

  function DeclineOrTimeout(j: Job, d: Driver): (r: Job) {
    j.(excluded := j.excluded.Add(j.now, d),
       status := Idle(j.kind),
       driver := None,
       passes := j.passes + [j.now])
  }

  function AfterTimeout(j: Job, n: nat): (r: Job) {
    if n !in j.timers || j.now < j.timers[n].due then j
    else
      var d := j.timers[n].driver;
      var k := j.(timers := j.timers - {n});
      if j.status == MATCHING && j.driver == Some(d) then DeclineOrTimeout(k, d) else k
  }

  function AfterAccept(j: Job, d: Driver): (r: Job) {
    if j.status == MATCHING && j.driver == Some(d)
    then j.(status := Claimed(j.kind), clears := j.clears + 1, claims := j.claims + [d])
    else j
  }

  function AfterManualAssign(j: Job, d: Driver): (r: Job) {
    if Searching(j.kind, j.status)
    then j.(status := Claimed(j.kind), driver := Some(d), claims := j.claims + [d])
    else j
  }

  function AfterDeliverClaim(j: Job, d: Driver): (r: Job) {
    if d !in j.checked then j
    else
      var k := j.(checked := j.checked - multiset{d});
      if DeliverableFrom(j.kind, j.status)
      then k.(status := DELIVERED, owing := j.owing + [d])
      else k
  }

  /** The clock may not pass the latest moment at which something pending is sure to have run. */
  predicate MayTick(j: Job, ms: nat) {
    && (forall n | n in j.timers :: j.now + ms <= j.timers[n].due + j.lateness)
    && (forall i | 0 <= i < |j.passes| :: j.now + ms <= j.passes[i] + j.lateness)
  }

  function Step(j: Job, e: Event): (r: Job) {
    match e
    case Tick(ms) => if MayTick(j, ms) then j.(now := j.now + ms) else j
    case RestaurantAccept => if j.kind.Food? && j.status == PLACED then j.(status := ACCEPTED) else j
    case MarkReady =>
      if j.kind.Food? && j.status == ACCEPTED
      then j.(status := READY, passes := j.passes + [j.now]) else j
    case MatchPass(nearby) => AfterMatchPass(j, nearby)
    case Accept(d) => AfterAccept(j, d)
    case ClearExclusions => if j.clears > 0 then j.(clears := j.clears - 1, excluded := NO_EXCLUSIONS) else j
    case Decline(d) => if j.status == MATCHING && j.driver == Some(d) then DeclineOrTimeout(j, d) else j
    case Timeout(n) => AfterTimeout(j, n)
    case ManualAssign(d) => AfterManualAssign(j, d)
    case Cancel =>
      if CancellableFrom(j.kind, j.status) then j.(status := CANCELLED, clears := j.clears + 1) else j
    case Advance(d) =>
      if j.driver == Some(d) && Advanced(j.kind, j.status).Some?
      then j.(status := Advanced(j.kind, j.status).value) else j
    case DeliverRead(d) =>
      if j.driver == Some(d) && DeliverableFrom(j.kind, j.status)
      then j.(checked := j.checked + multiset{d}) else j
    case DeliverClaim(d) => AfterDeliverClaim(j, d)
    case DeliverPay =>
      if j.owing == [] then j else j.(owing := j.owing[1..], payouts := j.payouts + [j.owing[0]])
    case Crash => j.(passes := [], timers := map[], clears := 0, checked := multiset{}, owing := [], crashed := true)
  }

  function Run(j: Job, events: seq<Event>): (r: Job)
    decreases |events|
  {
    if events == [] then j else Step(Run(j, events[..|events| - 1]), events[|events| - 1])
  }

  // ---- The search inside a match pass ----

  lemma {:induction false} FirstFreeIsFree(drivers: seq<Driver>, excluded: set<Driver>)
    ensures var r := FirstFree(drivers, excluded);
            && (r.None? <==> forall d | d in drivers :: d in excluded)
            && (r.Some? ==> exists i | 0 <= i < |drivers| ::
                  && drivers[i] == r.value && r.value !in excluded
                  && forall k | 0 <= k < i :: drivers[k] in excluded)
  {
    if drivers != [] && drivers[0] in excluded {
      FirstFreeIsFree(drivers[1..], excluded);
      var r := FirstFree(drivers[1..], excluded);
      if r.Some? {
        var i :| 0 <= i < |drivers[1..]| && drivers[1..][i] == r.value && r.value !in excluded
                 && forall k | 0 <= k < i :: drivers[1..][k] in excluded;
        assert drivers[i + 1] == r.value;
        forall k | 0 <= k < i + 1 ensures drivers[k] in excluded {
          if k > 0 { assert drivers[k] == drivers[1..][k - 1]; }
        }
      } else {
        forall d | d in drivers ensures d in excluded {
          assert d == drivers[0] || d in drivers[1..];
        }
      }
    } else if drivers != [] {
      assert drivers[0] in drivers;
    }
  }

  lemma {:induction false} CandidateIsFree(nearby: seq<seq<Driver>>, excluded: set<Driver>)
    ensures var r := FirstCandidate(nearby, excluded);
            r.Some? ==> r.value !in excluded && exists i | 0 <= i < |nearby| :: r.value in nearby[i]
  {
    if nearby != [] {
      FirstFreeIsFree(nearby[0], excluded);
      if FirstFree(nearby[0], excluded).None? {
        CandidateIsFree(nearby[1..], excluded);
      }
    }
  }
}
