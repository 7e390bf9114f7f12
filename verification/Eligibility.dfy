/** Who may be offered work, as a rule about one driver, and what the driver's own status screen says. */
module Eligibility {
  import opened Domain
  import opened Ledger
  import opened Wallet
  import Trips
  import Reserving

  const MAX_FIX_AGE_MS: nat := 3 * 60 * 1000
  const LASTSEEN_TTL_MS: nat := 15 * 60 * 1000
  const HEARTBEAT_STALE_MS: nat := 60_000

  datatype Account = Account(isDriver: bool, isActive: bool, kycApproved: bool, isTest: bool)

  /** A row of one of the four job tables, as the busy query sees it. */
  datatype JobRow =
    | TripRow(driver: Option<Driver>, trip: Trips.TripStatus)
    | KindRow(driver: Option<Driver>, kind: Reserving.Kind, status: Reserving.Status)

  /** The database at one instant. */
  datatype World = World(
    accounts: map<Driver, Account>,
    online: set<Driver>,
    modes: map<Driver, Mode>,
    heartbeats: map<Driver, Time>,
    jobs: seq<JobRow>,
    ledger: seq<Entry>,
    creditLimit: nat)

  /** A last-seen key: the time it was written, and when Redis drops it. */
  datatype Stamp = Stamp(at: Time, expireAt: Time)

  predicate Occupies(r: JobRow) {
    match r
    case TripRow(_, st) => st.MATCHING? || st.MATCHED? || st.IN_PROGRESS?
    case KindRow(_, k, st) => Reserving.BusyStatus(k, st)
  }

  predicate Busy(w: World, d: Driver) {
    exists i | 0 <= i < |w.jobs| :: w.jobs[i].driver == Some(d) && Occupies(w.jobs[i])
  }

  predicate OverLimit(w: World, d: Driver) {
    GetBalance(w.ledger, d, w.creditLimit).blocked
  }

  /** What MGET returns for a driver: nothing once the key has expired. */
  function Seen(seen: map<Driver, Stamp>, now: Time, d: Driver): (r: Option<Time>) {
    if d in seen && now < seen[d].expireAt then Some(seen[d].at) else None
  }

  predicate Fresh(seen: map<Driver, Stamp>, now: Time, d: Driver) {
    Seen(seen, now, d).Some? && now - Seen(seen, now, d).value <= MAX_FIX_AGE_MS
  }

  /** The driver's last ping is at most three minutes old. */
  predicate Recent(seen: map<Driver, Stamp>, now: Time, d: Driver) {
    d in seen && now - seen[d].at <= 180_000
  }

  predicate AllowedByDb(w: World, testFleet: bool, d: Driver) {
    && d in w.accounts && w.accounts[d].isDriver && w.accounts[d].isActive && w.accounts[d].kycApproved
    && d in w.online && w.accounts[d].isTest == testFleet
  }

  /** The pointwise rule. */
  predicate Eligible(w: World, seen: map<Driver, Stamp>, now: Time, testFleet: bool, d: Driver) {
    Fresh(seen, now, d) && AllowedByDb(w, testFleet, d) && !OverLimit(w, d) && !Busy(w, d)
  }

  /** Who a search that looks at `d` drops from the geo set. */
  predicate Evictable(w: World, seen: map<Driver, Stamp>, now: Time, testFleet: bool, d: Driver) {
    !Fresh(seen, now, d) || (!AllowedByDb(w, testFleet, d) && !OverLimit(w, d) && !Busy(w, d))
  }

  /**
   Keys live a quarter of an hour and fixes count for three minutes, so the expiry of a key never changes
   an answer: freshness is the age of the last ping alone.
   */
  lemma TtlNeverMatters(seen: map<Driver, Stamp>, now: Time, d: Driver)
    requires forall x | x in seen :: seen[x].expireAt == seen[x].at + 900_000
    ensures Fresh(seen, now, d) <==> Recent(seen, now, d)
  {
  }

  /** A fresh driver the search could take but for the debt or the job in hand keeps their place on the map. */
  lemma MerelyBusyIsSpared(w: World, seen: map<Driver, Stamp>, now: Time, testFleet: bool, d: Driver)
    requires Fresh(seen, now, d)
    ensures AllowedByDb(w, testFleet, d) || OverLimit(w, d) || Busy(w, d) ==> !Evictable(w, seen, now, testFleet, d)
    ensures Eligible(w, seen, now, testFleet, d) ==> !Evictable(w, seen, now, testFleet, d)
  {
  }

  /**
   Eviction does not spare the other fleet: a fresh, approved, online driver whom a search for the other
   fleet comes across keeps their place exactly when they are over the limit or on a job.
   */
  lemma OtherFleetIsEvicted(w: World, seen: map<Driver, Stamp>, now: Time, testFleet: bool, d: Driver)
    requires Fresh(seen, now, d) && AllowedByDb(w, !testFleet, d)
    ensures Evictable(w, seen, now, testFleet, d) <==> !OverLimit(w, d) && !Busy(w, d)
  {
  }

  // ---- getDriverStatus ----

  datatype Blocker = SUSPENDED | NOT_APPROVED | OFFLINE | NO_FIX | NO_HEARTBEAT | OVER_LIMIT

  predicate HeartbeatFresh(w: World, now: Time, d: Driver) {
    d in w.heartbeats && w.heartbeats[d] != 0 && now - w.heartbeats[d] <= HEARTBEAT_STALE_MS
  }

  /** `if (...) blockers.push(...)` */
  function When(condition: bool, b: Blocker): (r: seq<Blocker>) {
    if condition then [b] else []
  }

  function Told(suspended: bool, unapproved: bool, offline: bool, noFix: bool, noHeartbeat: bool, overLimit: bool)
    : (r: seq<Blocker>)
  {
    When(suspended, SUSPENDED) + When(unapproved, NOT_APPROVED) + When(offline, OFFLINE)
    + When(noFix, NO_FIX) + When(noHeartbeat, NO_HEARTBEAT) + When(overLimit, OVER_LIMIT)
  }

  function Blockers(w: World, seen: map<Driver, Stamp>, now: Time, d: Driver): (r: seq<Blocker>) {
    var user := if d in w.accounts then Some(w.accounts[d]) else None;
    var fixAt := Seen(seen, now, d);
    Told(user.None? || !user.value.isActive,
         user.None? || !user.value.kycApproved,
         d !in w.online,
         fixAt.None? || fixAt.value == 0 || now - fixAt.value > MAX_FIX_AGE_MS,
         !HeartbeatFresh(w, now, d),
         OverLimit(w, d))
  }

  predicate ReceivingJobs(w: World, seen: map<Driver, Stamp>, now: Time, d: Driver) {
    Blockers(w, seen, now, d) == []
  }

  /**
   What the driver is told against what the matcher does, for any driver account and any clock past the
   first three minutes of the epoch. Being told "receiving jobs" is being eligible for one's own fleet with
   a fresh heartbeat, except that the screen does not know about a job in hand.
   */
  lemma StatusAgreesWithMatcher(w: World, seen: map<Driver, Stamp>, now: Time, d: Driver)
    requires d in w.accounts && w.accounts[d].isDriver && now > 180_000
    ensures ReceivingJobs(w, seen, now, d) && !Busy(w, d)
            <==> && Eligible(w, seen, now, w.accounts[d].isTest, d)
                 && d in w.heartbeats && w.heartbeats[d] != 0 && now - w.heartbeats[d] <= 60_000
    ensures ReceivingJobs(w, seen, now, d) ==>
              (Eligible(w, seen, now, w.accounts[d].isTest, d) <==> !Busy(w, d))
  {
  }

  lemma ToldExactly(a: bool, b: bool, c: bool, d: bool, e: bool, f: bool)
    ensures var told := Told(a, b, c, d, e, f);
            && (SUSPENDED in told <==> a) && (NOT_APPROVED in told <==> b) && (OFFLINE in told <==> c)
            && (NO_FIX in told <==> d) && (NO_HEARTBEAT in told <==> e) && (OVER_LIMIT in told <==> f)
  {
  }

  /** Each line on the status screen, exactly when it is there. */
  lemma EachBlocker(w: World, seen: map<Driver, Stamp>, now: Time, d: Driver)
    requires forall x | x in seen :: seen[x].expireAt == seen[x].at + 900_000
    ensures var told := Blockers(w, seen, now, d);
            && (SUSPENDED in told <==> d !in w.accounts || !w.accounts[d].isActive)
            && (NOT_APPROVED in told <==> d !in w.accounts || !w.accounts[d].kycApproved)
            && (OFFLINE in told <==> d !in w.online)
            && (NO_FIX in told <==> !Recent(seen, now, d) || seen[d].at == 0)
            && (NO_HEARTBEAT in told <==>
                  d !in w.heartbeats || w.heartbeats[d] == 0 || now - w.heartbeats[d] > 60_000)
            && (OVER_LIMIT in told <==> w.creditLimit > 0 && -Balance(w.ledger, d) >= w.creditLimit)
  {
    TtlNeverMatters(seen, now, d);
    var fixAt := Seen(seen, now, d);
    ToldExactly(
      d !in w.accounts || !w.accounts[d].isActive,
      d !in w.accounts || !w.accounts[d].kycApproved,
      d !in w.online,
      fixAt.None? || fixAt.value == 0 || now - fixAt.value > MAX_FIX_AGE_MS,
      !HeartbeatFresh(w, now, d),
      OverLimit(w, d));
  }

  /** A driver the matcher would take has nothing to fix but, at most, the heartbeat. */
  lemma EligibleHasNoOtherBlocker(w: World, seen: map<Driver, Stamp>, now: Time, testFleet: bool, d: Driver)
    requires Eligible(w, seen, now, testFleet, d) && now > 180_000
    ensures forall b | b in Blockers(w, seen, now, d) :: b == NO_HEARTBEAT
  {
  }
}
