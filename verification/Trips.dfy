/**
 Broadcast dispatch of trips (TripsService), from booking to settlement, as steps over one trip.

 A trip is shown to the best few drivers with nobody on the row; the first accept claims it; a timer
 excludes everyone shown and searches again. Timers and match passes may run up to `lateness` after they
 are due; `Crash` loses everything that lived in the process. completeTrip is split at its awaits.
 */
module Trips {
  import opened Domain
  import opened Exclusion
  import opened Commission
  import opened Ranking
  import Ledger

  const DISPATCH_SHORTLIST: nat := 8
  const BROADCAST_TO: nat := 3
  const OPS_ALERT_MS: nat := 90_000
  const OPS_ESCALATE_MS: nat := 180_000

  datatype TripStatus = REQUESTED | MATCHING | MATCHED | IN_PROGRESS | COMPLETED | CANCELLED

  datatype Row = Row(
    status: TripStatus, driver: Option<Driver>, isTest: bool,
    fare: Option<Money>, quotedFare: Option<Money>, acceptedFare: Option<Money>, finalFare: Option<Money>,
    fareDrifted: bool, tipAmount: Option<Money>, offerCount: nat,
    requestedAt: Time, noDriverFoundAt: Option<Time>, opsAlertedAt: Option<Time>, opsEscalatedAt: Option<Time>)

  /** One broadcast: who was shown the trip, and when. */
  datatype Round = Round(shown: seq<Driver>, at: Time)

  /** A completeTrip call in flight, with what it read at its start. */
  datatype Call = Call(driver: Driver, fare: Option<Money>, acceptedFare: Option<Money>)

  datatype Trip = Trip(
    id: nat,
    lateness: nat,
    now: Time,
    crashed: bool,
    row: Row,
    excluded: ExclusionSet,
    // Work the process still has to do.
    passes: seq<Time>,         // match passes asked for and not yet run
    timers: map<nat, Round>,   // pending offer timers, by round number
    opsTimers: set<Time>,      // pending escalation timers, by due time
    clears: nat,               // accepts and cancels that have yet to clear the exclusion set
    checked: seq<Call>,        // completeTrip calls past their read, before their conditional update
    stamping: seq<Call>,       // past the update they won, before the final fare is stamped
    owing: seq<Call>,          // past the stamp, before the ledger write
    // What has happened.
    rounds: seq<Round>,
    claims: seq<Driver>,
    payouts: seq<Ledger.Posting>)

  function CreateTrip(id: nat, isTest: bool, fare: Money, tip: Option<Money>, now: Time, lateness: nat): (r: Trip) {
    Trip(
      id, lateness, now, false,
      Row(REQUESTED, None, isTest, Some(fare), Some(fare), Some(fare), None, false,
          if tip.Some? && tip.value > 0 then tip else None, 0, now, None, None, None),
      NO_EXCLUSIONS, [now], map[], {now + OPS_ALERT_MS, now + OPS_ESCALATE_MS}, 0, [], [], [], [], [], [])
  }

  datatype Event =
    | Tick(ms: nat)
    | MatchPass(nearby: seq<seq<Scored>>)
    | OfferTimeout(round: nat)
    | OpsTimer(due: Time)
    | Accept(driver: Driver)
    | ClearExclusions
    | Decline(driver: Driver)
    | ManualAssign(driver: Driver)
    | Start(driver: Driver)
    | Cancel
    | CompleteRead(driver: Driver)
    | CompleteClaim(call: nat)
    | CompleteStamp
    | CompletePay
    | Crash

  predicate Looking(st: TripStatus) {
    st.REQUESTED? || st.MATCHING?
  }

  predicate Taken(st: TripStatus) {
    st.MATCHED? || st.IN_PROGRESS? || st.COMPLETED?
  }

  // ---- The match pass ----

  /** `nearby.filter(d => !excluded.has(d))` */
  function Unexcluded(cs: seq<Scored>, excluded: set<Driver>): (r: seq<Scored>) {
    if cs == [] then []
    else if cs[0].driver in excluded then Unexcluded(cs[1..], excluded)
    else [cs[0]] + Unexcluded(cs[1..], excluded)
  }

  /** The eligible drivers of the first radius that has any. */
  function FirstEligible(nearby: seq<seq<Scored>>, excluded: set<Driver>): (r: seq<Scored>) {
    if nearby == [] then []
    else
      var eligible := Unexcluded(nearby[0], excluded);
      if eligible != [] then eligible else FirstEligible(nearby[1..], excluded)
  }

  /** Who is shown the trip: the best three by score of the eight nearest. */
  function ToShow(nearby: seq<seq<Scored>>, excluded: set<Driver>): (r: seq<Driver>) {
    AtMost(Ids(SortDesc(AtMost(FirstEligible(nearby, excluded), DISPATCH_SHORTLIST))), BROADCAST_TO)
  }

  function OfferToDrivers(t: Trip, shown: seq<Driver>): (r: Trip) {
    t.(row := t.row.(status := MATCHING, driver := None, offerCount := t.row.offerCount + 1),
       timers := t.timers[|t.rounds| := Round(shown, t.now)],
       rounds := t.rounds + [Round(shown, t.now)])
  }

  function OrElse(a: Option<Time>, b: Time): (r: Option<Time>) {
    if a.Some? then a else Some(b)
  }

  function EscalateIfStuck(row: Row, now: Time): (r: Row) {
    if !Looking(row.status) then row
    else
      var waiting := now - row.requestedAt;
      if waiting >= OPS_ESCALATE_MS && row.opsEscalatedAt.None? then
        row.(opsEscalatedAt := Some(now), opsAlertedAt := OrElse(row.opsAlertedAt, now))
      else if waiting >= OPS_ALERT_MS && row.opsAlertedAt.None? then
        row.(opsAlertedAt := Some(now))
      else row
  }

  function NobodyFound(row: Row, now: Time): (r: Row) {
    EscalateIfStuck(row.(noDriverFoundAt := OrElse(row.noDriverFoundAt, now)), now)
  }

  /** The end of a match pass that found `shown`. */
  function AfterSearch(t: Trip, shown: seq<Driver>): (r: Trip) {
    if shown != [] then OfferToDrivers(t, shown) else t.(row := NobodyFound(t.row, t.now))
  }

  function AfterMatchPass(t: Trip, nearby: seq<seq<Scored>>): (r: Trip) {
    if t.passes == [] then t
    else
      var u := t.(passes := t.passes[1..]);
      if Looking(t.row.status) then AfterSearch(u, ToShow(nearby, t.excluded.Live(t.now))) else u
  }

  // ---- The other handlers ----

  /** The body of an offer timer past its check: everyone shown is excluded and the search starts again. */
  function ExcludeAndRetry(t: Trip, shown: seq<Driver>): (r: Trip) {
    t.(excluded := t.excluded.AddAll(t.now, shown),
       row := EscalateIfStuck(t.row.(status := REQUESTED), t.now),
       passes := t.passes + [t.now])
  }

  function AfterOfferTimeout(t: Trip, n: nat): (r: Trip) {
    if n !in t.timers || t.now < t.timers[n].at + OFFER_TIMEOUT_MS then t
    else
      var u := t.(timers := t.timers - {n});
      if t.row.status == MATCHING && t.row.driver.None? then ExcludeAndRetry(u, t.timers[n].shown) else u
  }

  function AfterAccept(t: Trip, d: Driver): (r: Trip) {
    if t.row.status == MATCHING && t.row.driver.None?
    then t.(row := t.row.(status := MATCHED, driver := Some(d)), clears := t.clears + 1, claims := t.claims + [d])
    else t
  }

  function AfterManualAssign(t: Trip, d: Driver): (r: Trip) {
    if Looking(t.row.status)
    then t.(row := t.row.(status := MATCHED, driver := Some(d)), claims := t.claims + [d])
    else t
  }

  function AfterCancel(t: Trip): (r: Trip) {
    if Looking(t.row.status) || t.row.status == MATCHED
    then t.(row := t.row.(status := CANCELLED), clears := t.clears + 1)
    else t
  }

  function AfterCompleteClaim(t: Trip, i: nat): (r: Trip) {
    if i >= |t.checked| then t
    else
      var u := t.(checked := t.checked[..i] + t.checked[i + 1..]);
      if t.row.status == IN_PROGRESS
      then u.(row := t.row.(status := COMPLETED), stamping := t.stamping + [t.checked[i]])
      else u
  }

  function Apart(a: Money, b: Money): (r: Money) {
    if a < b then b - a else a - b
  }

  /** The promise is charged whenever there is one; a difference of a paisa or more is stamped as drift. */
  function AfterCompleteStamp(t: Trip): (r: Trip) {
    if t.stamping == [] then t
    else
      var call := t.stamping[0];
      var drifted := call.acceptedFare.Some? && call.fare.Some? && Apart(call.acceptedFare.value, call.fare.value) >= 1;
      t.(row := t.row.(finalFare := if call.acceptedFare.Some? then call.acceptedFare else call.fare,
                       fareDrifted := t.row.fareDrifted || drifted),
         stamping := t.stamping[1..],
         owing := t.owing + [call])
  }

  function AfterCompletePay(t: Trip): (r: Trip) {
    if t.owing == [] then t
    else
      var call := t.owing[0];
      t.(owing := t.owing[1..],
         payouts := if call.fare.Some? && !t.row.isTest
                    then t.payouts + [Ledger.TripPayout(call.driver, t.id, call.fare.value, t.row.tipAmount)]
                    else t.payouts)
  }

  /** The clock may not pass the latest moment at which something pending is sure to have run. */
  predicate MayTick(t: Trip, ms: nat) {
    && (forall n | n in t.timers :: t.now + ms <= t.timers[n].at + OFFER_TIMEOUT_MS + t.lateness)
    && (forall i | 0 <= i < |t.passes| :: t.now + ms <= t.passes[i] + t.lateness)
    && (forall due | due in t.opsTimers :: t.now + ms <= due + t.lateness)
  }

  function Step(t: Trip, e: Event): (r: Trip) {
    match e
    case Tick(ms) => if MayTick(t, ms) then t.(now := t.now + ms) else t
    case MatchPass(nearby) => AfterMatchPass(t, nearby)
    case OfferTimeout(n) => AfterOfferTimeout(t, n)
    case OpsTimer(due) =>
      if due in t.opsTimers && due <= t.now
      then t.(opsTimers := t.opsTimers - {due}, row := EscalateIfStuck(t.row, t.now)) else t
    case Accept(d) => AfterAccept(t, d)
    case ClearExclusions => if t.clears > 0 then t.(clears := t.clears - 1, excluded := NO_EXCLUSIONS) else t
    case Decline(d) => if t.row.status == MATCHING then t.(excluded := t.excluded.Add(t.now, d)) else t
    case ManualAssign(d) => AfterManualAssign(t, d)
    case Start(d) =>
      if t.row.driver == Some(d) && t.row.status == MATCHED then t.(row := t.row.(status := IN_PROGRESS)) else t
    case Cancel => AfterCancel(t)
    case CompleteRead(d) =>
      if t.row.driver == Some(d) && t.row.status == IN_PROGRESS
      then t.(checked := t.checked + [Call(d, t.row.fare, t.row.acceptedFare)]) else t
    case CompleteClaim(i) => AfterCompleteClaim(t, i)
    case CompleteStamp => AfterCompleteStamp(t)
    case CompletePay => AfterCompletePay(t)
    case Crash =>
      t.(passes := [], timers := map[], opsTimers := {}, clears := 0, checked := [], stamping := [], owing := [],
         crashed := true)
  }

  function Run(t: Trip, events: seq<Event>): (r: Trip)
    decreases |events|
  {
    if events == [] then t else Step(Run(t, events[..|events| - 1]), events[|events| - 1])
  }

  // ---- What a match pass shows ----

  lemma {:induction false} UnexcludedMembers(cs: seq<Scored>, excluded: set<Driver>)
    ensures forall c :: c in Unexcluded(cs, excluded) <==> c in cs && c.driver !in excluded
  {
    if cs != [] {
      UnexcludedMembers(cs[1..], excluded);
      assert forall c :: c in cs <==> c == cs[0] || c in cs[1..];
    }
  }

  lemma {:induction false} FirstEligibleMembers(nearby: seq<seq<Scored>>, excluded: set<Driver>)
    ensures forall c | c in FirstEligible(nearby, excluded) ::
              c.driver !in excluded && exists i | 0 <= i < |nearby| :: c in nearby[i]
  {
    if nearby != [] {
      UnexcludedMembers(nearby[0], excluded);
      if Unexcluded(nearby[0], excluded) == [] {
        FirstEligibleMembers(nearby[1..], excluded);
        forall c | c in FirstEligible(nearby, excluded) ensures exists i | 0 <= i < |nearby| :: c in nearby[i] {
          assert c in FirstEligible(nearby[1..], excluded);
          var i :| 0 <= i < |nearby[1..]| && c in nearby[1..][i];
          assert c in nearby[i + 1];
        }
      }
    }
  }

  /** Nobody who is excluded is shown the trip, and everyone shown was found near. */
  lemma {:induction false} ShownAreFree(nearby: seq<seq<Scored>>, excluded: set<Driver>)
    ensures |ToShow(nearby, excluded)| <= 3
    ensures forall d | d in ToShow(nearby, excluded) ::
              d !in excluded && exists i, c | 0 <= i < |nearby| && c in nearby[i] :: c.driver == d
  {
    var eligible := FirstEligible(nearby, excluded);
    var short := AtMost(eligible, DISPATCH_SHORTLIST);
    FirstEligibleMembers(nearby, excluded);
    SortRanks(short);
    RankingMembers(short, SortDesc(short));
    forall d | d in ToShow(nearby, excluded)
      ensures d !in excluded && exists i, c | 0 <= i < |nearby| && c in nearby[i] :: c.driver == d
    {
      assert d in Ids(SortDesc(short));
      var k :| 0 <= k < |SortDesc(short)| && SortDesc(short)[k].driver == d;
      var c := SortDesc(short)[k];
      assert c in short && c in eligible;
    }
  }
}
