/**
 TripsService in the form the source has it: a row updated in place, timers, and an exclusion set shared
 with the other services. Every handler is proved to take the step the trip protocol prescribes.
 */
module TripsService {
  import opened Domain
  import opened Exclusion
  import opened Commission
  import opened Ranking
  import opened Location
  import opened Search
  import opened SearchFeedsDispatch
  import opened Trips
  import Ledger

  class TripService {
    const id: nat
    const lateness: nat
    const excludedDriversStore: ExcludedDriversStore

    var row: Row

    // The process.
    var now: Time
    var crashed: bool
    var passes: seq<Time>
    var timers: map<nat, Round>
    var opsTimers: set<Time>
    var clears: nat
    var checked: seq<Call>
    var stamping: seq<Call>
    var owing: seq<Call>

    // What has happened.
    var rounds: seq<Round>
    var claims: seq<Driver>
    var payouts: seq<Ledger.Posting>

    ghost predicate Valid()
      reads this, excludedDriversStore
    {
      excludedDriversStore.Valid()
    }

    function Snapshot(): (r: Trip)
      reads this, excludedDriversStore
      requires Valid()
    {
      Trip(id, lateness, now, crashed, row, excludedDriversStore.Of(TripScope, id),
           passes, timers, opsTimers, clears, checked, stamping, owing, rounds, claims, payouts)
    }

    /** The handlers of one trip leave every other job's exclusion set as it was. */
    twostate predicate OtherJobsUntouched()
      reads this, excludedDriversStore
    {
      old(excludedDriversStore.Valid()) && excludedDriversStore.Valid() &&
      forall s: Scope, i: nat | (s, i) != (TripScope, id) ::
        excludedDriversStore.Of(s, i) == old(excludedDriversStore.Of(s, i))
    }

    /** createTrip, once the fare is known and the rider's fleet has been read. */
    constructor (
      id: nat, store: ExcludedDriversStore, isTest: bool, fare: Money, tip: Option<Money>, now: Time, lateness: nat)
      requires store.Valid() && store.Of(TripScope, id) == NO_EXCLUSIONS
      ensures Valid() && Snapshot() == CreateTrip(id, isTest, fare, tip, now, lateness)
      ensures excludedDriversStore == store
      ensures row.status == REQUESTED && row.driver.None? && row.requestedAt == now
      ensures row.fare == row.quotedFare == row.acceptedFare == Some(fare)
      ensures row.tipAmount == if tip.Some? && tip.value > 0 then tip else None
      ensures passes == [now] && opsTimers == {now + 90_000, now + 180_000}
    {
      this.id, this.lateness, this.excludedDriversStore := id, lateness, store;
      var tipAmount := if tip.Some? && tip.value > 0 then tip else None;
      row := Row(REQUESTED, None, isTest, Some(fare), Some(fare), Some(fare), None, false, tipAmount, 0, now,
                 None, None, None);
      this.now, crashed := now, false;
      passes, timers := [now], map[];
      opsTimers := {now + OPS_ALERT_MS, now + OPS_ESCALATE_MS};
      clears, checked, stamping, owing := 0, [], [], [];
      rounds, claims, payouts := [], [], [];
    }

    /**
     The pass: the widening search, over the live map, for whom to show the trip. `order` lists every known
     position by its distance from the pickup; the profiles and ratings are what the ranking reads.
     */
    method AttemptMatch(
      location: LocationService, order: seq<Candidate>, profiles: Profiles, ratings: Ratings)
      requires Valid() && passes != [] && location.Valid() && DistanceTable(order)
      modifies this`passes, this`row, this`timers, this`rounds, location`geo, location`lastSeen
      ensures Valid() && location.Valid()
      ensures var nearby := NearbyScored(order, old(location.Acceptable(now, row.isTest)), profiles, ratings, now);
              Snapshot() == AfterMatchPass(old(Snapshot()), nearby)
      ensures var free := old(location.Acceptable(now, row.isTest) - excludedDriversStore.Of(TripScope, id).Live(now));
              var ring := SmallestRing(order, free, 0);
              if old(row).status in {REQUESTED, MATCHING} && ring != []
              then && row.status == MATCHING && row.driver.None? && |rounds| == |old(rounds)| + 1
                   && TopThreeOfEight(ring, profiles, ratings, now, rounds[|old(rounds)|].shown)
              else && rounds == old(rounds) && row.status == old(row).status
                   && (row.status in {REQUESTED, MATCHING} ==> row.noDriverFoundAt.Some?)
    {
      passes := passes[1..];
      if row.status != REQUESTED && row.status != MATCHING { return; }
      var shown := WhomToShow(location, order, profiles, ratings);
      ShowOrMark(shown);
    }

    /** The search, with this trip's exclusions and in its fleet. */
    method WhomToShow(location: LocationService, order: seq<Candidate>, profiles: Profiles, ratings: Ratings)
      returns (shown: seq<Driver>)
      requires Valid() && location.Valid() && DistanceTable(order)
      modifies location`geo, location`lastSeen
      ensures location.Valid()
      ensures var excluded := excludedDriversStore.Of(TripScope, id).Live(now);
              var ok := old(location.Acceptable(now, row.isTest));
              && shown == ToShow(NearbyScored(order, ok, profiles, ratings, now), excluded)
              && TopThreeOfEight(SmallestRing(order, ok - excluded, 0), profiles, ratings, now, shown)
              && (shown == [] <==> SmallestRing(order, ok - excluded, 0) == [])
    {
      var excluded := excludedDriversStore.GetAll(TripScope, id, now);
      ghost var ok := location.Acceptable(now, row.isTest);
      shown := FindBroadcast(location, order, row.isTest, excluded, profiles, ratings, now);
      PassShowsExactly(order, ok, excluded, profiles, ratings, now, shown);
    }

    /** The end of the pass: a broadcast, or the mark that nobody was found. */
    method ShowOrMark(shown: seq<Driver>)
      requires Valid()
      modifies this`row, this`timers, this`rounds
      ensures Valid() && Snapshot() == AfterSearch(old(Snapshot()), shown)
      ensures if shown != []
              then row.status == MATCHING && row.driver.None? && rounds == old(rounds) + [Round(shown, now)]
              else && rounds == old(rounds) && row.status == old(row).status && row.noDriverFoundAt.Some?
                   && EscalatedByNow()
    {
      if |shown| > 0 {
        BroadcastTo(shown);
        return;
      }
      row := row.(noDriverFoundAt := if row.noDriverFoundAt.Some? then row.noDriverFoundAt else Some(now));
      Escalate();
    }

    method BroadcastTo(shown: seq<Driver>)
      requires Valid()
      modifies this`row, this`timers, this`rounds
      ensures Valid() && Snapshot() == OfferToDrivers(old(Snapshot()), shown)
      ensures row == old(row).(status := MATCHING, driver := None, offerCount := old(row.offerCount) + 1)
    {
      row := row.(status := MATCHING, driver := None, offerCount := row.offerCount + 1);
      timers := timers[|rounds| := Round(shown, now)];
      rounds := rounds + [Round(shown, now)];
    }

    /** A trip still looking has the stamps that are due by now. */
    predicate EscalatedByNow()
      reads this
    {
      row.status == REQUESTED || row.status == MATCHING ==>
        && (now - row.requestedAt >= 90_000 ==> row.opsAlertedAt.Some?)
        && (now - row.requestedAt >= 180_000 ==> row.opsEscalatedAt.Some?)
    }

    method Escalate()
      modifies this`row
      ensures row == EscalateIfStuck(old(row), now)
      ensures row == old(row).(opsAlertedAt := row.opsAlertedAt, opsEscalatedAt := row.opsEscalatedAt)
      ensures EscalatedByNow()
    {
      if row.status != REQUESTED && row.status != MATCHING { return; }
      var waitingMs := now - row.requestedAt;
      if waitingMs >= OPS_ESCALATE_MS && row.opsEscalatedAt.None? {
        row := row.(opsEscalatedAt := Some(now),
                    opsAlertedAt := if row.opsAlertedAt.Some? then row.opsAlertedAt else Some(now));
        return;
      }
      if waitingMs >= OPS_ALERT_MS && row.opsAlertedAt.None? {
        row := row.(opsAlertedAt := Some(now));
      }
    }

    method ExcludeAll(shown: seq<Driver>)
      requires Valid()
      modifies excludedDriversStore
      ensures Valid() && OtherJobsUntouched()
      ensures excludedDriversStore.Of(TripScope, id) == old(excludedDriversStore.Of(TripScope, id)).AddAll(now, shown)
    {
      for i := 0 to |shown|
        invariant Valid() && OtherJobsUntouched()
        invariant excludedDriversStore.Of(TripScope, id)
               == old(excludedDriversStore.Of(TripScope, id)).AddAll(now, shown[..i])
      {
        assert shown[..i + 1][..i] == shown[..i];
        excludedDriversStore.Add(TripScope, id, shown[i], now);
      }
      assert shown[..|shown|] == shown;
    }

    /** The setTimeout callback of round `n`, at or after its due time. */
    method OnOfferTimeout(n: nat)
      requires Valid() && n in timers && timers[n].at + OFFER_TIMEOUT_MS <= now
      modifies this`timers, this`row, this`passes, excludedDriversStore
      ensures Valid() && Snapshot() == AfterOfferTimeout(old(Snapshot()), n)
      ensures OtherJobsUntouched()
      ensures timers == old(timers) - {n}
      ensures if old(row).status == MATCHING && old(row).driver.None?
              then row.status == REQUESTED && row.driver.None? && EscalatedByNow() && passes == old(passes) + [now]
              else row == old(row) && passes == old(passes)
    {
      var shown := timers[n].shown;
      timers := timers - {n};
      if row.status == MATCHING && row.driver.None? {
        ExcludeAll(shown);
        row := row.(status := REQUESTED);
        Escalate();
        passes := passes + [now];
      }
    }

    method OnOpsTimer(due: Time)
      requires Valid() && due in opsTimers && due <= now
      modifies this`opsTimers, this`row
      ensures Valid() && Snapshot() == Step(old(Snapshot()), OpsTimer(due))
      ensures EscalatedByNow()
    {
      opsTimers := opsTimers - {due};
      Escalate();
    }

    /** The one statement that decides the winner; false is the ConflictException. */
    method ClaimTrip(driver: Driver) returns (claimed: bool)
      requires Valid()
      modifies this`row, this`clears, this`claims
      ensures Valid() && Snapshot() == AfterAccept(old(Snapshot()), driver)
      ensures claimed <==> old(row).status == MATCHING && old(row).driver.None?
      ensures row == if claimed then old(row).(status := MATCHED, driver := Some(driver)) else old(row)
      ensures clears == old(clears) + if claimed then 1 else 0
    {
      claimed := row.status == MATCHING && row.driver.None?;
      if claimed {
        row := row.(status := MATCHED, driver := Some(driver));
        clears := clears + 1;
        claims := claims + [driver];
      }
    }

    method ClearExcluded()
      requires Valid() && clears > 0
      modifies this`clears, excludedDriversStore
      ensures Valid() && Snapshot() == Step(old(Snapshot()), ClearExclusions)
      ensures OtherJobsUntouched()
      ensures forall t: Time :: excludedDriversStore.Of(TripScope, id).Live(t) == {}
    {
      excludedDriversStore.Clear(TripScope, id);
      clears := clears - 1;
    }

    /** "Not me": only this driver is excluded, and the others keep the offer. */
    method DeclineTrip(driver: Driver) returns (ok: bool)
      requires Valid()
      modifies excludedDriversStore
      ensures Valid() && Snapshot() == Step(old(Snapshot()), Event.Decline(driver))
      ensures ok <==> row.status == MATCHING
      ensures OtherJobsUntouched()
      ensures excludedDriversStore.Of(TripScope, id).Live(now)
           == old(excludedDriversStore.Of(TripScope, id).Live(now)) + if ok then {driver} else {}
    {
      ok := row.status == MATCHING;
      if ok { excludedDriversStore.Add(TripScope, id, driver, now); }
    }

    /** AdminService.manuallyAssign once the driver has passed its checks. */
    method ManuallyAssign(driver: Driver) returns (placed: bool)
      requires Valid()
      modifies this`row, this`claims
      ensures Valid() && Snapshot() == AfterManualAssign(old(Snapshot()), driver)
      ensures placed <==> old(row).status == REQUESTED || old(row).status == MATCHING
      ensures row == if placed then old(row).(status := MATCHED, driver := Some(driver)) else old(row)
    {
      placed := row.status == REQUESTED || row.status == MATCHING;
      if placed {
        row := row.(driver := Some(driver), status := MATCHED);
        claims := claims + [driver];
      }
    }

    method StartTrip(driver: Driver) returns (ok: bool)
      requires Valid()
      modifies this`row
      ensures Valid() && Snapshot() == Step(old(Snapshot()), Event.Start(driver))
      ensures ok <==> old(row).driver == Some(driver) && old(row).status == MATCHED
      ensures row == if ok then old(row).(status := IN_PROGRESS) else old(row)
    {
      ok := row.driver == Some(driver) && row.status == MATCHED;
      if ok { row := row.(status := IN_PROGRESS); }
    }

    method CancelTrip() returns (ok: bool)
      requires Valid()
      modifies this`row, this`clears
      ensures Valid() && Snapshot() == AfterCancel(old(Snapshot()))
      ensures ok <==> old(row).status in {REQUESTED, MATCHING, MATCHED}
      ensures row == if ok then old(row).(status := CANCELLED) else old(row)
      ensures clears == old(clears) + if ok then 1 else 0
    {
      ok := row.status == REQUESTED || row.status == MATCHING || row.status == MATCHED;
      if ok {
        row := row.(status := CANCELLED);
        clears := clears + 1;
      }
    }

    // completeTrip, split at its awaits: the read, the conditional update, the stamp, the ledger write.

    method CompleteBegin(driver: Driver) returns (ok: bool)
      requires Valid()
      modifies this`checked
      ensures Valid() && Snapshot() == Step(old(Snapshot()), CompleteRead(driver))
      ensures ok <==> row.driver == Some(driver) && row.status == IN_PROGRESS
    {
      ok := row.driver == Some(driver) && row.status == IN_PROGRESS;
      if ok { checked := checked + [Call(driver, row.fare, row.acceptedFare)]; }
    }

    method CompleteUpdate(i: nat) returns (claimed: bool)
      requires Valid() && i < |checked|
      modifies this`checked, this`row, this`stamping
      ensures Valid() && Snapshot() == AfterCompleteClaim(old(Snapshot()), i)
      ensures claimed <==> old(row).status == IN_PROGRESS
      ensures row == if claimed then old(row).(status := COMPLETED) else old(row)
      ensures stamping == if claimed then old(stamping) + [old(checked)[i]] else old(stamping)
    {
      var call := checked[i];
      checked := checked[..i] + checked[i + 1..];
      claimed := row.status == IN_PROGRESS;
      if claimed {
        row := row.(status := COMPLETED);
        stamping := stamping + [call];
      }
    }

    method CompleteStampFare()
      requires Valid() && stamping != []
      modifies this`row, this`stamping, this`owing
      ensures Valid() && Snapshot() == AfterCompleteStamp(old(Snapshot()))
      ensures var call := old(stamping)[0];
              && row.finalFare == (if call.acceptedFare.Some? then call.acceptedFare else call.fare)
              && (row.fareDrifted <==> old(row).fareDrifted
                                       || (call.acceptedFare.Some? && call.fare.Some?
                                           && call.acceptedFare != call.fare))
    {
      var call := stamping[0];
      var promised, charged := call.acceptedFare, call.fare;
      var drifted := promised.Some? && charged.Some? && Apart(promised.value, charged.value) >= 1;
      row := row.(finalFare := if promised.Some? then promised else charged);
      if drifted { row := row.(fareDrifted := true); }
      stamping := stamping[1..];
      owing := owing + [call];
    }

    method CompleteSettle()
      requires Valid() && owing != []
      modifies this`owing, this`payouts
      ensures Valid() && Snapshot() == AfterCompletePay(old(Snapshot()))
      ensures var call := old(owing)[0];
              payouts == old(payouts) + if call.fare.None? || row.isTest then []
                                        else [Ledger.TripPayout(call.driver, id, call.fare.value, row.tipAmount)]
    {
      var call := owing[0];
      owing := owing[1..];
      if call.fare.Some? {
        if !row.isTest {
          payouts := payouts + [Ledger.TripPayout(call.driver, id, call.fare.value, row.tipAmount)];
        }
      }
    }
  }
}
