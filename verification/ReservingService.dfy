/**
 The reserving services (DeliveryService, FoodOrdersService, ErrandsService) in the form the source has
 them: a row, its pending work, and handlers that update them statement by statement. Every handler is
 proved to take the step the protocol prescribes, so what is proved about runs holds of the handlers.
 */
module ReservingService {
  import opened Domain
  import opened Exclusion
  import opened Reserving
  import opened Ranking
  import opened Location
  import opened Search
  import opened SearchFeedsDispatch

  function ScopeOf(k: Kind): (r: Scope) {
    match k
    case Parcel => DeliveryScope
    case Food => FoodOrderScope
    case Errand => ErrandScope
  }

  /** No two services share a key, and none shares one with the trips. */
  lemma ScopesApart(k: Kind, other: Kind)
    ensures (ScopeOf(k) == ScopeOf(other) <==> k == other) && ScopeOf(k) != TripScope
  {
  }

  /** Nobody of `free` is nearer than `d`, who is one of them and within 8 km. */
  ghost predicate IsNearest(order: seq<Candidate>, free: set<Driver>, d: Driver) {
    exists c | c in order ::
      c.driver == d && c.driver in free && c.distanceKm <= 8.0
      && forall e | e in order && e.driver in free :: c.distanceKm <= e.distanceKm
  }

  /** Parcels go to anybody; food orders and errands to the drivers of one queue. */
  function QueueOf(k: Kind): (r: Option<Mode>) {
    if k.Parcel? then None else Some(FOOD_ERRAND)
  }

  class JobService {
    const kind: Kind
    const id: nat
    const lateness: nat
    const excludedDriversStore: ExcludedDriversStore

    // The row.
    var status: Status
    var driverId: Option<Driver>

    // The process.
    var now: Time
    var crashed: bool
    var passes: seq<Time>
    var timers: map<nat, Timer>
    var clears: nat
    var checked: multiset<Driver>
    var owing: seq<Driver>

    // What has happened.
    var offers: seq<Offer>
    var claims: seq<Driver>
    var payouts: seq<Driver>

    ghost predicate Valid()
      reads this, excludedDriversStore
    {
      excludedDriversStore.Valid()
    }

    function Snapshot(): (r: Job)
      reads this, excludedDriversStore
      requires Valid()
    {
      Job(kind, lateness, now, crashed, status, driverId, excludedDriversStore.Of(ScopeOf(kind), id),
          passes, timers, clears, checked, owing, offers, claims, payouts)
    }

    /** createDelivery, createErrand and createOrder: the first match pass follows at once, except for food. */
    constructor (kind: Kind, id: nat, store: ExcludedDriversStore, now: Time, lateness: nat)
      requires store.Valid() && store.Of(ScopeOf(kind), id) == NO_EXCLUSIONS
      ensures Valid() && Snapshot() == NewJob(kind, now, lateness)
      ensures excludedDriversStore == store
      ensures status == (if kind.Food? then PLACED else REQUESTED) && driverId.None?
    {
      this.kind, this.id, this.lateness, this.excludedDriversStore := kind, id, lateness, store;
      this.now, crashed := now, false;
      status := if kind.Food? then PLACED else REQUESTED;
      driverId := None;
      passes := if kind.Food? then [] else [now];
      timers, clears, checked, owing := map[], 0, multiset{}, [];
      offers, claims, payouts := [], [], [];
    }

    /** Whom this job can be offered to now: for food and errands, drivers of that queue only. */
    ghost function Free(location: LocationService, testFleet: bool): (r: set<Driver>)
      reads this, excludedDriversStore, location
      requires Valid()
    {
      set d | && d in location.Acceptable(now, testFleet)
              && d !in excludedDriversStore.Of(ScopeOf(kind), id).Live(now)
              && (kind.Parcel? || ModeIn(location.db.modes, d) == FOOD_ERRAND)
    }

    /**
     The pass: the widening search, over the live map, for the nearest acceptable driver who is not excluded.
     `order` lists every known position by its distance from the pickup.
     */
    method AttemptMatch(location: LocationService, order: seq<Candidate>, testFleet: bool)
      requires Valid() && passes != [] && location.Valid() && DistanceTable(order)
      modifies this, location`geo, location`lastSeen
      ensures Valid() && location.Valid()
      ensures var nearby := NearbyIds(order, old(Wanted(location, QueueOf(kind), now, testFleet)));
              Snapshot() == Step(old(Snapshot()), MatchPass(nearby))
      ensures var searching := old(status) == MATCHING || old(status) == (if kind.Food? then READY else REQUESTED);
              if searching && exists c | c in order && c.distanceKm <= 8.0 :: c.driver in old(Free(location, testFleet))
              then status == MATCHING && driverId.Some? && offers == old(offers) + [Offer(driverId.value, now)]
                   && IsNearest(order, old(Free(location, testFleet)), driverId.value)
              else status == old(status) && driverId == old(driverId) && offers == old(offers)
    {
      ghost var free := Free(location, testFleet);
      passes := passes[1..];
      if status != Idle(kind) && status != MATCHING { return; }
      var excluded := excludedDriversStore.GetAll(ScopeOf(kind), id, now);
      PassPicksNearest(order, Wanted(location, QueueOf(kind), now, testFleet), excluded);
      assert Wanted(location, QueueOf(kind), now, testFleet) - excluded == free;
      NearestMeans(order, free, 8.0);
      var candidate := FindDriver(location, order, QueueOf(kind), testFleet, excluded, now);
      if candidate.Some? { OfferToDriver(candidate.value); }
    }

    method OfferToDriver(driver: Driver)
      requires Valid()
      modifies this`status, this`driverId, this`timers, this`offers
      ensures Valid() && Snapshot() == OfferTo(old(Snapshot()), driver)
    {
      status, driverId := MATCHING, Some(driver);
      timers := timers[|offers| := Timer(driver, now + OFFER_TIMEOUT_MS)];
      offers := offers + [Offer(driver, now)];
    }

    method HandleDeclineOrTimeout(driver: Driver)
      requires Valid()
      modifies this, excludedDriversStore
      ensures Valid() && Snapshot() == DeclineOrTimeout(old(Snapshot()), driver)
      ensures OtherJobsUntouched()
      ensures status == (if kind.Food? then READY else REQUESTED) && driverId.None? && passes == old(passes) + [now]
      ensures excludedDriversStore.Of(ScopeOf(kind), id).Live(now)
           == old(excludedDriversStore.Of(ScopeOf(kind), id).Live(now)) + {driver}
    {
      excludedDriversStore.Add(ScopeOf(kind), id, driver, now);
      status, driverId := Idle(kind), None;
      passes := passes + [now];
    }

    /** The handlers of one job leave every other job's exclusion set as it was. */
    twostate predicate OtherJobsUntouched()
      reads this, excludedDriversStore
    {
      old(excludedDriversStore.Valid()) && excludedDriversStore.Valid() &&
      forall s: Scope, i: nat | (s, i) != (ScopeOf(kind), id) ::
        excludedDriversStore.Of(s, i) == old(excludedDriversStore.Of(s, i))
    }

    /** The setTimeout callback of offer `n`, at or after its due time. */
    method OnTimeout(n: nat)
      requires Valid() && n in timers && timers[n].due <= now
      modifies this, excludedDriversStore
      ensures Valid() && Snapshot() == Step(old(Snapshot()), Timeout(n))
      ensures OtherJobsUntouched()
      ensures timers == old(timers) - {n}
      ensures if old(status) == MATCHING && old(driverId) == Some(old(timers[n].driver))
              then && status == (if kind.Food? then READY else REQUESTED) && driverId.None?
                   && passes == old(passes) + [now]
              else status == old(status) && driverId == old(driverId) && passes == old(passes)
    {
      var driver := timers[n].driver;
      timers := timers - {n};
      if status == MATCHING && driverId == Some(driver) {
        HandleDeclineOrTimeout(driver);
      }
    }

    method AcceptOffer(driver: Driver) returns (claimed: bool)
      requires Valid()
      modifies this`status, this`clears, this`claims
      ensures Valid() && Snapshot() == Step(old(Snapshot()), Event.Accept(driver))
      ensures claimed <==> old(status) == MATCHING && old(driverId) == Some(driver)
      ensures claimed ==> status == (match kind case Parcel => MATCHED case Food => ASSIGNED case Errand => ACCEPTED)
      ensures !claimed ==> status == old(status)
      ensures clears == old(clears) + if claimed then 1 else 0
    {
      claimed := status == MATCHING && driverId == Some(driver);
      if claimed {
        status := Claimed(kind);
        clears := clears + 1;
        claims := claims + [driver];
      }
    }

    /** The await after an accept or a cancellation. */
    method ClearExcluded()
      requires Valid() && clears > 0
      modifies this, excludedDriversStore
      ensures Valid() && Snapshot() == Step(old(Snapshot()), ClearExclusions)
      ensures OtherJobsUntouched()
      ensures forall t: Time :: excludedDriversStore.Of(ScopeOf(kind), id).Live(t) == {}
    {
      excludedDriversStore.Clear(ScopeOf(kind), id);
      clears := clears - 1;
    }

    method DeclineOffer(driver: Driver) returns (ok: bool)
      requires Valid()
      modifies this, excludedDriversStore
      ensures Valid() && Snapshot() == Step(old(Snapshot()), Decline(driver))
      ensures ok <==> old(status) == MATCHING && old(driverId) == Some(driver)
      ensures OtherJobsUntouched()
      ensures if ok
              then && status == (if kind.Food? then READY else REQUESTED) && driverId.None?
                   && passes == old(passes) + [now]
              else status == old(status) && driverId == old(driverId) && passes == old(passes)
    {
      ok := status == MATCHING && driverId == Some(driver);
      if ok { HandleDeclineOrTimeout(driver); }
    }

    /** AdminService.manuallyAssign once the driver has passed its checks. */
    method ManuallyAssign(driver: Driver) returns (placed: bool)
      requires Valid()
      modifies this
      ensures Valid() && Snapshot() == Step(old(Snapshot()), Event.ManualAssign(driver))
      ensures placed <==> old(status) == MATCHING || old(status) == (if kind.Food? then READY else REQUESTED)
      ensures placed ==>
                && driverId == Some(driver)
                && status == (match kind case Parcel => MATCHED case Food => ASSIGNED case Errand => ACCEPTED)
      ensures !placed ==> driverId == old(driverId) && status == old(status)
      ensures clears == old(clears)
    {
      placed := status == Idle(kind) || status == MATCHING;
      if placed {
        driverId, status := Some(driver), Claimed(kind);
        claims := claims + [driver];
      }
    }

    method CancelJob() returns (ok: bool)
      requires Valid()
      modifies this
      ensures Valid() && Snapshot() == Step(old(Snapshot()), Event.Cancel)
      ensures ok <==>
                old(status) in (match kind
                                case Parcel => {REQUESTED, MATCHING, MATCHED}
                                case Food => {PLACED, ACCEPTED, READY, MATCHING}
                                case Errand => {REQUESTED, MATCHING, ACCEPTED})
      ensures status == (if ok then CANCELLED else old(status)) && driverId == old(driverId)
      ensures clears == old(clears) + if ok then 1 else 0
    {
      ok := CancellableFrom(kind, status);
      if ok {
        status := CANCELLED;
        clears := clears + 1;
      }
    }

    /** acceptOrder, by the restaurant. */
    method AcceptOrder() returns (ok: bool)
      requires Valid()
      modifies this`status
      ensures Valid() && Snapshot() == Step(old(Snapshot()), RestaurantAccept)
      ensures ok <==> kind.Food? && old(status) == PLACED
    {
      ok := kind.Food? && status == PLACED;
      if ok { status := ACCEPTED; }
    }

    /** markReady, which asks for the first match pass of a food order. */
    method MarkOrderReady() returns (ok: bool)
      requires Valid()
      modifies this`status, this`passes
      ensures Valid() && Snapshot() == Step(old(Snapshot()), MarkReady)
      ensures ok <==> kind.Food? && old(status) == ACCEPTED
    {
      ok := kind.Food? && status == ACCEPTED;
      if ok {
        status := READY;
        passes := passes + [now];
      }
    }

    /** markPickedUp, markInTransit, startShopping and markOnTheWay. */
    method MarkAdvanced(driver: Driver) returns (ok: bool)
      requires Valid()
      modifies this`status
      ensures Valid() && Snapshot() == Step(old(Snapshot()), Advance(driver))
      ensures ok <==>
                && driverId == Some(driver)
                && old(status) in (match kind
                                   case Parcel => {MATCHED, PICKED_UP}
                                   case Food => {ASSIGNED}
                                   case Errand => {ACCEPTED, SHOPPING})
      ensures status ==
                if !ok then old(status)
                else match old(status)
                     case PICKED_UP => IN_TRANSIT
                     case ACCEPTED => SHOPPING
                     case SHOPPING => ON_THE_WAY
                     case _ => PICKED_UP
    {
      ok := driverId == Some(driver) && Advanced(kind, status).Some?;
      if ok { status := Advanced(kind, status).value; }
    }

    // markDelivered, split at its awaits: the read, the conditional update, the ledger write.

    method DeliverBegin(driver: Driver) returns (ok: bool)
      requires Valid()
      modifies this`checked
      ensures Valid() && Snapshot() == Step(old(Snapshot()), DeliverRead(driver))
      ensures ok <==>
                && driverId == Some(driver)
                && status in (match kind
                              case Parcel => {PICKED_UP, IN_TRANSIT}
                              case Food => {PICKED_UP}
                              case Errand => {ON_THE_WAY})
    {
      ok := driverId == Some(driver) && DeliverableFrom(kind, status);
      if ok { checked := checked + multiset{driver}; }
    }

    method DeliverUpdate(driver: Driver) returns (claimed: bool)
      requires Valid() && driver in checked
      modifies this`checked, this`status, this`owing
      ensures Valid() && Snapshot() == AfterDeliverClaim(old(Snapshot()), driver)
      ensures claimed <==>
                old(status) in (match kind
                                case Parcel => {PICKED_UP, IN_TRANSIT}
                                case Food => {PICKED_UP}
                                case Errand => {ON_THE_WAY})
      ensures status == (if claimed then DELIVERED else old(status))
      ensures owing == if claimed then old(owing) + [driver] else old(owing)
    {
      ghost var before := Snapshot();
      var rest := checked - multiset{driver};
      checked := rest;
      claimed := DeliverableFrom(kind, status);
      if claimed {
        status := DELIVERED;
        owing := owing + [driver];
      }
      assert Snapshot() == AfterDeliverClaim(before, driver);
    }

    method DeliverSettle()
      requires Valid() && owing != []
      modifies this`owing, this`payouts
      ensures Valid() && Snapshot() == Step(old(Snapshot()), DeliverPay)
      ensures payouts == old(payouts) + [old(owing)[0]]
    {
      payouts := payouts + [owing[0]];
      owing := owing[1..];
    }
  }
}
