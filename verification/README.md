# Dispatch and settlement, verified

This project models the part of the ride, parcel, food and errand backend that decides who gets a job and who gets
paid for it, and proves what that part keeps over every run. It is written in Dafny; `dafny verify dfyconfig.toml`
checks all of it.

The program runs two dispatch protocols side by side.

* **Trips are broadcast.** A trip is shown to up to three drivers while nobody is on the row. The first accept claims
  it; a fifteen-second timer excludes everyone who was shown it and searches again. `Trips` is the step function of one
  trip, `TripsSafety` and `TripsLiveness` hold what every run keeps, `TripsService` is the class that updates the row in
  place and refines the steps.
* **Parcels, food orders and errands reserve.** One driver is written on the row for the length of an offer. A decline
  starts the next search at once, while the timer of the declined offer is still pending, and the timer's guard only
  compares the driver: an ABA problem which nothing but the exclusion set solves. `Reserving`, `ReservingSafety`,
  `ReservingLiveness` and `ReservingService` do the same for this protocol, once, with the statuses of the three kinds
  as parameters. `Fleet` puts all jobs of all kinds beside each other; `TripFleet` is about the fleet of a trip's driver.

Both feed on the eligibility search (`Eligibility`, `Location`, `Search`, `SearchFeedsDispatch`) and the ranking
(`Scoring`, `Ranking`), and both end in the ledger (`Commission`, `Ledger`, `Wallet`, `LedgerService`, `Earnings`,
`Settlement`).

## How the program is modelled

* **Steps.** A run is any sequence of events. In `Reserving` and `Trips` each handler is one step, except where its
  guard is built for interleaving: an accept and its clearing of the exclusion set, the call that asks for a match pass
  and the pass, and `completeTrip` and the three `markDelivered`, which are split at each await. The match pass, the
  timeout, decline, cancel, start, progress and restaurant handlers read, await and then write without a condition. In
  these two modules they are atomic; `ReservingRaces` and `TripsRaces` drop that for the decisions of one job: there the write of
  such a handler may land at any later moment, and the condition on the row under which nothing decided is undone is
  proved exactly, for one write and for whole runs.
* **Many jobs.** In `Fleet` a match pass is a search and a later, unconditional offer, and switching queues is a count
  and a later write; a cancellation, a progress call and a reset may each come as a check and a later write too, and a
  search or a count may have its queries spread over time. What keeps a driver on one job and in one queue is an exact
  condition on the moment of the write. `FleetOverlap` gives a condition on the reads that is enough, and the inputs
  where it is not met.
* **Clock and timers.** Time is a natural number of milliseconds. Pending timers and match passes carry a due time and
  may run up to `lateness` after it, a parameter of every run. Results that depend on it say so, and say exactly how.
  `Crash` loses everything that lived in the process. A trip's and a job's `now` is the one clock of all its handlers.
* **Search.** The geo index is a set of ids, the distances from the pickup an ascending table of reals; one search
  happens at one instant. Inside a protocol step a search is an arbitrary answer; `SearchFeedsDispatch` closes the gap
  by proving what the steps do with the answer the real search gives.
* **Money** is integer paisa, rates are fractions with round-half-up, scores are exact reals.
* **Random choices** of the world (which drivers are near, what the counters say, when a call arrives) are parameters.

## Results about the code that its comments do not say

* Two searches that overlap can put one driver on two jobs (`BothJobsOneDriver`): the busy check guards the read, not
  the write. So can a progress call that a cancellation and a new offer overtake (`PickUpAfterCancel`). `OneJobExactly`
  says which writes do it. A switch of queues can overlap an offer, or slip in before an overtaken progress call
  (`ErrandFromTheRideQueue`, `ShoppingAfterCancel`, `QueueKeptExactly`).
* A search still under way when a job is cancelled or assigned by hand undoes that (`LateOfferReopens`,
  `LateOfferUnseats`). The reset of an offer timer that lands after an accept does too (`LateFreeLetsTwoWin`).
  `RacesExactly` says which late writes undo a decision: those that a condition on the status would have stopped.
* A progress call, or a second start of a trip, that lands after the end lets the driver be paid twice
  (`LateProgressPaysTwice`, `LateStartPaysTwice`); `SettlementExactly` says which late writes leave settlement single.
* A decline and the timer of the same offer, both past their checks, end the next driver's offer at once, however
  prompt the timers are (`DeclineAndTimerCutShort`).
* `src/delivery/delivery.service.ts:137` and its two siblings need timers less than an hour minus fifteen seconds late;
  that bound is exact (`StaleTimersExactly`, `WindowsKeptExactly`). For never offering a job to the same driver twice
  the bound is half that (`NoRepeatExactly`, and `DeclineIsForGoodExactly` for declines of trips).
* A search that finds nobody is never repeated: the job waits for the ops desk or a cancellation, whoever comes online
  (`LastPassFoundNobody`, `UnmatchedStaysUnmatched`).
* Accepting a trip asks neither who was shown it nor whose fleet they are of (`TripFleetExactly`,
  `ReviewerTakesRealTrip`).
* `src/trips/dispatch.util.ts:24-25` says that no reputation is worth two kilometres of pickup. The weights give 15/7 km
  (`DistanceDominates`, `TwoKilometresCanBeBought`).
* Taking one more job can lower a driver's score, at the eighth only: with eight offers or more exactly unless
  `cancelled <= 4` or `sent * (cancelled - 4) < 12` (`EighthAcceptance`; `AcceptingHelpsExactly` for any number of jobs
  and offers, more jobs than offers included).
* `src/location/location.service.ts:126-128` says a driver is never told they are fine while the matcher skips them. It
  holds for every condition but a job in hand (`StatusAgreesWithMatcher`).
* Eviction does not spare the other fleet (`OtherFleetIsEvicted`), and manual assignment does not look at the job in hand
  (`ManualAssignExactly`).
* Two withdrawals that race can overdraw a wallet, exactly when it does not cover both (`RacingWithdrawals`).

## Model

| member | source | states |
|---|---|---|
| `Exclusion.AddAllMembers` | src/trips/trips.service.ts:482 | excluding everyone shown, one call at a time, leaves the live members plus all of them, with the time to live renewed |
| `Exclusion.ExcludedDriversStore.Add` | src/location/excluded-drivers.store.ts:23-30 | adds one driver to one job's set, dropping it first if expired, renews its expiry, and touches no other job's set |
| `Exclusion.ExcludedDriversStore.GetAll` | src/location/excluded-drivers.store.ts:32-35 | the members of a set that has not expired, and nobody once it has |
| `Exclusion.ExcludedDriversStore.Clear` | src/location/excluded-drivers.store.ts:37-39 | empties one job's set and no other |
| `Reserving.FirstFreeIsFree` | src/delivery/delivery.service.ts:90 | the candidate is the first of the list who is not excluded; there is none exactly when all are excluded |
| `Reserving.CandidateIsFree` | src/delivery/delivery.service.ts:80-96 | whoever the radius loop picks is not excluded and was returned by one of the searches |
| `ReservingSafety.RowStep` | src/delivery/delivery.service.ts:107-251 | every handler keeps the row invariant of all three machines and never unwrites a claim |
| `ReservingSafety.OneWinnerForEver` | src/delivery/delivery.service.ts:150-164 | in every run of atomic handlers at most one accept or assignment succeeds, the winner stays on the row for ever, and an unclaimed row outside an offer carries nobody |
| `ReservingSafety.PaidExactlyOnce` | src/delivery/delivery.service.ts:200-220 | with markDelivered split at its awaits, payouts plus calls that still owe one never exceed one, are none before delivery, equal one afterwards unless the process crashed, and pay the claimant |
| `ReservingSafety.NoStaleTimer` | src/delivery/delivery.service.ts:137-148 | in every run, a timer whose guard passes belongs to the offer now in force |
| `ReservingSafety.StaleTimersExactly` | src/delivery/delivery.service.ts:137-148 | that holds of all runs if and only if a timer's window plus its delay is shorter than the life of the exclusion set |
| `ReservingSafety.OfferKeepsItsWindow` | src/food-orders/food-orders.service.ts:167-172 | with atomic handlers, no timer takes an offer away before its own fifteen seconds have passed |
| `ReservingSafety.WindowsKeptExactly` | src/food-orders/food-orders.service.ts:167-172 | that holds of all runs of atomic handlers if and only if a timer's window plus its delay is shorter than the life of the exclusion set |
| `ReservingSafety.LateScheduleIsStale` | src/location/excluded-drivers.store.ts:11 | the interleaving that breaks the guard, and ends a fresh offer, when timers may be an hour late |
| `ReservingSafety.JourneyPays` | src/errands/errands.service.ts:135-172 | from any claimed job the driver's own calls lead to a delivery that pays that driver once |
| `ReservingSafety.FinishedForEver` | src/errands/errands.service.ts:96-101 | with atomic handlers a delivered or cancelled job stays so, driver included, whatever timers and match passes have yet to begin |
| `ReservingRaces.LateWriteExactly` | src/delivery/delivery.service.ts:107-195 | a late unconditional write keeps the winner, the end of the job and the count of winners if and only if the row is still undecided when an offer, a reset or a step of the restaurant lands, not delivered when a cancellation does, and under way when a progress call does |
| `ReservingRaces.RacesExactly` | src/delivery/delivery.service.ts:107-251 | over whole runs with late writes anywhere among the handlers, no decision is ever undone if and only if every late write finds such a row |
| `ReservingRaces.OneWinnerDespiteRaces` | src/delivery/delivery.service.ts:150-164 | with such late writes, one winner at most, on the row for ever, and a finished job stays finished |
| `ReservingRaces.LateOfferReopens` | src/delivery/delivery.service.ts:107-111 | a search still under way at a cancellation puts the job back on offer, and a driver can win it |
| `ReservingRaces.LateReadyReopens` | src/food-orders/food-orders.service.ts:120-130 | a markReady checked before a cancellation and written after it puts the order back up for matching |
| `ReservingRaces.LateOfferUnseats` | src/admin/admin.service.ts:621-628 | one still under way at a manual assignment takes the winner off the row, and a second driver can win |
| `ReservingRaces.LateFreeLetsTwoWin` | src/delivery/delivery.service.ts:144-148 | a timeout or decline whose write lands after a claim lets a second driver win |
| `ReservingRaces.LateSettlementExactly` | src/delivery/delivery.service.ts:200-220 | a late write leaves at most one payout, one exactly once delivered, and only the winner's, if and only if it is timely or lands on a cancelled row whose having been won fits it, or on a delivered row whose payout a crash lost |
| `ReservingRaces.SettlementExactly` | src/delivery/delivery.service.ts:200-220 | over whole runs with late writes, settlement is always single if and only if every late write is of that sort |
| `ReservingRaces.PaidOnceDespiteRaces` | src/errands/errands.service.ts:154-172 | with timely late writes, payouts plus calls that owe one are one for a delivered job and none for any other, and the winner's |
| `ReservingRaces.LateProgressPaysTwice` | src/delivery/delivery.service.ts:186-195 | an input outside that condition: a markInTransit whose write lands after the delivery lets the driver be paid twice |
| `ReservingRaces.LateFreeCutsExactly` | src/food-orders/food-orders.service.ts:167-179 | a late reset cuts another driver's offer short if and only if it finds the row on offer to somebody else whose time is not up |
| `ReservingRaces.DeclineAndTimerCutShort` | src/food-orders/food-orders.service.ts:167-206 | the input, with timers that are never late: a decline and the timer of the same offer |
| `ReservingLiveness.NoLostWakeUp` | src/errands/errands.service.ts:92-108 | an uncrashed job in MATCHING always has the pending timer of its latest offer, naming the driver on the row and due at that offer's end |
| `ReservingLiveness.RoundIsNew` | src/delivery/delivery.service.ts:74-99 | the set of known drivers not yet offered the job strictly shrinks with each offer |
| `ReservingLiveness.CascadeEnds` | src/food-orders/food-orders.service.ts:132-179 | no driver is offered the same job twice, so there are no more offers than drivers |
| `ReservingLiveness.NoRepeatExactly` | src/location/excluded-drivers.store.ts:11-30 | no run repeats a driver if and only if the window plus twice the delay is shorter than the life of the exclusion set |
| `ReservingLiveness.LastPassFoundNobody` | src/delivery/delivery.service.ts:74-99 | an uncrashed idle job with no pass under way is one whose last pass found nobody, and which has waited since |
| `ReservingLiveness.UnmatchedStaysUnmatched` | src/delivery/delivery.service.ts:98 | nothing but the ops desk or a cancellation ever moves such a job again |
| `ReservingService.JobService.constructor` | src/delivery/delivery.service.ts:47-68 | a new row is the initial state of the protocol, PLACED for food and REQUESTED otherwise, with a match pass asked for unless it is a food order |
| `ReservingService.ScopesApart` | src/location/excluded-drivers.store.ts:19-21 | no two services share an exclusion set, and none shares one with the trips |
| `ReservingService.JobService.AttemptMatch` | src/errands/errands.service.ts:60-84 | run on the location service, the pass is the match-pass step, evictions included; it offers the job to the nearest acceptable, unexcluded driver within 8 km, for food and errands of the FOOD_ERRAND queue, and leaves the row alone if there is none |
| `ReservingService.JobService.HandleDeclineOrTimeout` | src/food-orders/food-orders.service.ts:175-179 | excludes, frees the row and asks for the next match pass, and touches no other job's exclusions |
| `ReservingService.JobService.OnTimeout` | src/errands/errands.service.ts:96-101 | the timer body is the timeout step: it acts only if the row is still in MATCHING with the same driver |
| `ReservingService.JobService.AcceptOffer` | src/food-orders/food-orders.service.ts:183-191 | claims exactly if the row is in MATCHING with this driver |
| `ReservingService.JobService.ClearExcluded` | src/food-orders/food-orders.service.ts:194 | the deferred clearing empties this job's set only |
| `ReservingService.JobService.DeclineOffer` | src/errands/errands.service.ts:126-133 | refused unless the offer is this driver's; otherwise the decline step |
| `ReservingService.JobService.ManuallyAssign` | src/admin/admin.service.ts:621-644 | places the driver exactly if the job is idle or on offer, whoever it was on offer to |
| `ReservingService.JobService.CancelJob` | src/food-orders/food-orders.service.ts:252-266 | cancels exactly from the three or four statuses of that kind, named one by one, and leaves the driver on the row |
| `ReservingService.JobService.AcceptOrder` | src/food-orders/food-orders.service.ts:109-118 | the restaurant accepts exactly a placed order |
| `ReservingService.JobService.MarkOrderReady` | src/food-orders/food-orders.service.ts:120-130 | exactly an accepted order becomes ready, and only then is a match pass asked for |
| `ReservingService.JobService.MarkAdvanced` | src/delivery/delivery.service.ts:175-195 | the driver's progress calls, refused unless theirs and from the one status each starts from, are the progress step |
| `ReservingService.JobService.DeliverBegin` | src/delivery/delivery.service.ts:200-202 | the check of markDelivered: the row's driver, and one of the statuses of that kind |
| `ReservingService.JobService.DeliverUpdate` | src/delivery/delivery.service.ts:204-210 | the conditional update, won exactly in one of those statuses; the winner leaves the job DELIVERED and owes one ledger call |
| `Fleet.BusyCoversEveryHolder` | src/location/location.service.ts:356-387 | the statuses of the busy query are exactly those in which an unfinished row carries a driver |
| `Fleet.BusyCoversEveryTrip` | src/location/location.service.ts:356-387 | so are those of the trips: whoever is on an unfinished trip is on a job |
| `Fleet.PassIsSearchThenOffer` | src/errands/errands.service.ts:60-84 | a search whose offer is written before anything else happens is the match pass of the protocol |
| `Fleet.SoleStepExactly` | src/location/location.service.ts:356-387 | one step keeps every driver on one job at most if and only if it does not write a driver who is on another, by an offer, a manual assignment or a progress call |
| `Fleet.OneJobExactly` | src/delivery/delivery.service.ts:107-195 | over whole runs nobody is ever on two parcels, food orders or errands if and only if no offer and no manual assignment is written for a driver who then is on another, and no progress call on a row whose driver is |
| `Fleet.LateOfferExactly` | src/food-orders/food-orders.service.ts:163-164 | a late offer keeps it if and only if no other job holds its driver at the write |
| `Fleet.LateProgressExactly` | src/delivery/delivery.service.ts:175-195 | a late progress call keeps it if and only if no other job holds the driver of the row it lands on |
| `Fleet.ManualAssignExactly` | src/admin/admin.service.ts:583-644 | a manual assignment keeps it if and only if the driver is on no other job |
| `Fleet.QueueKeptExactly` | src/users/users.service.ts:423-439 | over whole runs whoever holds an automatically matched food order or errand is in that queue if and only if no offer of one and no progress call on one is written for a driver who has left it, and no switch out of it is written for a driver who holds one |
| `FleetOverlap.OneJobPerDriver` | src/location/location.service.ts:356-387 | with automatic matching only, no two calls about one driver overlapping and no progress call overtaken, no driver is ever on two jobs across parcels, food orders and errands |
| `FleetOverlap.QueueKeptUntilDone` | src/users/users.service.ts:423-439 | without such overlaps, whoever holds an automatically matched food order or errand is in the FOOD_ERRAND queue, whatever the ops desk does |
| `FleetOverlap.BothJobsOneDriver` | src/delivery/delivery.service.ts:74-111 | the racing input: two jobs booked at once near one free driver, both offered to them |
| `FleetOverlap.ErrandFromTheRideQueue` | src/users/users.service.ts:424-434 | the racing input: a driver switches to rides while an errand is about to be offered to them, and holds it from there |
| `FleetOverlap.PickUpAfterCancel` | src/delivery/delivery.service.ts:175-184 | the input: a pick-up is checked, the parcel is cancelled, its driver is offered another, and the pick-up is written |
| `FleetOverlap.ShoppingAfterCancel` | src/errands/errands.service.ts:135-141 | the input: shopping is checked, the errand is cancelled, its driver goes over to rides, and the shopping is written |
| `Fleet.FleetsNeverMix` | src/admin/admin.service.ts:601-608 | parcels, food orders and errands: review jobs are on review drivers and real jobs on real ones in every run, late offers and manual assignments included |
| `TripFleet.TripFleetExactly` | src/trips/trips.service.ts:533-540 | a trip stays in its fleet in a run if and only if the driver who wins it is of that fleet |
| `TripFleet.ShownAcceptsKeepTheWall` | src/trips/trips.service.ts:247-272 | which holds if searches and ops desk respect the wall and only drivers who were shown the trip accept it |
| `TripFleet.ReviewerTakesRealTrip` | src/trips/trips.service.ts:533-536 | the failing input: a real trip on offer to driver 1 is accepted by review driver 2 |
| `Fleet.EligibleIsOfferable` | src/location/location.service.ts:250-333 | whoever the pointwise rule accepts is someone a match pass of the fleet model may pick |
| `Fleet.FleetTables.BeginSwitch` | src/users/users.service.ts:423-432 | switching queues is refused exactly while any of the four tables holds the driver |
| `Fleet.FleetTables.CommitSwitch` | src/users/users.service.ts:434-438 | the write that follows, whatever the driver is on by then |
| `Fleet.FleetTables.ManuallyAssign` | src/admin/admin.service.ts:583-646 | for parcels, food orders and errands: each of the four refusals exactly when it is due, in the order of the checks, and success exactly for an approved driver of the job's fleet on a waiting job |
| `Trips.ShownAreFree` | src/trips/trips.service.ts:247-272 | at most three are shown the trip, all of them found near and none excluded |
| `TripsSafety.RowStep` | src/trips/trips.service.ts:241-803 | every handler keeps the trip's row invariant and never unwrites a claim |
| `TripsSafety.OneWinnerForEver` | src/trips/trips.service.ts:533-540 | in every run of atomic handlers at most one accept or assignment succeeds, the winner stays on the row for ever, and a trip still looking carries nobody |
| `TripsSafety.PaidExactlyOnce` | src/trips/trips.service.ts:608-697 | with completeTrip split at each await, a real trip has one payout or one call on its way to it once completed, none before, and a test trip never any |
| `TripsSafety.FarePromiseKept` | src/trips/trips.service.ts:637-649 | quoted, accepted and operative fare stay equal, drift is never stamped, and every payout carries the promised fare, the tip as booked and the winner |
| `TripsSafety.JourneyPays` | src/trips/trips.service.ts:596-697 | from any matched trip the driver's own calls complete it at the promised fare and pay that driver; a test trip pays nobody |
| `TripsSafety.FinishedForEver` | src/trips/trips.service.ts:478-488 | with atomic handlers a completed or cancelled trip stays so, driver included, whatever timers and match passes have yet to begin |
| `TripsRaces.LateWriteExactly` | src/trips/trips.service.ts:418-803 | a late write keeps the winner, the end of the trip and the count of winners if and only if the row is still looking when a broadcast or a timer reset lands, not completed when a cancellation does, and matched or under way when a start does |
| `TripsRaces.RacesExactly` | src/trips/trips.service.ts:241-803 | over whole runs with late writes anywhere among the handlers, no decision is ever undone if and only if every late write finds such a row |
| `TripsRaces.OneWinnerDespiteRaces` | src/trips/trips.service.ts:533-540 | with such late writes, one winner at most, on the row for ever, and a finished trip stays finished |
| `TripsRaces.LateOfferReopens` | src/trips/trips.service.ts:419-423 | a search still under way at a cancellation puts the trip back on offer, and a driver can win it |
| `TripsRaces.LateOfferUnseats` | src/admin/admin.service.ts:613-620 | one still under way at a manual assignment takes the winner off the row, and a second driver can win |
| `TripsRaces.LateFreeLetsTwoWin` | src/trips/trips.service.ts:481-484 | a timer reset that lands after an accept leaves the winner on a REQUESTED row, and the search it starts lets a second driver win |
| `TripsRaces.LateSettlementExactly` | src/trips/trips.service.ts:608-697 | a late write leaves settlement single, the winner's and at the promised fare if and only if it is timely or lands on a cancelled row whose having been won fits it, or on a completed row with nothing settled |
| `TripsRaces.SettlementExactly` | src/trips/trips.service.ts:608-697 | over whole runs with late writes, settlement is always single if and only if every late write is of that sort |
| `TripsRaces.PaidOnceDespiteRaces` | src/trips/trips.service.ts:608-697 | with timely late writes, a completed real trip has one payout done or on its way, any other trip none, to the winner at the promised fare |
| `TripsRaces.LateStartPaysTwice` | src/trips/trips.service.ts:596-606 | an input outside that condition: a second start whose write lands after the completion lets completeTrip pay again |
| `TripsLiveness.NeverSilentlyStuck` | src/trips/trips.service.ts:281-287 | an uncrashed trip in MATCHING has exactly the timer of its latest broadcast; one in REQUESTED has exactly one match pass pending or is marked as having found nobody |
| `TripsLiveness.LastPassFoundNobody` | src/trips/trips.service.ts:274-287 | an uncrashed REQUESTED trip with no pass under way is one whose last pass found nobody; it is marked, and has waited since |
| `TripsLiveness.UnmatchedStaysUnmatched` | src/trips/trips.service.ts:274-287 | nothing but the ops desk or a cancellation ever moves such a trip again |
| `TripsLiveness.RoundShrinks` | src/trips/trips.service.ts:478-489 | the drivers not yet shown the trip strictly shrink from broadcast to broadcast |
| `TripsLiveness.CascadeEnds` | src/trips/trips.service.ts:418-489 | no driver is shown the same trip in two rounds, so `offerCount` never exceeds the number of drivers |
| `TripsLiveness.DeclinerNeverShown` | src/trips/trips.service.ts:562-579 | whoever declines a trip on offer, shown it or not, is in no later round |
| `TripsLiveness.DeclineIsForGoodExactly` | src/trips/trips.service.ts:562-579 | that holds of all runs if and only if timers are prompt enough for the exclusion set to outlive a round |
| `TripsLiveness.NoRepeatExactly` | src/location/excluded-drivers.store.ts:11-30 | no run shows a driver a trip twice if and only if timers are prompt enough for the exclusion set to outlive a round |
| `TripsLiveness.LadderKeepsItsPromise` | src/trips/trips.service.ts:363-395 | a trip still looking is alerted after 90 s and escalated after 180 s, never earlier, in that order, and each stamp is written once |
| `TripsLiveness.EscalationIsSound` | src/trips/trips.service.ts:363-395 | one escalation check writes exactly the stamps that are due and not yet written, and changes nothing else |
| `TripsService.TripService.constructor` | src/trips/trips.service.ts:119-200 | a booked trip is the initial state: the fare in three places, a tip only above nothing, escalation timers at 90 and 180 s, one match pass |
| `TripsService.TripService.AttemptMatch` | src/trips/trips.service.ts:241-288 | run on the location service, the pass is the match-pass step, evictions included; it shows the trip to the top three of the eight nearest free drivers of the smallest ring with anybody, or marks it |
| `TripsService.TripService.CompleteStampFare` | src/trips/trips.service.ts:637-649 | the final fare is the accepted one whenever there is one, and drift is stamped exactly if both figures are there and differ |
| `TripsService.TripService.CompleteSettle` | src/trips/trips.service.ts:685-697 | one payout call with the fare that was read and the row's tip, none without a fare or for a test trip |
| `TripsService.TripService.Escalate` | src/trips/trips.service.ts:363-395 | the method is the escalation check on the row |
| `TripsService.TripService.ExcludeAll` | src/trips/trips.service.ts:482 | the loop excludes everyone shown and touches no other job |
| `TripsService.TripService.OnOfferTimeout` | src/trips/trips.service.ts:478-488 | the timer body is the timeout step |
| `TripsService.TripService.ClaimTrip` | src/trips/trips.service.ts:533-540 | claims exactly if the trip is in MATCHING with nobody on the row |
| `TripsService.TripService.DeclineTrip` | src/trips/trips.service.ts:562-579 | a decline excludes one driver and leaves the row, the timer and the others' cards alone |
| `TripsService.TripService.ManuallyAssign` | src/admin/admin.service.ts:613-620 | places the driver exactly if the trip is still looking |
| `TripsService.TripService.StartTrip` | src/trips/trips.service.ts:596-606 | only the matched driver starts, and only from MATCHED |
| `TripsService.TripService.CancelTrip` | src/trips/trips.service.ts:738-798 | cancels exactly from the three early statuses, and then the row is CANCELLED and otherwise as it was |
| `TripsService.TripService.CompleteBegin` | src/trips/trips.service.ts:608-610 | the ownership and status check of completeTrip, remembering what was read |
| `TripsService.TripService.CompleteUpdate` | src/trips/trips.service.ts:618-625 | the conditional update, won exactly if the trip is still in progress |
| `Eligibility.TtlNeverMatters` | src/location/location.service.ts:72-85 | the quarter-hour expiry of a last-seen key never changes a three-minute freshness answer |
| `Eligibility.MerelyBusyIsSpared` | src/location/location.service.ts:307-332 | a fresh driver who is merely busy, over the limit or eligible is not evicted |
| `Eligibility.OtherFleetIsEvicted` | src/location/location.service.ts:307-332 | a fresh, online driver of the other fleet is evicted unless over the limit or on a job |
| `Eligibility.StatusAgreesWithMatcher` | src/location/location.service.ts:134-180 | being told "receiving jobs" and not being on a job is exactly being eligible for one's own fleet with a fresh heartbeat |
| `Eligibility.EachBlocker` | src/location/location.service.ts:155-169 | each line on the status screen is there exactly for its own reason |
| `Eligibility.EligibleHasNoOtherBlocker` | src/location/location.service.ts:134-180 | a driver the matcher would take has no blocker but, at most, the heartbeat |
| `Location.KeepMembers` | src/location/location.service.ts:320-332 | filtering a list keeps exactly the allowed candidates |
| `Location.LocationService.UpdateDriverLocation` | src/location/location.service.ts:72-85 | a ping puts the driver on the map and makes them fresh for exactly three minutes, and nobody else |
| `Location.LocationService.RemoveDriver` | src/location/location.service.ts:182-189 | position and last-seen key go together |
| `Location.LocationService.RemoveDrivers` | src/location/location.service.ts:331 | evicting a list removes exactly those on it |
| `Location.LocationService.FilterFreshFixes` | src/location/location.service.ts:418-456 | keeps, in order, exactly the candidates whose last ping is at most three minutes old, and evicts exactly the others |
| `Location.LocationService.DriversOnAJob` | src/location/location.service.ts:356-387 | the batched query returns exactly the listed drivers who are on a job |
| `Location.LocationService.Gate` | src/location/location.service.ts:262-306 | the set operations allow exactly the drivers who pass the database rule, are solvent and free, and spare exactly those over the limit or busy |
| `Location.LocationService.FilterEligible` | src/location/location.service.ts:250-333 | the batched filter is the pointwise rule in input order, and evicts exactly whom the pointwise rule evicts |
| `Location.LocationService.FindNearbyDrivers` | src/location/location.service.ts:192-228 | returns the eligible drivers within the radius, nearest first, and its evictions change no later answer of the same search |
| `Location.LocationService.FindNearbyDriversForMode` | src/location/location.service.ts:463-472 | the same, for the drivers of one queue |
| `Search.NearestMeans` | src/delivery/delivery.service.ts:80-96 | the nearest acceptable driver: nobody acceptable is nearer, and there is none exactly if nobody acceptable is within the radius |
| `Search.NearestWidens` | src/delivery/delivery.service.ts:80-96 | if a radius has an answer, every larger radius has the same one |
| `Search.FindDriver` | src/delivery/delivery.service.ts:80-96 | the widening search over an index it evicts from returns the nearest non-excluded eligible driver within 8 km, as one search of the untouched index would |
| `Search.FindBroadcast` | src/trips/trips.service.ts:247-272 | the trip search returns the top three by score of the eight nearest in the smallest radius that has anybody, as of the untouched index |
| `Search.BroadcastKeepsCloserFirst` | src/trips/trips.service.ts:247-272 | nobody in the ring is shown a trip without, or before, a driver who is nearer by more than 15/7 km, or by more than 1 km with no history |
| `Search.SmallestRingMeans` | src/trips/trips.service.ts:247-252 | that radius is the smallest with anybody, and there is none exactly if nobody is within 8 km |
| `Search.RingsInOrder` | src/trips/trips.service.ts:28 | in figures: 1 km if anybody is within it, else 3, else 5, else 8 |
| `SearchFeedsDispatch.PassPicksNearest` | src/delivery/delivery.service.ts:74-96 | fed with what the four searches answer, the protocol's match pass offers to the nearest free driver |
| `SearchFeedsDispatch.PassShowsTopThree` | src/trips/trips.service.ts:241-272 | fed with what the four searches answer, the trip's match pass shows the top three of the eight nearest |
| `SearchFeedsDispatch.PassShowsExactly` | src/trips/trips.service.ts:241-272 | and nobody else: the search and the protocol's pass show the trip to the same list |
| `Scoring.ScoreBounds` | src/trips/dispatch.util.ts:103-127 | a score lies between 0 and 1 whatever the inputs |
| `Scoring.EachSignal` | src/trips/dispatch.util.ts:69-127 | what a kilometre, each rate, a star and a minute of waiting are worth within their ranges |
| `Scoring.EachRange` | src/trips/dispatch.util.ts:95-127 | beyond its range a signal counts as the end of the range |
| `Scoring.EachUnknown` | src/trips/dispatch.util.ts:103-127 | what a missing signal counts as: rates of one half, 4.55 stars, 22.5 minutes |
| `Scoring.IdleMinutes` | src/trips/dispatch.util.ts:146-149 | how long a driver has waited |
| `Scoring.DistanceDominates` | src/trips/dispatch.util.ts:69-127 | a nearer driver wins whatever the reputations if and only if the capped distances differ by more than 15/7 km |
| `Scoring.NewcomerMargin` | src/trips/dispatch.util.ts:69-127 | against a driver with no history the margin is exactly 1 km |
| `Scoring.TwoKilometresCanBeBought` | src/trips/dispatch.util.ts:24-25 | the best record two kilometres farther out-scores the worst, at any distance |
| `Scoring.AcceptingHelpsExactly` | src/trips/dispatch.util.ts:130-144 | exactly when having taken more jobs on the same offers raises the score, for all counters: by an inequality when the eighth job brings the cancellations into view, otherwise if it raises the acceptance rate or dilutes the cancellations |
| `Scoring.EighthAcceptance` | src/trips/dispatch.util.ts:130-144 | the eighth acceptance raises it if and only if there are at most four cancellations, or offers times the excess over four is below twelve |
| `Scoring.EighthAcceptanceCanHurt` | src/trips/dispatch.util.ts:130-144 | an input where it lowers it |
| `Scoring.IdlingNeverHurts` | src/trips/dispatch.util.ts:146-149 | waiting longer never lowers a score and stops raising it after 45 minutes |
| `Ranking.SortRanks` | src/trips/trips.service.ts:340-348 | sorting gives the same candidates by falling score, equals in their old order |
| `Ranking.RankingIsUnique` | src/trips/trips.service.ts:340-348 | there is only one such order |
| `Ranking.BestLeads` | src/trips/trips.service.ts:329-343 | the head of the ranking is what the best-so-far fold finds |
| `Ranking.RankCandidates` | src/trips/trips.service.ts:308-349 | the scoring loop returns the stable ranking of the candidates, and its best is the head of it |
| `Ranking.RankingKeepsCloserFirst` | src/trips/trips.service.ts:340-348 | in every ranking of a list, a driver never stands before one who is nearer by more than 15/7 km, or by more than 1 km with no history |
| `Ranking.BetterRatedFirst` | src/trips/trips.service.ts:332-348 | of two candidates at one distance with one record, the better rated stands first in every ranking, the unrated as 4.55 stars |
| `Ranking.BetterRecordFirst` | src/trips/trips.service.ts:332-348 | of two at one distance with one rating, the one whose counters and waiting stand higher |
| `Commission.SplitConserves` | src/ledger/commission.util.ts:16-21 | net plus commission is gross, the commission is the share rounded half up, and neither part is negative nor exceeds the gross |
| `Ledger.BalancesMakeTotal` | src/ledger/ledger.service.ts:299-310 | the balances of all users add up to the sum of all rows |
| `Ledger.PostingTotal` | src/ledger/ledger.service.ts:12-250 | the rows of one settlement add what it is worth to the books: tip less commission for a cash trip, gross less commission for the others, COD legs cancelling |
| `Ledger.LedgerConserves` | src/ledger/ledger.service.ts:12-294 | over any run, all balances together are top-ups less withdrawals plus tips and gross fees less commissions, less COD nobody was credited for |
| `Ledger.RowsReconcile` | prisma/schema.prisma:745-754 | every row adds up or passes its amount on whole, names its job, and no two rows of one settlement are of one type |
| `Wallet.PostingMovesBalance` | src/ledger/ledger.service.ts:12-294 | each settlement moves each balance by its stated effect and no other |
| `Wallet.TripMoves` | src/ledger/ledger.service.ts:18-89 | in figures: a trip costs the driver 15% of the fare and brings the tip, if above nothing |
| `Wallet.ParcelMoves` | src/ledger/ledger.service.ts:105-170 | a parcel brings the driver the fare less 15% and less the cash on delivery, which is the sender's if there is one |
| `Wallet.FoodMoves` | src/ledger/ledger.service.ts:178-213 | a food order brings the driver the fee less 15% and the owner the items less the restaurant's rate |
| `Wallet.ErrandMoves` | src/ledger/ledger.service.ts:215-228 | an errand brings the driver the fee less 15% |
| `Wallet.WalletMoves` | src/ledger/ledger.service.ts:241-294 | a credit and a granted withdrawal move their amount |
| `Wallet.NonDriversNeverOwe` | src/ledger/ledger.service.ts:266-285 | whoever never drives has a balance of at least zero in every run of serialised calls |
| `Wallet.RacingWithdrawals` | src/ledger/ledger.service.ts:270-285 | two accepted withdrawals that race leave the wallet at or above zero if and only if it covers both |
| `Wallet.DriversOverCreditLimit` | src/location/location.service.ts:389-409 | the batched loop returns exactly the listed drivers whose wallet says blocked |
| `Wallet.ReadersAgree` | src/admin/admin.service.ts:48-63 | the ops list and the wallet agree on who is blocked, drivers without rows included |
| `Wallet.WalletConsistent` | src/ledger/ledger.service.ts:312-351 | no credit remains exactly when blocked, and a blocked wallet's amount to settle brings it to zero |
| `Wallet.WalletBands` | src/ledger/ledger.service.ts:312-351 | each level, and the credit left, as a band of the debt against the limit |
| `Wallet.LadderMonotone` | src/ledger/ledger.service.ts:331-332 | the warning level never falls as the debt grows |
| `LedgerService.LedgerTable.RecordTripPayout` | src/ledger/ledger.service.ts:12-90 | appends the payout, the cash leg and, if any, the tip of one trip, with the balances moved in figures |
| `LedgerService.LedgerTable.RecordDeliveryPayout` | src/ledger/ledger.service.ts:98-171 | appends the payout and, for COD, the driver's debit and the sender's credit, with the balances moved in figures |
| `LedgerService.LedgerTable.RecordFoodOrderPayouts` | src/ledger/ledger.service.ts:178-213 | appends both parties' payouts, each at its own rate, with the balances moved in figures |
| `LedgerService.LedgerTable.RequestWithdrawal` | src/ledger/ledger.service.ts:266-294 | accepted exactly if positive and covered, leaving at least zero; otherwise nothing is written |
| `Earnings.GetDriverEarnings` | src/ledger/ledger.service.ts:369-446 | the bucketing loop puts each row of the week in its day, the week before in `lastWeek`, and marks today |
| `Earnings.FetchedEnough` | src/ledger/ledger.service.ts:399-418 | reading from the fortnight's rows gives the same sums as querying from the later start |
| `Earnings.BarsAndTheRest` | src/ledger/ledger.service.ts:427-433 | the seven bars and what is dated after the week make the week's aggregate, for any rows |
| `Earnings.BarsMatchAggregates` | src/ledger/ledger.service.ts:393-446 | without rows dated after today, bars and job counts add up to the week's aggregates, today's bar is today's, and `lastWeek` is exactly the other fetched rows |
| `Earnings.EarningsMove` | src/ledger/ledger.service.ts:375-397 | a settlement adds to its driver's earnings the fare or fee less 15% and one job, and nothing to anybody else's: no tip, cash, COD, restaurant share, credit or withdrawal |
| `Settlement.TripMovesMoneyOnce` | src/trips/trips.service.ts:608-697 | a whole run of a trip changes only the winner's balance, by the tip as booked less 15% of the fare promised, at most once; a test trip changes nothing |
| `Settlement.JobMovesMoneyOnce` | src/food-orders/food-orders.service.ts:223-246 | a whole run of a parcel, food order or errand moves each balance at most once, by what the bill's own fields say for the driver on the delivered row, the restaurant's owner and the sender; it does so when nothing crashed, and moves nothing without a fare or a restaurant |

The straight-line handlers of the three service classes without a row here (writing an offer or a broadcast, settling a
job, an escalation timer, appending an errand's or a credit's row) are each proved to take the step, or write the rows, of the same name.

## Left out

* HTTP controllers, guards, validators, sockets, push messages, events, counters, notifications and logging: I/O.
* Sign-in, tokens and who may call what, including the checks that a canceller is a party to the job.
* Prisma, Postgres and Redis themselves: a conditional update, a transaction and a Redis command are each one step. The
  unique (job, type) keys of the ledger (`prisma/schema.prisma:751-754`) are not assumed: the claims do without them.
* Trigonometry and GEOSEARCH: distances are given, in ascending order, each driver once.
* IEEE floating point, time zones and daylight saving: exact numbers and uniform 24-hour days.
* Fare estimation, launch zone and hours, cancellation fees, loyalty, ratings, incentives, chat, onboarding: short
  branches beside the protocols.
* `createOrder`'s item totals, and the driver list, sort and limit of 500 in `listDriverBalances`.
* `TripsService.handleDeclineOrTimeout`: it has no caller.
* The review-fleet poller, which drives the same handlers.
* Failing queries: the searches and writes are taken to succeed, except for `Crash`.
* Interleavings inside a handler that reads and then writes without a condition, except for what `ReservingRaces`,
  `TripsRaces`, `Fleet` and `FleetOverlap` say of them: wake-ups, stale timers, the end of the cascade and the escalation
  ladder are proved for atomic handlers.
* PaidExactlyOnce: for atomic handlers but for its own awaits; `SettlementExactly` and `PaidOnceDespiteRaces` say when it
  holds without that.
* OfferKeepsItsWindow, WindowsKeptExactly: for atomic handlers; `LateFreeCutsExactly` is about the rest.
* OneWinnerForEver, FinishedForEver: for atomic handlers; `RacesExactly` and `OneWinnerDespiteRaces` say when they hold
  without that.
* OneJobExactly, OneJobPerDriver: parcels, food orders and errands only. Trips enter as a set of drivers on a trip that
  may change at any time, because accepting a trip checks neither the offer nor the job in hand.
* OneJobPerDriver, QueueKeptUntilDone: for runs in which no two calls about one driver overlap; the code does not see to
  that. `OneJobExactly` and `QueueKeptExactly` are about all runs.
* FleetsNeverMix: parcels, food orders and errands only; `TripFleetExactly` is about trips.
* FleetTables.ManuallyAssign: the trip branch is `TripService.ManuallyAssign`.
* RowStep: speaks of one job; the exclusion sets of other jobs are covered by the classes, which share one store.
* NonDriversNeverOwe: for withdrawals one after the other; `RacingWithdrawals` says what happens otherwise.
* BarsMatchAggregates: for rows dated up to the end of today; `BarsAndTheRest` has no such condition.
* CascadeEnds, RoundShrinks: for runs whose timers are prompt enough; `NoRepeatExactly` says exactly how prompt.
* DeclinerNeverShown, NoStaleTimer, OfferKeepsItsWindow: likewise, with `DeclineIsForGoodExactly`, `StaleTimersExactly`
  and `WindowsKeptExactly`.
* LadderKeepsItsPromise: the 90 s and 180 s are met up to the delay of the process's timers.
