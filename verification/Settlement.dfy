/** From the handlers to the wallet: what a whole run of a trip or of a job does to the ledger. */
module Settlement {
  import opened Domain
  import opened Commission
  import opened Ledger
  import opened Wallet
  import opened Trips
  import TripsSafety
  import Reserving
  import ReservingSafety

  function PostEach(rows: seq<Entry>, ps: seq<Posting>, at: Time): (r: seq<Entry>)
    decreases |ps|
  {
    if ps == [] then rows else Post(PostEach(rows, ps[..|ps| - 1], at), ps[|ps| - 1], at)
  }

  lemma PostOne(rows: seq<Entry>, p: Posting, at: Time)
    ensures PostEach(rows, [p], at) == Post(rows, p, at)
  {
    assert [p][..0] == [];
    assert PostEach(rows, [], at) == rows;
  }

  /**
   Whatever the interleaving, a trip moves money at most once: nobody's balance but the winning driver's
   changes, theirs by the tip less the commission on the fare promised at booking; and the gross on the
   payout row is the final, the accepted and the quoted fare. A test trip moves nothing.
   */
  lemma {:induction false} TripMovesMoneyOnce(
    id: nat, isTest: bool, fare: Money, tip: Option<Money>, start: Time, lateness: nat, es: seq<Event>,
    rows: seq<Entry>, at: Time, u: User)
    ensures var t := Run(CreateTrip(id, isTest, fare, tip, start, lateness), es);
            var after := PostEach(rows, t.payouts, at);
            && Balance(after, u) - Balance(rows, u)
               == (if t.payouts != [] && t.row.driver == Some(u)
                   then (if tip.Some? && tip.value > 0 then tip.value else 0) - RoundHalfUp(fare * 15, 100) else 0)
            && (isTest ==> after == rows)
            && (t.payouts != [] ==>
                  && |rows| < |after| && rows <= after
                  && Some(after[|rows|].gross) == t.row.finalFare == t.row.acceptedFare == t.row.quotedFare)
  {
    TripsSafety.PaidExactlyOnce(id, isTest, fare, tip, start, lateness, es);
    TripsSafety.FarePromiseKept(id, isTest, fare, tip, start, lateness, es);
    var t0 := CreateTrip(id, isTest, fare, tip, start, lateness);
    TripsSafety.RowRun(t0, es);
    var t := Run(t0, es);
    if t.payouts != [] {
      var p := t.payouts[0];
      assert p in t.payouts && t.payouts == [p];
      PostOne(rows, p, at);
      TripMoves(rows, p.driver, p.trip, p.fare, p.tip, at, u);
      SplitConserves(fare, COMMISSION_RATE);
    }
  }

  // ---- Parcels, food orders and errands ----

  /** What the three rows say about money; a parcel may have no fare, and a restaurant may be gone. */
  datatype Bill =
    | ParcelBill(delivery: nat, fare: Option<Money>, cod: Option<Money>, sender: Option<User>)
    | FoodBill(order: nat, restaurant: Option<Restaurant>, deliveryFee: Money, itemsTotal: Money)
    | ErrandBill(errand: nat, serviceFee: Money)

  datatype Restaurant = Restaurant(owner: User, rate: Rate)

  predicate Bills(b: Bill, k: Reserving.Kind) {
    match k case Parcel => b.ParcelBill? case Food => b.FoodBill? case Errand => b.ErrandBill?
  }

  /** The ledger call a markDelivered that won its update makes, if it makes one. */
  function LedgerCall(b: Bill, d: User): (r: Option<Posting>) {
    match b
    case ParcelBill(id, fare, cod, sender) =>
      if fare.Some? then Some(DeliveryPayout(d, id, fare.value, cod, sender)) else None
    case FoodBill(id, restaurant, fee, items) =>
      if restaurant.Some?
      then Some(FoodOrderPayouts(d, restaurant.value.owner, id, fee, items, restaurant.value.rate)) else None
    case ErrandBill(id, fee) => Some(ErrandPayout(d, id, fee))
  }

  function Settle(rows: seq<Entry>, b: Bill, d: User, at: Time): (r: seq<Entry>) {
    if LedgerCall(b, d).Some? then Post(rows, LedgerCall(b, d).value, at) else rows
  }

  function SettleEach(rows: seq<Entry>, b: Bill, drivers: seq<User>, at: Time): (r: seq<Entry>)
    decreases |drivers|
  {
    if drivers == [] then rows
    else Settle(SettleEach(rows, b, drivers[..|drivers| - 1], at), b, drivers[|drivers| - 1], at)
  }

  /**
   What the bill of a delivered job is worth to one user, from its own fields. Without a fare, or without a
   restaurant, it is worth nothing to anybody.
   */
  function Owed(b: Bill, d: User, u: User): (r: Money) {
    match b
    case ParcelBill(_, fare, cod, sender) =>
      if fare.None? then 0
      else
        var cash := if cod.Some? && cod.value > 0 then cod.value else 0;
        (if u == d then fare.value - RoundHalfUp(fare.value * 15, 100) - cash else 0)
        + (if sender == Some(u) then cash else 0)
    case FoodBill(_, restaurant, fee, items) =>
      if restaurant.None? then 0
      else
        var rate := restaurant.value.rate;
        (if u == d then fee - RoundHalfUp(fee * 15, 100) else 0)
        + (if u == restaurant.value.owner then items - RoundHalfUp(items * rate.num, rate.den) else 0)
    case ErrandBill(_, fee) => if u == d then fee - RoundHalfUp(fee * 15, 100) else 0
  }

  lemma SettleOne(rows: seq<Entry>, b: Bill, d: User, at: Time, u: User)
    ensures SettleEach(rows, b, [d], at) == Settle(rows, b, d, at)
    ensures Balance(Settle(rows, b, d, at), u) == Balance(rows, u) + Owed(b, d, u)
  {
    assert [d][..0] == [];
    assert SettleEach(rows, b, [], at) == rows;
    match b
    case ParcelBill(id, fare, cod, sender) =>
      if fare.Some? { ParcelMoves(rows, d, id, fare.value, cod, sender, at, u); }
    case FoodBill(id, restaurant, fee, items) =>
      if restaurant.Some? {
        FoodMoves(rows, d, restaurant.value.owner, id, fee, items, restaurant.value.rate, at, u);
      }
    case ErrandBill(id, fee) => ErrandMoves(rows, d, id, fee, at, u);
  }

  /**
   Whatever the interleaving, a job's bill is settled at most once, in favour of the driver who won the job
   and is still on the row, and only if the job was delivered; without a crash, a delivered job whose calls
   have all returned is settled.
   */
  lemma {:induction false} JobMovesMoneyOnce(
    k: Reserving.Kind, start: Time, lateness: nat, es: seq<Reserving.Event>, b: Bill,
    rows: seq<Entry>, at: Time, u: User)
    requires Bills(b, k)
    ensures var j := Reserving.Run(Reserving.NewJob(k, start, lateness), es);
            var moved := Balance(SettleEach(rows, b, j.payouts, at), u) - Balance(rows, u);
            && (moved != 0 ==>
                  j.status == Reserving.DELIVERED && j.driver.Some? && moved == Owed(b, j.driver.value, u))
            && (j.status == Reserving.DELIVERED && !j.crashed && j.owing == [] ==>
                  j.driver.Some? && moved == Owed(b, j.driver.value, u))
  {
    ReservingSafety.PaidExactlyOnce(k, start, lateness, es);
    ReservingSafety.OneWinnerForEver(k, start, lateness, es, []);
    var j := Reserving.Run(Reserving.NewJob(k, start, lateness), es);
    assert Reserving.Run(j, []) == j;
    if j.payouts != [] {
      var d := j.payouts[0];
      assert d in j.payouts && j.payouts == [d];
      SettleOne(rows, b, d, at, u);
    }
  }
}
