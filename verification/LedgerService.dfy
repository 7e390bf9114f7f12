/** LedgerService: methods that append rows, each proved to write what its posting prescribes. */
module LedgerService {
  import opened Domain
  import opened Commission
  import opened Ledger
  import opened Wallet

  datatype WithdrawalResult = Requested(entry: Entry) | NotPositive | OverBalance(available: Money)

  class LedgerTable {
    var rows: seq<Entry>
    const creditLimit: nat

    constructor (creditLimit: nat)
      ensures rows == [] && this.creditLimit == creditLimit
    {
      rows, this.creditLimit := [], creditLimit;
    }

    method RecordTripPayout(driver: User, trip: nat, fare: Money, tipAmount: Option<Money>, now: Time)
      modifies this
      ensures rows == Post(old(rows), TripPayout(driver, trip, fare, tipAmount), now)
      ensures forall u :: Balance(rows, u) - Balance(old(rows), u)
                          == if u != driver then 0
                             else (if tipAmount.Some? && tipAmount.value > 0 then tipAmount.value else 0)
                                  - RoundHalfUp(fare * 15, 100)
    {
      forall u { TripMoves(rows, driver, trip, fare, tipAmount, now, u); }
      var split := SplitFare(fare, COMMISSION_RATE);
      var tip := if tipAmount.Some? then tipAmount.value else 0;
      var payout := Payout(driver, TRIP_PAYOUT, TripRef(trip), split, now);
      var cashHeld := Entry(driver, TRIP_CASH_COLLECTED, TripRef(trip), split.gross, 0, -split.gross, now);
      if !(tip > 0) {
        rows := rows + [payout, cashHeld];
        return;
      }
      rows := rows + [payout, cashHeld, Entry(driver, TRIP_TIP, TripRef(trip), tip, 0, tip, now)];
    }

    method RecordDeliveryPayout(
      driver: User, delivery: nat, fare: Money, codAmount: Option<Money>, sender: Option<User>, now: Time)
      modifies this
      ensures rows == Post(old(rows), DeliveryPayout(driver, delivery, fare, codAmount, sender), now)
      ensures var cash := if codAmount.Some? && codAmount.value > 0 then codAmount.value else 0;
              forall u :: Balance(rows, u) - Balance(old(rows), u)
                          == (if u == driver then fare - RoundHalfUp(fare * 15, 100) - cash else 0)
                             + (if sender == Some(u) then cash else 0)
    {
      forall u { ParcelMoves(rows, driver, delivery, fare, codAmount, sender, now, u); }
      var ops := [Payout(driver, DELIVERY_PAYOUT, DeliveryRef(delivery), SplitFare(fare, COMMISSION_RATE), now)];
      if codAmount.Some? && codAmount.value > 0 {
        var cod := codAmount.value;
        ops := ops + [Entry(driver, DELIVERY_COD_LIABILITY, DeliveryRef(delivery), cod, 0, -cod, now)];
        if sender.Some? {
          ops := ops + [Entry(sender.value, PARCEL_COD_CREDIT, DeliveryRef(delivery), cod, 0, cod, now)];
        }
      }
      rows := rows + ops;
    }

    method RecordFoodOrderPayouts(
      driver: User, owner: User, order: nat, deliveryFee: Money, itemsTotal: Money, rate: Rate, now: Time)
      modifies this
      ensures rows == Post(old(rows), FoodOrderPayouts(driver, owner, order, deliveryFee, itemsTotal, rate), now)
      ensures forall u :: Balance(rows, u) - Balance(old(rows), u)
                          == (if u == driver then deliveryFee - RoundHalfUp(deliveryFee * 15, 100) else 0)
                             + (if u == owner then itemsTotal - RoundHalfUp(itemsTotal * rate.num, rate.den) else 0)
    {
      forall u { FoodMoves(rows, driver, owner, order, deliveryFee, itemsTotal, rate, now, u); }
      var driverSplit := SplitFare(deliveryFee, COMMISSION_RATE);
      var restaurantSplit := SplitFare(itemsTotal, rate);
      rows := rows + [Payout(driver, FOOD_ORDER_DRIVER_PAYOUT, FoodOrderRef(order), driverSplit, now),
                      Payout(owner, FOOD_ORDER_RESTAURANT_PAYOUT, FoodOrderRef(order), restaurantSplit, now)];
    }

    method RecordErrandPayout(driver: User, errand: nat, serviceFee: Money, now: Time)
      modifies this
      ensures rows == Post(old(rows), ErrandPayout(driver, errand, serviceFee), now)
      ensures forall u :: Balance(rows, u) - Balance(old(rows), u)
                          == if u == driver then serviceFee - RoundHalfUp(serviceFee * 15, 100) else 0
    {
      forall u { ErrandMoves(rows, driver, errand, serviceFee, now, u); }
      rows := rows + [Payout(driver, ERRAND_PAYOUT, ErrandRef(errand), SplitFare(serviceFee, COMMISSION_RATE), now)];
    }

    method CreditWallet(user: User, amount: Money, now: Time)
      modifies this
      ensures rows == Post(old(rows), TopUp(user, amount), now)
      ensures forall u :: Balance(rows, u) - Balance(old(rows), u) == if u == user then amount else 0
    {
      forall u { WalletMoves(rows, user, amount, now, u); }
      rows := rows + [Entry(user, WALLET_TOPUP, NoJob, amount, 0, amount, now)];
    }

    /** Refused unless positive and covered; a granted request lowers the balance at once. */
    method RequestWithdrawal(user: User, amount: Money, now: Time) returns (r: WithdrawalResult)
      modifies this
      ensures rows == Post(old(rows), Withdrawal(user, amount), now)
      ensures r.Requested? <==> 0 < amount <= Balance(old(rows), user)
      ensures r.Requested? ==> Balance(rows, user) == Balance(old(rows), user) - amount >= 0
      ensures !r.Requested? ==> rows == old(rows)
    {
      if amount <= 0 { return NotPositive; }
      var view := GetBalance(rows, user, creditLimit);
      if amount > view.balance { return OverBalance(view.balance); }
      PostingMovesBalance(rows, Withdrawal(user, amount), now, user);
      var entry := Entry(user, WALLET_WITHDRAWAL, NoJob, amount, 0, -amount, now);
      rows := rows + [entry];
      r := Requested(entry);
    }
  }
}
