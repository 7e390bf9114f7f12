/** The append-only ledger: what each settlement writes, and what any run of settlements adds up to. */
module Ledger {
  import opened Domain
  import opened Commission

  type User = Driver

  datatype EntryType =
    | TRIP_PAYOUT | TRIP_CASH_COLLECTED | TRIP_TIP
    | DELIVERY_PAYOUT | DELIVERY_COD_LIABILITY | PARCEL_COD_CREDIT
    | FOOD_ORDER_DRIVER_PAYOUT | FOOD_ORDER_RESTAURANT_PAYOUT | ERRAND_PAYOUT
    | WALLET_TOPUP | WALLET_WITHDRAWAL

  datatype JobRef = TripRef(id: nat) | DeliveryRef(id: nat) | FoodOrderRef(id: nat) | ErrandRef(id: nat) | NoJob

  /** One row. Positive nets are owed to the user, negative ones by the user. */
  datatype Entry = Entry(
    user: User, kind: EntryType, job: JobRef, gross: Money, commission: Money, net: Money, at: Time)

  /** A call of the ledger service. */
  datatype Posting =
    | TripPayout(driver: User, trip: nat, fare: Money, tip: Option<Money>)
    | DeliveryPayout(driver: User, delivery: nat, fare: Money, cod: Option<Money>, sender: Option<User>)
    | FoodOrderPayouts(driver: User, owner: User, order: nat, deliveryFee: Money, itemsTotal: Money, rate: Rate)
    | ErrandPayout(driver: User, errand: nat, serviceFee: Money)
    | TopUp(user: User, amount: Money)
    | Withdrawal(user: User, amount: Money)

  function Balance(rows: seq<Entry>, u: User): (r: Money)
    decreases |rows|
  {
    if rows == [] then 0
    else Balance(rows[..|rows| - 1], u) + if rows[|rows| - 1].user == u then rows[|rows| - 1].net else 0
  }

  /** The sum over all rows, whoever they belong to. */
  function Total(rows: seq<Entry>): (r: Money)
    decreases |rows|
  {
    if rows == [] then 0 else Total(rows[..|rows| - 1]) + rows[|rows| - 1].net
  }

  function Payout(u: User, k: EntryType, job: JobRef, s: Split, at: Time): (r: Entry) {
    Entry(u, k, job, s.gross, s.commission, s.net, at)
  }

  function TipOf(tip: Option<Money>): (r: Money) {
    if tip.Some? && tip.value > 0 then tip.value else 0
  }

  function CodOf(cod: Option<Money>): (r: Money) {
    if cod.Some? && cod.value > 0 then cod.value else 0
  }

  /** The rows one settlement commits, together or not at all. */
  function RowsOf(p: Posting, at: Time): (r: seq<Entry>) {
    match p
    case TripPayout(d, trip, fare, tip) =>
      var split := SplitFare(fare, COMMISSION_RATE);
      [Payout(d, TRIP_PAYOUT, TripRef(trip), split, at),
       Entry(d, TRIP_CASH_COLLECTED, TripRef(trip), split.gross, 0, -split.gross, at)]
      + if TipOf(tip) > 0 then [Entry(d, TRIP_TIP, TripRef(trip), TipOf(tip), 0, TipOf(tip), at)] else []
    case DeliveryPayout(d, delivery, fare, cod, sender) =>
      [Payout(d, DELIVERY_PAYOUT, DeliveryRef(delivery), SplitFare(fare, COMMISSION_RATE), at)]
      + (if CodOf(cod) > 0 then
           [Entry(d, DELIVERY_COD_LIABILITY, DeliveryRef(delivery), CodOf(cod), 0, -CodOf(cod), at)]
           + (if sender.Some? then
                [Entry(sender.value, PARCEL_COD_CREDIT, DeliveryRef(delivery), CodOf(cod), 0, CodOf(cod), at)]
              else [])
         else [])
    case FoodOrderPayouts(d, owner, order, fee, items, rate) =>
      [Payout(d, FOOD_ORDER_DRIVER_PAYOUT, FoodOrderRef(order), SplitFare(fee, COMMISSION_RATE), at),
       Payout(owner, FOOD_ORDER_RESTAURANT_PAYOUT, FoodOrderRef(order), SplitFare(items, rate), at)]
    case ErrandPayout(d, errand, fee) =>
      [Payout(d, ERRAND_PAYOUT, ErrandRef(errand), SplitFare(fee, COMMISSION_RATE), at)]
    case TopUp(u, amount) => [Entry(u, WALLET_TOPUP, NoJob, amount, 0, amount, at)]
    case Withdrawal(u, amount) => [Entry(u, WALLET_WITHDRAWAL, NoJob, amount, 0, -amount, at)]
  }

  /** What is split adds up, what was collected or paid out goes down whole, and what is credited goes up whole. */
  ghost predicate Reconciles(e: Entry) {
    match e.kind
    case TRIP_CASH_COLLECTED => e.commission == 0 && e.net == -e.gross
    case DELIVERY_COD_LIABILITY => e.commission == 0 && e.net == -e.gross
    case WALLET_WITHDRAWAL => e.commission == 0 && e.net == -e.gross
    case TRIP_TIP => e.commission == 0 && e.net == e.gross
    case PARCEL_COD_CREDIT => e.commission == 0 && e.net == e.gross
    case WALLET_TOPUP => e.commission == 0 && e.net == e.gross
    case _ => e.commission + e.net == e.gross
  }

  ghost predicate IsAbout(p: Posting, job: JobRef) {
    match p
    case TripPayout(_, id, _, _) => job == TripRef(id)
    case DeliveryPayout(_, id, _, _, _) => job == DeliveryRef(id)
    case FoodOrderPayouts(_, _, id, _, _, _) => job == FoodOrderRef(id)
    case ErrandPayout(_, id, _) => job == ErrandRef(id)
    case _ => job == NoJob
  }

  /**
   Every row of a settlement reconciles, is dated now and is about its job; and no two are of one type, so
   the table's unique (job, type) keys never stand in the way of one settlement, and always in that of a second.
   */
  lemma RowsReconcile(p: Posting, at: Time)
    ensures var rows := RowsOf(p, at);
            && (forall e | e in rows :: Reconciles(e) && e.at == at && IsAbout(p, e.job))
            && (forall i, j | 0 <= i < j < |rows| :: rows[i].kind != rows[j].kind)
  {
    match p
    case TripPayout(_, _, fare, _) => SplitConserves(fare, COMMISSION_RATE);
    case DeliveryPayout(_, _, fare, _, _) => SplitConserves(fare, COMMISSION_RATE);
    case FoodOrderPayouts(_, _, _, fee, items, rate) =>
      SplitConserves(fee, COMMISSION_RATE);
      SplitConserves(items, rate);
    case ErrandPayout(_, _, fee) => SplitConserves(fee, COMMISSION_RATE);
    case _ =>
  }

  /** Only a withdrawal can be refused: it must be positive and covered by the balance. */
  predicate Accepted(rows: seq<Entry>, p: Posting) {
    p.Withdrawal? ==> 0 < p.amount <= Balance(rows, p.user)
  }

  function Post(rows: seq<Entry>, p: Posting, at: Time): (r: seq<Entry>) {
    if Accepted(rows, p) then rows + RowsOf(p, at) else rows
  }

  function PostAll(ps: seq<(Posting, Time)>): (r: seq<Entry>)
    decreases |ps|
  {
    if ps == [] then []
    else Post(PostAll(ps[..|ps| - 1]), ps[|ps| - 1].0, ps[|ps| - 1].1)
  }

  // ---- Sums ----

  lemma {:induction false} SumsConcat(a: seq<Entry>, b: seq<Entry>, u: User)
    ensures Balance(a + b, u) == Balance(a, u) + Balance(b, u)
    ensures Total(a + b) == Total(a) + Total(b)
    decreases |b|
  {
    if b == [] {
      assert a + b == a;
    } else {
      assert (a + b)[..|a + b| - 1] == a + b[..|b| - 1];
      SumsConcat(a, b[..|b| - 1], u);
    }
  }

  function SumOfBalances(rows: seq<Entry>, users: seq<User>): (r: Money)
    decreases |users|
  {
    if users == [] then 0
    else SumOfBalances(rows, users[..|users| - 1]) + Balance(rows, users[|users| - 1])
  }

  /** Adding a row moves the sum of the balances by its net, provided its user is listed once. */
  lemma {:induction false} RowMovesSum(rows: seq<Entry>, e: Entry, users: seq<User>)
    requires Distinct(users)
    ensures SumOfBalances(rows + [e], users) == SumOfBalances(rows, users) + if e.user in users then e.net else 0
    decreases |users|
  {
    if users != [] {
      var n := |users| - 1;
      RowMovesSum(rows, e, users[..n]);
      assert (rows + [e])[..|rows|] == rows;
      assert users == users[..n] + [users[n]];
    }
  }

  lemma {:induction false} NoRowsNoMoney(users: seq<User>)
    ensures SumOfBalances([], users) == 0
    decreases |users|
  {
    if users != [] { NoRowsNoMoney(users[..|users| - 1]); }
  }

  /** The balances of all users add up to the sum of all rows. */
  lemma {:induction false} BalancesMakeTotal(rows: seq<Entry>, users: seq<User>)
    requires Distinct(users) && forall e | e in rows :: e.user in users
    ensures SumOfBalances(rows, users) == Total(rows)
    decreases |rows|
  {
    if rows == [] {
      NoRowsNoMoney(users);
    } else {
      var n := |rows| - 1;
      assert rows == rows[..n] + [rows[n]];
      BalancesMakeTotal(rows[..n], users);
      RowMovesSum(rows[..n], rows[n], users);
    }
  }

  // ---- What the books should say ----

  /** An accounting kept beside the ledger, from the amounts of the calls alone. */
  datatype Books = Books(
    topUps: Money, withdrawn: Money, tips: Money, tripCommission: Money,
    feesGross: Money, feesCommission: Money, unattributedCod: Money)

  const OPENING := Books(0, 0, 0, 0, 0, 0, 0)

  function CommissionOn(gross: Money, rate: Rate): (r: Money) {
    RoundHalfUp(gross * rate.num, rate.den)
  }

  function Book(b: Books, p: Posting): (r: Books) {
    match p
    case TripPayout(_, _, fare, tip) =>
      b.(tips := b.tips + TipOf(tip), tripCommission := b.tripCommission + CommissionOn(fare, COMMISSION_RATE))
    case DeliveryPayout(_, _, fare, cod, sender) =>
      b.(feesGross := b.feesGross + fare,
         feesCommission := b.feesCommission + CommissionOn(fare, COMMISSION_RATE),
         unattributedCod := b.unattributedCod + if sender.None? then CodOf(cod) else 0)
    case FoodOrderPayouts(_, _, _, fee, items, rate) =>
      b.(feesGross := b.feesGross + fee + items,
         feesCommission := b.feesCommission + CommissionOn(fee, COMMISSION_RATE) + CommissionOn(items, rate))
    case ErrandPayout(_, _, fee) =>
      b.(feesGross := b.feesGross + fee, feesCommission := b.feesCommission + CommissionOn(fee, COMMISSION_RATE))
    case TopUp(_, amount) => b.(topUps := b.topUps + amount)
    case Withdrawal(_, amount) => b.(withdrawn := b.withdrawn + amount)
  }

  function BookAll(ps: seq<(Posting, Time)>): (r: Books)
    decreases |ps|
  {
    if ps == [] then OPENING
    else
      var before := ps[..|ps| - 1];
      var p := ps[|ps| - 1].0;
      if Accepted(PostAll(before), p) then Book(BookAll(before), p) else BookAll(before)
  }

  function Worth(b: Books): (r: Money) {
    b.topUps - b.withdrawn + b.tips - b.tripCommission + b.feesGross - b.feesCommission - b.unattributedCod
  }

  lemma TotalOfOne(e: Entry)
    ensures Total([e]) == e.net
  {
    assert [e][..0] == [];
  }

  lemma TotalOfTwo(e: Entry, f: Entry)
    ensures Total([e, f]) == e.net + f.net
  {
    assert [e, f][..1] == [e];
    TotalOfOne(e);
  }

  lemma TotalOfThree(e: Entry, f: Entry, g: Entry)
    ensures Total([e, f, g]) == e.net + f.net + g.net
  {
    assert [e, f, g][..2] == [e, f];
    TotalOfTwo(e, f);
  }

  lemma PostingTotal(b: Books, p: Posting, at: Time)
    ensures Total(RowsOf(p, at)) == Worth(Book(b, p)) - Worth(b)
  {
    var rows := RowsOf(p, at);
    if p.TripPayout? {
      SplitConserves(p.fare, COMMISSION_RATE);
    } else if p.DeliveryPayout? {
      SplitConserves(p.fare, COMMISSION_RATE);
    } else if p.FoodOrderPayouts? {
      SplitConserves(p.deliveryFee, COMMISSION_RATE);
      SplitConserves(p.itemsTotal, p.rate);
    } else if p.ErrandPayout? {
      SplitConserves(p.serviceFee, COMMISSION_RATE);
    }
    if |rows| == 1 { assert rows == [rows[0]]; TotalOfOne(rows[0]); }
    else if |rows| == 2 { assert rows == [rows[0], rows[1]]; TotalOfTwo(rows[0], rows[1]); }
    else { assert rows == [rows[0], rows[1], rows[2]]; TotalOfThree(rows[0], rows[1], rows[2]); }
  }

  /**
   Conservation over any run of settlements, top-ups and withdrawals: the balances of all users add up to
   top-ups less withdrawals, plus tips less commission on trips, plus gross less commission on parcels,
   food and errands. The two COD legs cancel; what is missing is exactly the COD of parcels with no sender.
   */
  lemma {:induction false} LedgerConserves(ps: seq<(Posting, Time)>, users: seq<User>)
    requires Distinct(users) && forall e | e in PostAll(ps) :: e.user in users
    ensures SumOfBalances(PostAll(ps), users) == Worth(BookAll(ps))
  {
    TotalIsWorth(ps);
    BalancesMakeTotal(PostAll(ps), users);
  }

  lemma {:induction false} TotalIsWorth(ps: seq<(Posting, Time)>)
    ensures Total(PostAll(ps)) == Worth(BookAll(ps))
    decreases |ps|
  {
    if ps != [] {
      var n := |ps| - 1;
      TotalIsWorth(ps[..n]);
      var rows := PostAll(ps[..n]);
      if Accepted(rows, ps[n].0) {
        SumsConcat(rows, RowsOf(ps[n].0, ps[n].1), 0);
        PostingTotal(BookAll(ps[..n]), ps[n].0, ps[n].1);
      }
    }
  }
}
