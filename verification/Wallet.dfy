/** One user's side of the ledger: what a settlement does to them, and who reads the debt. */
module Wallet {
  import opened Domain
  import opened Commission
  import opened Ledger

  // ---- What one settlement does to each balance ----

  /** What a settlement is worth to one user, stated without the rows. */
  function Effect(p: Posting, u: User): (r: Money) {
    match p
    case TripPayout(d, _, fare, tip) =>
      if u == d then TipOf(tip) - CommissionOn(fare, COMMISSION_RATE) else 0
    case DeliveryPayout(d, _, fare, cod, sender) =>
      (if u == d then fare - CommissionOn(fare, COMMISSION_RATE) - CodOf(cod) else 0)
      + (if sender == Some(u) then CodOf(cod) else 0)
    case FoodOrderPayouts(d, owner, _, fee, items, rate) =>
      (if u == d then fee - CommissionOn(fee, COMMISSION_RATE) else 0)
      + (if u == owner then items - CommissionOn(items, rate) else 0)
    case ErrandPayout(d, _, fee) => if u == d then fee - CommissionOn(fee, COMMISSION_RATE) else 0
    case TopUp(v, amount) => if u == v then amount else 0
    case Withdrawal(v, amount) => if u == v then -amount else 0
  }

  lemma BalanceOfOne(e: Entry, u: User)
    ensures Balance([e], u) == if e.user == u then e.net else 0
  {
    assert [e][..0] == [];
  }

  lemma BalanceOfMany(e: Entry, rest: seq<Entry>, u: User)
    ensures Balance([e] + rest, u) == (if e.user == u then e.net else 0) + Balance(rest, u)
  {
    SumsConcat([e], rest, u);
    BalanceOfOne(e, u);
  }

  lemma RowsBalance(p: Posting, at: Time, u: User)
    ensures Balance(RowsOf(p, at), u) == Effect(p, u)
  {
    var rows := RowsOf(p, at);
    if p.TripPayout? {
      SplitConserves(p.fare, COMMISSION_RATE);
    } else if p.DeliveryPayout? {
      SplitConserves(p.fare, COMMISSION_RATE);
    } else if p.FoodOrderPayouts? {
      SplitConserves(p.deliveryFee, COMMISSION_RATE);
      SplitConserves(p.itemsTotal, p.rate);
    } else if p.ErrandPayout? {
      SplitConserves(p.serviceFee, COMMISSION_RATE);
    }
    assert rows == [rows[0]] + rows[1..];
    BalanceOfMany(rows[0], rows[1..], u);
    if |rows| > 1 {
      assert rows[1..] == [rows[1]] + rows[2..];
      BalanceOfMany(rows[1], rows[2..], u);
      if |rows| > 2 {
        assert rows[2..] == [rows[2]];
        BalanceOfOne(rows[2], u);
      }
    }
  }

  /**
   A settlement moves each balance by exactly its effect. A cash trip leaves the driver owing the commission
   less the tip; a COD parcel moves the cash from the driver's balance to the sender's.
   */
  lemma PostingMovesBalance(rows: seq<Entry>, p: Posting, at: Time, u: User)
    ensures Balance(Post(rows, p, at), u) == Balance(rows, u) + if Accepted(rows, p) then Effect(p, u) else 0
  {
    if Accepted(rows, p) {
      SumsConcat(rows, RowsOf(p, at), u);
      RowsBalance(p, at, u);
    }
  }

  // ---- The same in figures ----

  /** A cash trip: the driver has the fare in hand and owes 15% of it; a tip above nothing is theirs whole. */
  lemma TripMoves(rows: seq<Entry>, d: User, trip: nat, fare: Money, tip: Option<Money>, at: Time, u: User)
    ensures Balance(Post(rows, TripPayout(d, trip, fare, tip), at), u) - Balance(rows, u)
         == if u != d then 0
            else (if tip.Some? && tip.value > 0 then tip.value else 0) - RoundHalfUp(fare * 15, 100)
  {
    PostingMovesBalance(rows, TripPayout(d, trip, fare, tip), at, u);
  }

  /**
   A parcel: the fare less 15% for the driver; cash on delivery goes off the driver's balance and onto the
   sender's.
   */
  lemma ParcelMoves(
    rows: seq<Entry>, d: User, id: nat, fare: Money, cod: Option<Money>, sender: Option<User>, at: Time, u: User)
    ensures var cash := if cod.Some? && cod.value > 0 then cod.value else 0;
            Balance(Post(rows, DeliveryPayout(d, id, fare, cod, sender), at), u) - Balance(rows, u)
            == (if u == d then fare - RoundHalfUp(fare * 15, 100) - cash else 0)
               + (if sender == Some(u) then cash else 0)
  {
    PostingMovesBalance(rows, DeliveryPayout(d, id, fare, cod, sender), at, u);
  }

  /** A food order: the delivery fee less 15% for the driver, the items less the restaurant's rate for its owner. */
  lemma FoodMoves(
    rows: seq<Entry>, d: User, owner: User, id: nat, fee: Money, items: Money, rate: Rate, at: Time, u: User)
    ensures Balance(Post(rows, FoodOrderPayouts(d, owner, id, fee, items, rate), at), u) - Balance(rows, u)
         == (if u == d then fee - RoundHalfUp(fee * 15, 100) else 0)
          + (if u == owner then items - RoundHalfUp(items * rate.num, rate.den) else 0)
  {
    PostingMovesBalance(rows, FoodOrderPayouts(d, owner, id, fee, items, rate), at, u);
  }

  /** An errand: the service fee less 15% for the driver. */
  lemma ErrandMoves(rows: seq<Entry>, d: User, id: nat, fee: Money, at: Time, u: User)
    ensures Balance(Post(rows, ErrandPayout(d, id, fee), at), u) - Balance(rows, u)
         == if u == d then fee - RoundHalfUp(fee * 15, 100) else 0
  {
    PostingMovesBalance(rows, ErrandPayout(d, id, fee), at, u);
  }

  /** A credit and a withdrawal that is not refused: the amount, up or down, and nobody else's balance. */
  lemma WalletMoves(rows: seq<Entry>, v: User, amount: Money, at: Time, u: User)
    ensures Balance(Post(rows, TopUp(v, amount), at), u) - Balance(rows, u) == if u == v then amount else 0
    ensures Balance(Post(rows, Withdrawal(v, amount), at), u) - Balance(rows, u)
         == if u == v && 0 < amount <= Balance(rows, v) then -amount else 0
  {
    PostingMovesBalance(rows, TopUp(v, amount), at, u);
    PostingMovesBalance(rows, Withdrawal(v, amount), at, u);
  }

  // ---- Who can owe ----

  ghost predicate Drives(p: Posting, u: User) {
    (p.TripPayout? || p.DeliveryPayout? || p.FoodOrderPayouts? || p.ErrandPayout?) && p.driver == u
  }

  /** Amounts a caller can send: totals and credits are not negative. */
  ghost predicate Sensible(p: Posting) {
    match p
    case FoodOrderPayouts(_, _, _, _, items, _) => items >= 0
    case TopUp(_, amount) => amount >= 0
    case _ => true
  }

  /** Whoever never drives never owes: in every run of serialised calls their balance is at least zero. */
  lemma {:induction false} NonDriversNeverOwe(ps: seq<(Posting, Time)>, u: User)
    requires forall i | 0 <= i < |ps| :: Sensible(ps[i].0) && !Drives(ps[i].0, u)
    ensures Balance(PostAll(ps), u) >= 0
    decreases |ps|
  {
    if ps != [] {
      var n := |ps| - 1;
      NonDriversNeverOwe(ps[..n], u);
      assert ps[..n] == ps[..n] && Sensible(ps[n].0);
      PostingMovesBalance(PostAll(ps[..n]), ps[n].0, ps[n].1, u);
      if ps[n].0.FoodOrderPayouts? {
        SplitConserves(ps[n].0.itemsTotal, ps[n].0.rate);
      }
    }
  }

  /** The write of requestWithdrawal, after its balance read. */
  function WriteWithdrawal(rows: seq<Entry>, u: User, amount: Money, at: Time): (r: seq<Entry>) {
    rows + RowsOf(Withdrawal(u, amount), at)
  }

  /**
   Serialising matters: two withdrawals that both read the balance before either wrote are both accepted,
   and the wallet stays at or above zero exactly when it covers the two together.
   */
  lemma RacingWithdrawals(rows: seq<Entry>, u: User, first: Money, second: Money, at: Time)
    requires Accepted(rows, Withdrawal(u, first)) && Accepted(rows, Withdrawal(u, second))
    ensures Balance(WriteWithdrawal(WriteWithdrawal(rows, u, first, at), u, second, at), u) >= 0
            <==> first + second <= Balance(rows, u)
    ensures Balance(Post(Post(rows, Withdrawal(u, first), at), Withdrawal(u, second), at), u) >= 0
  {
    var once := WriteWithdrawal(rows, u, first, at);
    SumsConcat(rows, RowsOf(Withdrawal(u, first), at), u);
    SumsConcat(once, RowsOf(Withdrawal(u, second), at), u);
    RowsBalance(Withdrawal(u, first), at, u);
    RowsBalance(Withdrawal(u, second), at, u);
    PostingMovesBalance(rows, Withdrawal(u, first), at, u);
    PostingMovesBalance(Post(rows, Withdrawal(u, first), at), Withdrawal(u, second), at, u);
  }

  // ---- Three readers of one debt ----

  predicate HasRows(rows: seq<Entry>, u: User) {
    exists i | 0 <= i < |rows| :: rows[i].user == u
  }

  lemma {:induction false} NoRowsNoBalance(rows: seq<Entry>, u: User)
    requires !HasRows(rows, u)
    ensures Balance(rows, u) == 0
    decreases |rows|
  {
    if rows != [] {
      var n := |rows| - 1;
      assert rows[n].user != u;
      forall i | 0 <= i < n ensures rows[..n][i].user != u { assert rows[..n][i] == rows[i]; }
      NoRowsNoBalance(rows[..n], u);
    }
  }

  /** groupBy userId, sum netAmount: users without rows are absent. */
  function GroupSums(rows: seq<Entry>, ids: set<User>): (r: map<User, Money>) {
    map u | u in ids && HasRows(rows, u) :: Balance(rows, u)
  }

  datatype Level = OK | NOTICE | WARNING | BLOCKED

  datatype WalletView = WalletView(
    balance: Money, owed: Money, creditLimit: Option<Money>, blocked: bool, level: Level,
    remainingCredit: Option<Money>, amountToSettle: Money)

  /** getBalance; `limit` is DRIVER_CREDIT_LIMIT_PKR in paisa, zero switching the cap off. */
  function GetBalance(rows: seq<Entry>, u: User, limit: nat): (r: WalletView) {
    var balance := Balance(rows, u);
    var owed := if balance < 0 then -balance else 0;
    var blocked := limit != 0 && balance <= -(limit as int);
    var ratioAtLeast := (n: nat, d: nat) => limit != 0 && owed * d >= limit * n;
    WalletView(
      balance, owed,
      if limit == 0 then None else Some(-(limit as int)),
      blocked,
      if blocked then BLOCKED
      else if ratioAtLeast(3, 4) then WARNING
      else if ratioAtLeast(1, 2) then NOTICE
      else OK,
      if limit == 0 then None else Some(if limit > owed then limit - owed else 0),
      if blocked then owed else 0)
  }

  /** listDriverBalances, for one driver on the list. */
  function OpsBlocked(rows: seq<Entry>, ids: set<User>, u: User, limit: nat): (r: bool) {
    var sums := GroupSums(rows, ids);
    var balance := if u in sums then sums[u] else 0;
    limit != 0 && balance <= -(limit as int)
  }

  /** driversOverCreditLimit: one grouped query for the batch, then a loop over the groups. */
  method DriversOverCreditLimit(rows: seq<Entry>, driverIds: seq<User>, limit: nat) returns (blocked: seq<User>)
    ensures forall u :: u in blocked <==> u in driverIds && GetBalance(rows, u, limit).blocked
  {
    blocked := [];
    if limit == 0 || driverIds == [] { return; }
    var sums := GroupSums(rows, SetOf(driverIds));
    var todo := sums.Keys;
    while todo != {}
      invariant todo <= sums.Keys
      invariant forall u :: u in blocked <==> u in sums && u !in todo && sums[u] <= -(limit as int)
      decreases todo
    {
      var u :| u in todo;
      if sums[u] <= -(limit as int) {
        blocked := blocked + [u];
      }
      todo := todo - {u};
    }
    forall u | u in driverIds && u !in sums ensures Balance(rows, u) == 0 {
      NoRowsNoBalance(rows, u);
    }
  }

  /** The wallet, the ops list and the matcher's batch agree on who is blocked, drivers without rows included. */
  lemma ReadersAgree(rows: seq<Entry>, ids: set<User>, u: User, limit: nat)
    requires u in ids
    ensures OpsBlocked(rows, ids, u, limit) == GetBalance(rows, u, limit).blocked
  {
    if !HasRows(rows, u) {
      NoRowsNoBalance(rows, u);
    }
  }

  /**
   The wallet screen is consistent with itself: no credit is left exactly when blocked, and the cap off means
   off.
   */
  lemma WalletConsistent(rows: seq<Entry>, u: User, limit: nat)
    ensures var w := GetBalance(rows, u, limit);
            && (w.blocked <==> w.level == BLOCKED)
            && (w.blocked <==> w.remainingCredit == Some(0))
            && (w.remainingCredit.None? <==> limit == 0)
            && (w.blocked ==> w.amountToSettle == w.owed >= limit && w.balance + w.amountToSettle == 0)
  {
  }

  /** Each level, and the credit left, as a band of the debt against the limit. */
  lemma WalletBands(rows: seq<Entry>, u: User, limit: nat)
    ensures var w, debt := GetBalance(rows, u, limit), -Balance(rows, u);
            && w.balance == -debt && w.owed == (if debt > 0 then debt else 0)
            && (limit == 0 ==> w.level == OK && w.remainingCredit.None? && w.creditLimit.None?)
            && (limit > 0 ==>
                  && (w.level == BLOCKED <==> limit <= debt)
                  && (w.level == WARNING <==> 3 * limit <= 4 * debt && debt < limit)
                  && (w.level == NOTICE <==> limit <= 2 * debt && 4 * debt < 3 * limit)
                  && (w.level == OK <==> 2 * debt < limit)
                  && w.creditLimit == Some(-(limit as int))
                  && w.remainingCredit == Some(if debt <= 0 then limit else if limit <= debt then 0 else limit - debt))
  {
  }

  function Rank(l: Level): (r: nat) {
    match l case OK => 0 case NOTICE => 1 case WARNING => 2 case BLOCKED => 3
  }

  /** The ladder never warns less as the debt grows, whichever settlement made it grow. */
  lemma LadderMonotone(a: seq<Entry>, b: seq<Entry>, u: User, limit: nat)
    requires Balance(b, u) <= Balance(a, u)
    ensures Rank(GetBalance(a, u, limit).level) <= Rank(GetBalance(b, u, limit).level)
  {
  }
}
