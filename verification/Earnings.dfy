/** getDriverEarnings: aggregates over the payout rows, and the loop that buckets them by day. */
module Earnings {
  import opened Domain
  import opened Commission
  import opened Ledger

  const DAY: nat := 86_400_000

  predicate IsPayout(k: EntryType) {
    k.TRIP_PAYOUT? || k.DELIVERY_PAYOUT? || k.FOOD_ORDER_DRIVER_PAYOUT? || k.ERRAND_PAYOUT?
  }

  /** `where: { userId, type: { in: PAYOUT_TYPES }, createdAt: { gte: from } }` */
  function PayoutsSince(rows: seq<Entry>, u: User, from: int): (r: seq<Entry>)
    decreases |rows|
  {
    if rows == [] then []
    else
      var before := PayoutsSince(rows[..|rows| - 1], u, from);
      var e := rows[|rows| - 1];
      if e.user == u && IsPayout(e.kind) && e.at >= from then before + [e] else before
  }

  /** Net and number of the rows in a half-open stretch of time; None means no end. */
  function NetIn(rows: seq<Entry>, from: int, to: Option<int>): (r: Money)
    decreases |rows|
  {
    if rows == [] then 0
    else NetIn(rows[..|rows| - 1], from, to) + if Within(rows[|rows| - 1], from, to) then rows[|rows| - 1].net else 0
  }

  function JobsIn(rows: seq<Entry>, from: int, to: Option<int>): (r: nat)
    decreases |rows|
  {
    if rows == [] then 0
    else JobsIn(rows[..|rows| - 1], from, to) + if Within(rows[|rows| - 1], from, to) then 1 else 0
  }

  predicate Within(e: Entry, from: int, to: Option<int>) {
    from <= e.at && (to.None? || e.at < to.value)
  }

  /** Adjoining stretches add up. */
  lemma {:induction false} Adjoin(rows: seq<Entry>, a: int, b: int, c: Option<int>)
    requires a <= b && (c.Some? ==> b <= c.value)
    ensures NetIn(rows, a, Some(b)) + NetIn(rows, b, c) == NetIn(rows, a, c)
    ensures JobsIn(rows, a, Some(b)) + JobsIn(rows, b, c) == JobsIn(rows, a, c)
    decreases |rows|
  {
    if rows != [] { Adjoin(rows[..|rows| - 1], a, b, c); }
  }

  /** Fetching from an earlier moment changes no sum that starts later. */
  lemma {:induction false} FetchedEnough(rows: seq<Entry>, u: User, earlier: int, from: int, to: Option<int>)
    requires earlier <= from
    ensures NetIn(PayoutsSince(rows, u, earlier), from, to) == NetIn(PayoutsSince(rows, u, from), from, to)
    ensures JobsIn(PayoutsSince(rows, u, earlier), from, to) == JobsIn(PayoutsSince(rows, u, from), from, to)
    decreases |rows|
  {
    if rows != [] {
      var n := |rows| - 1;
      FetchedEnough(rows[..n], u, earlier, from, to);
      SnocSums(PayoutsSince(rows[..n], u, earlier), rows[n], from, to);
      SnocSums(PayoutsSince(rows[..n], u, from), rows[n], from, to);
    }
  }

  lemma SnocSums(rows: seq<Entry>, e: Entry, from: int, to: Option<int>)
    ensures NetIn(rows + [e], from, to) == NetIn(rows, from, to) + if Within(e, from, to) then e.net else 0
    ensures JobsIn(rows + [e], from, to) == JobsIn(rows, from, to) + if Within(e, from, to) then 1 else 0
  {
    assert (rows + [e])[..|rows|] == rows;
  }

  /** With no rows dated at or after `end`, an open stretch is the stretch up to `end`. */
  lemma {:induction false} NothingLater(rows: seq<Entry>, from: int, end: int)
    requires forall e | e in rows :: e.at < end
    ensures NetIn(rows, from, None) == NetIn(rows, from, Some(end))
    ensures JobsIn(rows, from, None) == JobsIn(rows, from, Some(end))
    decreases |rows|
  {
    if rows != [] {
      var n := |rows| - 1;
      assert rows[n] in rows;
      NothingLater(rows[..n], from, end);
    }
  }

  datatype Day = Day(amount: Money, jobs: nat)

  function SumAmounts(days: seq<Day>): (r: Money)
    decreases |days|
  {
    if days == [] then 0 else SumAmounts(days[..|days| - 1]) + days[|days| - 1].amount
  }

  function SumJobs(days: seq<Day>): (r: nat)
    decreases |days|
  {
    if days == [] then 0 else SumJobs(days[..|days| - 1]) + days[|days| - 1].jobs
  }

  /** Each bucket holds what fell on its day. */
  ghost predicate Bucketed(rows: seq<Entry>, startOfWeek: int, days: seq<Day>) {
    forall k | 0 <= k < |days| ::
      && days[k].amount == NetIn(rows, startOfWeek + k * DAY, Some(startOfWeek + (k + 1) * DAY))
      && days[k].jobs == JobsIn(rows, startOfWeek + k * DAY, Some(startOfWeek + (k + 1) * DAY))
  }

  /** The buckets together hold the whole stretch they cover. */
  lemma {:induction false} BucketsCover(rows: seq<Entry>, startOfWeek: int, days: seq<Day>)
    requires Bucketed(rows, startOfWeek, days)
    ensures SumAmounts(days) == NetIn(rows, startOfWeek, Some(startOfWeek + |days| * DAY))
    ensures SumJobs(days) == JobsIn(rows, startOfWeek, Some(startOfWeek + |days| * DAY))
    decreases |days|
  {
    if days == [] {
      Empty(rows, startOfWeek);
    } else {
      var n := |days| - 1;
      BucketsCover(rows, startOfWeek, days[..n]);
      Adjoin(rows, startOfWeek, startOfWeek + n * DAY, Some(startOfWeek + (n + 1) * DAY));
    }
  }

  lemma {:induction false} Empty(rows: seq<Entry>, a: int)
    ensures NetIn(rows, a, Some(a)) == 0 && JobsIn(rows, a, Some(a)) == 0
    decreases |rows|
  {
    if rows != [] { Empty(rows[..|rows| - 1], a); }
  }

  datatype Report = Report(
    today: Money, week: Money, jobsToday: nat, jobsThisWeek: nat, daily: seq<Day>, lastWeek: Money, todayIndex: int)

  ghost predicate Filled(rows: seq<Entry>, startOfWeek: int, daily: seq<Day>, lastWeekTotal: Money) {
    && |daily| == 7 && Bucketed(rows, startOfWeek, daily)
    && lastWeekTotal == NetIn(rows, startOfWeek - 7 * DAY, Some(startOfWeek))
  }

  lemma FilledSnoc(rows: seq<Entry>, row: Entry, startOfWeek: int, daily: seq<Day>, total: Money)
    requires Filled(rows, startOfWeek, daily, total) && row.at >= startOfWeek - 7 * DAY
    ensures row.at < startOfWeek ==> Filled(rows + [row], startOfWeek, daily, total + row.net)
    ensures row.at >= startOfWeek ==>
              var idx := (row.at - startOfWeek) / DAY;
              && idx >= 0
              && Filled(rows + [row], startOfWeek,
                        if idx < 7 then daily[idx := Day(daily[idx].amount + row.net, daily[idx].jobs + 1)] else daily,
                        total)
  {
    BucketedSnoc(rows, row, startOfWeek, daily);
    SnocSums(rows, row, startOfWeek - 7 * DAY, Some(startOfWeek));
  }

  /** The loop over the fortnight's rows: one bucket per day of the week, and one total for the week before. */
  method FillDays(recentRows: seq<Entry>, startOfWeek: int) returns (daily: seq<Day>, lastWeekTotal: Money)
    requires forall e | e in recentRows :: e.at >= startOfWeek - 7 * DAY
    ensures |daily| == 7 && Bucketed(recentRows, startOfWeek, daily)
    ensures lastWeekTotal == NetIn(recentRows, startOfWeek - 7 * DAY, Some(startOfWeek))
  {
    daily := seq(7, _ => Day(0, 0));
    lastWeekTotal := 0;
    for i := 0 to |recentRows|
      invariant Filled(recentRows[..i], startOfWeek, daily, lastWeekTotal)
    {
      var row := recentRows[i];
      assert row in recentRows;
      assert recentRows[..i + 1] == recentRows[..i] + [row];
      FilledSnoc(recentRows[..i], row, startOfWeek, daily, lastWeekTotal);
      if row.at < startOfWeek {
        lastWeekTotal := lastWeekTotal + row.net;
        continue;
      }
      var idx := (row.at - startOfWeek) / DAY;
      if 0 <= idx < 7 {
        daily := daily[idx := Day(daily[idx].amount + row.net, daily[idx].jobs + 1)];
      }
    }
    assert recentRows[..|recentRows|] == recentRows;
  }

  /**
   The days are uniform and `startOfDay` is day `dow` of the week. The buckets and last week's total are
   exact whatever the dates of the rows; rows dated past the week are in the aggregates but in no bucket.
   */
  method GetDriverEarnings(rows: seq<Entry>, u: User, startOfDay: int, dow: nat) returns (r: Report)
    requires dow < 7
    ensures |r.daily| == 7 && r.todayIndex == dow
    ensures var startOfWeek := startOfDay - dow * DAY;
            var fetched := PayoutsSince(rows, u, startOfWeek - 7 * DAY);
            && Bucketed(fetched, startOfWeek, r.daily)
            && (forall k | 0 <= k < 7 ::
                  var day := startOfDay + (k - dow) * 86_400_000;
                  var end := Some(day + 86_400_000);
                  r.daily[k] == Day(NetIn(fetched, day, end), JobsIn(fetched, day, end)))
            && r.lastWeek == NetIn(fetched, startOfWeek - 7 * DAY, Some(startOfWeek))
            && r.today == NetIn(fetched, startOfDay, None) && r.jobsToday == JobsIn(fetched, startOfDay, None)
            && r.week == NetIn(fetched, startOfWeek, None) && r.jobsThisWeek == JobsIn(fetched, startOfWeek, None)
  {
    var startOfWeek := startOfDay - dow * DAY;
    var startOfLastWeek := startOfWeek - 7 * DAY;
    var recentRows := PayoutsSince(rows, u, startOfLastWeek);
    SinceBound(rows, u, startOfLastWeek);
    var daily, lastWeekTotal := FillDays(recentRows, startOfWeek);
    FetchedEnough(rows, u, startOfLastWeek, startOfDay, None);
    FetchedEnough(rows, u, startOfLastWeek, startOfWeek, None);
    TodayIndex(dow);
    r := Report(
      NetIn(PayoutsSince(rows, u, startOfDay), startOfDay, None),
      NetIn(PayoutsSince(rows, u, startOfWeek), startOfWeek, None),
      JobsIn(PayoutsSince(rows, u, startOfDay), startOfDay, None),
      JobsIn(PayoutsSince(rows, u, startOfWeek), startOfWeek, None),
      daily, lastWeekTotal, (startOfDay - startOfWeek) / DAY);
  }

  /** A row goes into the bucket of its day, and into none if it is older than the week or later than its end. */
  lemma BucketedSnoc(rows: seq<Entry>, row: Entry, startOfWeek: int, days: seq<Day>)
    requires |days| == 7 && Bucketed(rows, startOfWeek, days)
    ensures var idx := (row.at - startOfWeek) / DAY;
            Bucketed(rows + [row], startOfWeek,
                     if row.at >= startOfWeek && idx < 7
                     then days[idx := Day(days[idx].amount + row.net, days[idx].jobs + 1)] else days)
  {
    var idx := (row.at - startOfWeek) / DAY;
    forall k | 0 <= k < 7
      ensures var a, b := startOfWeek + k * DAY, Some(startOfWeek + (k + 1) * DAY);
              && NetIn(rows + [row], a, b) == NetIn(rows, a, b) + (if k == idx then row.net else 0)
              && JobsIn(rows + [row], a, b) == JobsIn(rows, a, b) + (if k == idx then 1 else 0)
    {
      DaySnoc(rows, row, startOfWeek, k);
    }
  }

  lemma DaySnoc(rows: seq<Entry>, row: Entry, startOfWeek: int, k: int)
    ensures var a, b := startOfWeek + k * DAY, Some(startOfWeek + (k + 1) * DAY);
            var onDay := k == (row.at - startOfWeek) / DAY;
            && NetIn(rows + [row], a, b) == NetIn(rows, a, b) + (if onDay then row.net else 0)
            && JobsIn(rows + [row], a, b) == JobsIn(rows, a, b) + (if onDay then 1 else 0)
  {
    SnocSums(rows, row, startOfWeek + k * DAY, Some(startOfWeek + (k + 1) * DAY));
    IndexIsDay(row.at - startOfWeek, k);
  }

  lemma TodayIndex(dow: nat)
    ensures dow * DAY / DAY == dow
  {
  }

  lemma {:induction false} SinceBound(rows: seq<Entry>, u: User, from: int)
    ensures forall e | e in PayoutsSince(rows, u, from) :: e.at >= from && e in rows && e.user == u && IsPayout(e.kind)
    decreases |rows|
  {
    if rows != [] { SinceBound(rows[..|rows| - 1], u, from); }
  }

  /** The day of an offset is the only day whose stretch contains it. */
  lemma IndexIsDay(offset: int, k: int)
    ensures k == offset / DAY <==> k * DAY <= offset < (k + 1) * DAY
  {
  }

  /**
   What the bars miss, for any rows: the week's aggregates exceed the seven bars by exactly the rows dated
   past the end of the week.
   */
  lemma {:induction false} BarsAndTheRest(fetched: seq<Entry>, startOfWeek: int, days: seq<Day>)
    requires |days| == 7 && Bucketed(fetched, startOfWeek, days)
    ensures SumAmounts(days) + NetIn(fetched, startOfWeek + 7 * DAY, None) == NetIn(fetched, startOfWeek, None)
    ensures SumJobs(days) + JobsIn(fetched, startOfWeek + 7 * DAY, None) == JobsIn(fetched, startOfWeek, None)
  {
    BucketsCover(fetched, startOfWeek, days);
    Adjoin(fetched, startOfWeek, startOfWeek + 7 * DAY, None);
  }

  /**
   The screen adds up: with no rows dated after today, the seven bars make the week's aggregates, today's
   bar is today's aggregate, and last week's total with the week make everything fetched.
   */
  lemma {:induction false} BarsMatchAggregates(rows: seq<Entry>, u: User, startOfDay: int, dow: nat, days: seq<Day>)
    requires dow < 7 && |days| == 7
    requires Bucketed(PayoutsSince(rows, u, startOfDay - (dow + 7) * DAY), startOfDay - dow * DAY, days)
    requires forall e | e in rows :: e.at < startOfDay + DAY
    ensures var startOfWeek := startOfDay - dow * DAY;
            var fetched := PayoutsSince(rows, u, startOfWeek - 7 * DAY);
            && SumAmounts(days) == NetIn(fetched, startOfWeek, None)
            && SumJobs(days) == JobsIn(fetched, startOfWeek, None)
            && days[dow] == Day(NetIn(fetched, startOfDay, None), JobsIn(fetched, startOfDay, None))
            && NetIn(fetched, startOfWeek - 7 * DAY, Some(startOfWeek)) + SumAmounts(days) == Total(fetched)
  {
    var startOfWeek := startOfDay - dow * DAY;
    var fetched := PayoutsSince(rows, u, startOfWeek - 7 * DAY);
    SinceBound(rows, u, startOfWeek - 7 * DAY);
    WeekIsBars(fetched, startOfWeek, dow, days);
    TodayIsItsBar(fetched, startOfWeek, dow, days);
    WeeksMakeAll(fetched, startOfWeek);
  }

  lemma WeekIsBars(fetched: seq<Entry>, startOfWeek: int, dow: nat, days: seq<Day>)
    requires dow < 7 && |days| == 7 && Bucketed(fetched, startOfWeek, days)
    requires forall e | e in fetched :: e.at < startOfWeek + dow * DAY + DAY
    ensures SumAmounts(days) == NetIn(fetched, startOfWeek, None)
    ensures SumJobs(days) == JobsIn(fetched, startOfWeek, None)
  {
    var end := startOfWeek + 7 * DAY;
    assert dow * DAY + DAY <= 7 * DAY;
    BucketsCover(fetched, startOfWeek, days);
    NothingLater(fetched, startOfWeek, end);
  }

  lemma TodayIsItsBar(fetched: seq<Entry>, startOfWeek: int, dow: nat, days: seq<Day>)
    requires dow < |days| && Bucketed(fetched, startOfWeek, days)
    requires forall e | e in fetched :: e.at < startOfWeek + dow * DAY + DAY
    ensures var startOfDay := startOfWeek + dow * DAY;
            days[dow] == Day(NetIn(fetched, startOfDay, None), JobsIn(fetched, startOfDay, None))
  {
    var startOfDay := startOfWeek + dow * DAY;
    assert startOfWeek + (dow + 1) * DAY == startOfDay + DAY;
    NothingLater(fetched, startOfDay, startOfDay + DAY);
  }

  lemma WeeksMakeAll(fetched: seq<Entry>, startOfWeek: int)
    requires forall e | e in fetched :: e.at >= startOfWeek - 7 * DAY
    ensures NetIn(fetched, startOfWeek - 7 * DAY, Some(startOfWeek)) + NetIn(fetched, startOfWeek, None)
         == Total(fetched)
  {
    Adjoin(fetched, startOfWeek - 7 * DAY, startOfWeek, None);
    NetOfAll(fetched, startOfWeek - 7 * DAY);
  }

  lemma {:induction false} NetOfAll(rows: seq<Entry>, from: int)
    requires forall e | e in rows :: e.at >= from
    ensures NetIn(rows, from, None) == Total(rows)
    decreases |rows|
  {
    if rows != [] {
      assert rows[|rows| - 1] in rows;
      NetOfAll(rows[..|rows| - 1], from);
    }
  }

  // ---- What a settlement adds to the screen ----

  predicate Counts(e: Entry, u: User, from: int) {
    e.user == u && IsPayout(e.kind) && e.at >= from
  }

  /** The user's recent payouts, summed and counted over the whole ledger. */
  function NetEarned(rows: seq<Entry>, u: User, from: int): (r: Money)
    decreases |rows|
  {
    if rows == [] then 0
    else NetEarned(rows[..|rows| - 1], u, from) + if Counts(rows[|rows| - 1], u, from) then rows[|rows| - 1].net else 0
  }

  function JobsEarned(rows: seq<Entry>, u: User, from: int): (r: nat)
    decreases |rows|
  {
    if rows == [] then 0
    else JobsEarned(rows[..|rows| - 1], u, from) + if Counts(rows[|rows| - 1], u, from) then 1 else 0
  }

  /** They are what the screen's aggregates read. */
  lemma {:induction false} EarnedIsAggregate(rows: seq<Entry>, u: User, from: int)
    ensures NetIn(PayoutsSince(rows, u, from), from, None) == NetEarned(rows, u, from)
    ensures JobsIn(PayoutsSince(rows, u, from), from, None) == JobsEarned(rows, u, from)
    decreases |rows|
  {
    if rows != [] {
      var n := |rows| - 1;
      EarnedIsAggregate(rows[..n], u, from);
      SnocSums(PayoutsSince(rows[..n], u, from), rows[n], from, None);
    }
  }

  lemma {:induction false} EarnedConcat(a: seq<Entry>, b: seq<Entry>, u: User, from: int)
    ensures NetEarned(a + b, u, from) == NetEarned(a, u, from) + NetEarned(b, u, from)
    ensures JobsEarned(a + b, u, from) == JobsEarned(a, u, from) + JobsEarned(b, u, from)
    decreases |b|
  {
    if b == [] {
      assert a + b == a;
    } else {
      var n := |b| - 1;
      EarnedConcat(a, b[..n], u, from);
      assert (a + b)[..|a + b| - 1] == a + b[..n];
    }
  }

  lemma EarnedByOne(e: Entry, u: User, from: int)
    ensures NetEarned([e], u, from) == if Counts(e, u, from) then e.net else 0
    ensures JobsEarned([e], u, from) == if Counts(e, u, from) then 1 else 0
  {
    assert [e][..0] == [];
  }

  lemma EarnedByMany(e: Entry, rest: seq<Entry>, u: User, from: int)
    ensures NetEarned([e] + rest, u, from) == (if Counts(e, u, from) then e.net else 0) + NetEarned(rest, u, from)
    ensures JobsEarned([e] + rest, u, from) == (if Counts(e, u, from) then 1 else 0) + JobsEarned(rest, u, from)
  {
    EarnedConcat([e], rest, u, from);
    EarnedByOne(e, u, from);
  }

  /** Of the rows of a settlement only the first can be a driver's payout. */
  lemma OnlyFirstCounts(rows: seq<Entry>, u: User, from: int)
    requires 1 <= |rows| <= 3 && forall i | 1 <= i < |rows| :: !IsPayout(rows[i].kind)
    ensures NetEarned(rows, u, from) == if Counts(rows[0], u, from) then rows[0].net else 0
    ensures JobsEarned(rows, u, from) == if Counts(rows[0], u, from) then 1 else 0
  {
    assert rows == [rows[0]] + rows[1..];
    EarnedByMany(rows[0], rows[1..], u, from);
    if |rows| > 1 {
      assert rows[1..] == [rows[1]] + rows[2..];
      EarnedByMany(rows[1], rows[2..], u, from);
      if |rows| > 2 {
        assert rows[2..] == [rows[2]];
        EarnedByOne(rows[2], u, from);
      }
    }
  }

  /** The driver a settlement pays, and the fare or fee it is for; nobody for a credit or a withdrawal. */
  function DriverOf(p: Posting): (r: Option<User>) {
    match p
    case TripPayout(d, _, _, _) => Some(d)
    case DeliveryPayout(d, _, _, _, _) => Some(d)
    case FoodOrderPayouts(d, _, _, _, _, _) => Some(d)
    case ErrandPayout(d, _, _) => Some(d)
    case _ => None
  }

  function FeeOf(p: Posting): (r: Money) {
    match p
    case TripPayout(_, _, fare, _) => fare
    case DeliveryPayout(_, _, fare, _, _) => fare
    case FoodOrderPayouts(_, _, _, fee, _, _) => fee
    case ErrandPayout(_, _, fee) => fee
    case _ => 0
  }

  lemma FirstRow(p: Posting, at: Time)
    ensures var rows := RowsOf(p, at);
            && 1 <= |rows| <= 3 && (forall i | 1 <= i < |rows| :: !IsPayout(rows[i].kind)) && rows[0].at == at
            && (IsPayout(rows[0].kind) <==> DriverOf(p).Some?)
            && (DriverOf(p).Some? ==>
                  rows[0].user == DriverOf(p).value && rows[0].net == FeeOf(p) - RoundHalfUp(FeeOf(p) * 15, 100))
  {
    SplitConserves(FeeOf(p), COMMISSION_RATE);
  }

  /**
   What a settlement adds to the earnings screen: for the driver of the job the fare or fee less 15%, and one
   job. Tips, cash collected, COD, the restaurant's share, credits and withdrawals are no earnings of anybody's.
   */
  lemma EarningsMove(rows: seq<Entry>, p: Posting, at: Time, u: User, from: int)
    requires from <= at && Accepted(rows, p)
    ensures var before, after := PayoutsSince(rows, u, from), PayoutsSince(Post(rows, p, at), u, from);
            && NetIn(after, from, None) - NetIn(before, from, None)
               == (if DriverOf(p) == Some(u) then FeeOf(p) - RoundHalfUp(FeeOf(p) * 15, 100) else 0)
            && JobsIn(after, from, None) - JobsIn(before, from, None) == (if DriverOf(p) == Some(u) then 1 else 0)
  {
    EarnedIsAggregate(rows, u, from);
    EarnedIsAggregate(Post(rows, p, at), u, from);
    EarnedConcat(rows, RowsOf(p, at), u, from);
    FirstRow(p, at);
    OnlyFirstCounts(RowsOf(p, at), u, from);
  }
}
