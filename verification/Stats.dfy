/** The wallet's day-by-day totals, and the balance at the start of the period. */
module Stats {
  import opened Basics
  import opened Lists
  import opened Tables
  import opened Ledger
  import opened Limits
  import opened Invariants
  import opened Statements

  datatype Key = MoneyIn | MoneyOut | Sent | Received

  /** What a settled row of `u` adds to a total. */
  function Weight(key: Key, u: UserId, t: Transaction): int {
    if !Counted(t, u, None) then 0
    else
      match key
      case MoneyIn => if t.kind == Credit then t.amount else 0
      case MoneyOut => if t.kind == Debit then t.amount else 0
      case Sent => if t.kind == Debit && t.transferId.Some? && t.reversalOf.None? then t.amount else 0
      case Received => if t.kind == Credit && t.transferId.Some? && t.reversalOf.None? then t.amount else 0
  }

  /** The rows the database looks at, by instant, and then one local day of them. */
  function OnDay(key: Key, u: UserId, day: Calendar, coarseFrom: int, d: int): Transaction -> int {
    (t: Transaction) => if coarseFrom <= t.timestamp && day(t.timestamp) == d then Weight(key, u, t) else 0
  }

  datatype DayTotals = DayTotals(date: int, moneyIn: int, moneyOut: int, sent: int, received: int)

  function Total(d: DayTotals, key: Key): int {
    match key
    case MoneyIn => d.moneyIn
    case MoneyOut => d.moneyOut
    case Sent => d.sent
    case Received => d.received
  }

  function TotalOf(key: Key): DayTotals -> int {
    (d: DayTotals) => Total(d, key)
  }

  /** The UTC midnight a day before the first local day. */
  function CoarseFrom(previousFrom: int): int {
    (previousFrom - 1) * DAY_MS
  }

  function DayAt(rows: seq<Transaction>, u: UserId, day: Calendar, coarse: int, d: int): DayTotals {
    DayTotals(d, SumBy(rows, OnDay(MoneyIn, u, day, coarse, d)), SumBy(rows, OnDay(MoneyOut, u, day, coarse, d)),
              SumBy(rows, OnDay(Sent, u, day, coarse, d)), SumBy(rows, OnDay(Received, u, day, coarse, d)))
  }

  function Series(rows: seq<Transaction>, u: UserId, day: Calendar, previousFrom: int, n: nat): seq<DayTotals> {
    seq(n, i => DayAt(rows, u, day, CoarseFrom(previousFrom), previousFrom + i))
  }

  datatype PeriodTotals = PeriodTotals(from: int, to: int, moneyIn: int, moneyOut: int, sent: int, received: int)

  function Totals(slice: seq<DayTotals>, from: int, to: int): PeriodTotals {
    PeriodTotals(from, to, SumBy(slice, TotalOf(MoneyIn)), SumBy(slice, TotalOf(MoneyOut)),
                 SumBy(slice, TotalOf(Sent)), SumBy(slice, TotalOf(Received)))
  }

  datatype WalletStats = WalletStats(current: PeriodTotals, previous: PeriodTotals, balance: int, atPeriodStart: int, daily: seq<DayTotals>)

  /** Totals of the last `days` days up to `today`, and of the `days` before. */
  function WalletStatsOf(db: Db, u: UserId, day: Calendar, today: int, days: nat): WalletStats
    requires 0 < days
  {
    var currentFrom := today - (days - 1);
    var previousFrom := currentFrom - days;
    var series := Series(db.rows, u, day, previousFrom, 2 * days);
    var current := Totals(series[days..], currentFrom, today);
    var balance := Stored(db.wallets, u);
    WalletStats(current, Totals(series[..days], previousFrom, currentFrom - 1), balance,
                balance - (current.moneyIn - current.moneyOut), series)
  }

  // ---------- The totals are those of the rows ----------

  /** What rows dated `from` to `to` add to a total. */
  function InDays(key: Key, u: UserId, day: Calendar, from: int, to: int): Transaction -> int {
    (t: Transaction) => if from <= day(t.timestamp) <= to then Weight(key, u, t) else 0
  }

  /** No timezone is more than 14 hours ahead. */
  ghost predicate RealCalendar(day: Calendar) {
    forall t: int :: day(t) * DAY_MS <= t + 14 * 60 * 60 * 1000
  }

  /** The coarse bound by instant drops no row of the days asked for. */
  lemma CoarseBoundIsHarmless(day: Calendar, previousFrom: int, t: int)
    requires RealCalendar(day) && previousFrom <= day(t)
    ensures CoarseFrom(previousFrom) <= t
  {
    assert previousFrom * DAY_MS <= day(t) * DAY_MS;
  }

  lemma TotalOfDay(rows: seq<Transaction>, u: UserId, day: Calendar, coarse: int, d: int, key: Key)
    ensures TotalOf(key)(DayAt(rows, u, day, coarse, d)) == SumBy(rows, OnDay(key, u, day, coarse, d))
  {
  }

  lemma {:induction false} DaysAddUp(rows: seq<Transaction>, u: UserId, day: Calendar, previousFrom: int, start: int, n: nat, key: Key)
    requires RealCalendar(day) && previousFrom <= start
    ensures SumBy(seq(n, i => DayAt(rows, u, day, CoarseFrom(previousFrom), start + i)), TotalOf(key))
            == SumBy(rows, InDays(key, u, day, start, start + n - 1))
  {
    var coarse := CoarseFrom(previousFrom);
    var days := seq(n, i => DayAt(rows, u, day, coarse, start + i));
    if n == 0 {
      SumZero(rows, InDays(key, u, day, start, start - 1));
    } else {
      DaysAddUp(rows, u, day, previousFrom, start, n - 1, key);
      assert days[..n - 1] == seq(n - 1, i => DayAt(rows, u, day, coarse, start + i));
      var d := start + n - 1;
      TotalOfDay(rows, u, day, coarse, d, key);
      forall i | 0 <= i < |rows|
        ensures InDays(key, u, day, start, d)(rows[i]) ==
                InDays(key, u, day, start, d - 1)(rows[i]) + OnDay(key, u, day, coarse, d)(rows[i])
      {
        if day(rows[i].timestamp) == d { CoarseBoundIsHarmless(day, previousFrom, rows[i].timestamp); }
      }
      SumOfSums(rows, InDays(key, u, day, start, d - 1), OnDay(key, u, day, coarse, d), InDays(key, u, day, start, d));
    }
  }

  function PeriodTotal(p: PeriodTotals, key: Key): int {
    match key
    case MoneyIn => p.moneyIn
    case MoneyOut => p.moneyOut
    case Sent => p.sent
    case Received => p.received
  }

  /** Each total is what the period's rows add up to: no row is dropped, counted twice or put in the wrong period. */
  lemma TotalsAreTheRows(db: Db, u: UserId, day: Calendar, today: int, days: nat, key: Key)
    requires 0 < days && RealCalendar(day)
    ensures var stats := WalletStatsOf(db, u, day, today, days);
      var from := today - (days - 1);
      && PeriodTotal(stats.current, key) == SumBy(db.rows, InDays(key, u, day, from, today))
      && PeriodTotal(stats.previous, key) == SumBy(db.rows, InDays(key, u, day, from - days, from - 1))
  {
    var from := today - (days - 1);
    var previousFrom := from - days;
    var series := Series(db.rows, u, day, previousFrom, 2 * days);
    DaysAddUp(db.rows, u, day, previousFrom, previousFrom, days, key);
    DaysAddUp(db.rows, u, day, previousFrom, from, days, key);
    SeriesHalves(db.rows, u, day, previousFrom, days);
    hide SumBy, DayAt;
  }

  lemma SeriesHalves(rows: seq<Transaction>, u: UserId, day: Calendar, previousFrom: int, days: nat)
    ensures var series := Series(rows, u, day, previousFrom, 2 * days);
      && series[..days] == seq(days, i => DayAt(rows, u, day, CoarseFrom(previousFrom), previousFrom + i))
      && series[days..] == seq(days, i => DayAt(rows, u, day, CoarseFrom(previousFrom), previousFrom + days + i))
  {
    hide DayAt;
  }

  // ---------- The same in the rows' own fields ----------

  predicate Moved(t: Transaction, u: UserId) {
    t.user == u && (t.status == TxStatus.Successful || t.status == TxStatus.Reversed)
  }

  function CreditedIn(u: UserId, day: Calendar, from: int, to: int): Transaction -> int {
    (t: Transaction) => if Moved(t, u) && t.kind == Credit && from <= day(t.timestamp) <= to then t.amount else 0
  }

  function DebitedIn(u: UserId, day: Calendar, from: int, to: int): Transaction -> int {
    (t: Transaction) => if Moved(t, u) && t.kind == Debit && from <= day(t.timestamp) <= to then t.amount else 0
  }

  /** Transfers to others, those taken back since included, and their taking back not. */
  function TransferredIn(u: UserId, kind: TxType, day: Calendar, from: int, to: int): Transaction -> int {
    (t: Transaction) =>
      if Moved(t, u) && t.kind == kind && t.transferId.Some? && t.reversalOf.None? && from <= day(t.timestamp) <= to then t.amount else 0
  }

  /** What the four totals of a period count. */
  lemma TotalsCount(db: Db, u: UserId, day: Calendar, today: int, days: nat)
    requires 0 < days && RealCalendar(day)
    ensures var stats, from := WalletStatsOf(db, u, day, today, days), today - (days - 1);
      && stats.current.from == from && stats.current.to == today && stats.previous.from == from - days && stats.previous.to == from - 1
      && stats.current.moneyIn == SumBy(db.rows, CreditedIn(u, day, from, today))
      && stats.current.moneyOut == SumBy(db.rows, DebitedIn(u, day, from, today))
      && stats.current.sent == SumBy(db.rows, TransferredIn(u, Debit, day, from, today))
      && stats.current.received == SumBy(db.rows, TransferredIn(u, Credit, day, from, today))
      && stats.previous.moneyIn == SumBy(db.rows, CreditedIn(u, day, from - days, from - 1))
      && stats.previous.moneyOut == SumBy(db.rows, DebitedIn(u, day, from - days, from - 1))
      && stats.previous.sent == SumBy(db.rows, TransferredIn(u, Debit, day, from - days, from - 1))
      && stats.previous.received == SumBy(db.rows, TransferredIn(u, Credit, day, from - days, from - 1))
  {
    hide SumBy, Series, InDays;
    var from := today - (days - 1);
    TotalsAreTheRows(db, u, day, today, days, MoneyIn);
    TotalsAreTheRows(db, u, day, today, days, MoneyOut);
    TotalsAreTheRows(db, u, day, today, days, Sent);
    TotalsAreTheRows(db, u, day, today, days, Received);
    WeightsInFields(db.rows, u, day, from, today);
    WeightsInFields(db.rows, u, day, from - days, from - 1);
  }

  lemma WeightInFields(t: Transaction, u: UserId, day: Calendar, from: int, to: int)
    ensures InDays(MoneyIn, u, day, from, to)(t) == CreditedIn(u, day, from, to)(t)
    ensures InDays(MoneyOut, u, day, from, to)(t) == DebitedIn(u, day, from, to)(t)
    ensures InDays(Sent, u, day, from, to)(t) == TransferredIn(u, Debit, day, from, to)(t)
    ensures InDays(Received, u, day, from, to)(t) == TransferredIn(u, Credit, day, from, to)(t)
    ensures NetBefore(u, day, from)(t) == MovedBefore(u, day, from)(t)
  {
    assert Counted(t, u, None) <==> Moved(t, u);
  }

  lemma WeightsInFields(rows: seq<Transaction>, u: UserId, day: Calendar, from: int, to: int)
    ensures SumBy(rows, InDays(MoneyIn, u, day, from, to)) == SumBy(rows, CreditedIn(u, day, from, to))
    ensures SumBy(rows, InDays(MoneyOut, u, day, from, to)) == SumBy(rows, DebitedIn(u, day, from, to))
    ensures SumBy(rows, InDays(Sent, u, day, from, to)) == SumBy(rows, TransferredIn(u, Debit, day, from, to))
    ensures SumBy(rows, InDays(Received, u, day, from, to)) == SumBy(rows, TransferredIn(u, Credit, day, from, to))
  {
    forall i | 0 <= i < |rows|
      ensures InDays(MoneyIn, u, day, from, to)(rows[i]) == CreditedIn(u, day, from, to)(rows[i])
      ensures InDays(MoneyOut, u, day, from, to)(rows[i]) == DebitedIn(u, day, from, to)(rows[i])
      ensures InDays(Sent, u, day, from, to)(rows[i]) == TransferredIn(u, Debit, day, from, to)(rows[i])
      ensures InDays(Received, u, day, from, to)(rows[i]) == TransferredIn(u, Credit, day, from, to)(rows[i])
    {
      WeightInFields(rows[i], u, day, from, to);
    }
    hide InDays, CreditedIn, DebitedIn, TransferredIn;
    SumAgree(rows, InDays(MoneyIn, u, day, from, to), rows, CreditedIn(u, day, from, to));
    SumAgree(rows, InDays(MoneyOut, u, day, from, to), rows, DebitedIn(u, day, from, to));
    SumAgree(rows, InDays(Sent, u, day, from, to), rows, TransferredIn(u, Debit, day, from, to));
    SumAgree(rows, InDays(Received, u, day, from, to), rows, TransferredIn(u, Credit, day, from, to));
  }

  // ---------- The balance at the start of the period ----------

  function NetBefore(u: UserId, day: Calendar, from: int): Transaction -> int {
    (t: Transaction) => if Counted(t, u, None) && day(t.timestamp) < from then Signed(t) else 0
  }

  function NetAfter(u: UserId, day: Calendar, today: int): Transaction -> int {
    (t: Transaction) => if Counted(t, u, None) && today < day(t.timestamp) then Signed(t) else 0
  }

  function NetWithin(u: UserId, day: Calendar, from: int, to: int): Transaction -> int {
    (t: Transaction) => if Counted(t, u, None) && from <= day(t.timestamp) <= to then Signed(t) else 0
  }

  function MovedBefore(u: UserId, day: Calendar, from: int): Transaction -> int {
    (t: Transaction) =>
      if Moved(t, u) && day(t.timestamp) < from then if t.kind == Credit then t.amount else -(t.amount as int) else 0
  }

  /** A statement opens with what the user's rows of earlier days add up to. */
  lemma OpeningCounts(rows: seq<Transaction>, order: seq<TxId>, u: UserId, day: Calendar, from: int)
    requires Listed(order, rows, u)
    ensures Opening(rows, order, day, from) == SumBy(rows, MovedBefore(u, day, from))
  {
    OpeningOverTable(rows, order, u, day, from);
    forall i | 0 <= i < |rows| ensures NetBefore(u, day, from)(rows[i]) == MovedBefore(u, day, from)(rows[i]) {
      WeightInFields(rows[i], u, day, from, from);
    }
    SumAgree(rows, NetBefore(u, day, from), rows, MovedBefore(u, day, from));
  }

  /** What the history older than the opening entry adds up to. */
  function NetUntil(u: UserId, since: Option<int>): Transaction -> int {
    (t: Transaction) => if Counted(t, u, None) && since.Some? && t.timestamp <= since.value then Signed(t) else 0
  }

  lemma {:induction false} NetSplits(rows: seq<Transaction>, u: UserId, day: Calendar, from: int, today: int, since: Option<int>)
    requires from <= today + 1
    ensures SumBy(rows, NetBefore(u, day, from)) + SumBy(rows, NetWithin(u, day, from, today)) + SumBy(rows, NetAfter(u, day, today))
            == SumBy(rows, NetOf(u, since)) + SumBy(rows, NetUntil(u, since))
  {
    if rows != [] {
      NetSplits(rows[..|rows| - 1], u, day, from, today, since);
    }
  }

  lemma {:induction false} NetOfPeriod(rows: seq<Transaction>, u: UserId, day: Calendar, from: int, to: int)
    ensures SumBy(rows, NetWithin(u, day, from, to))
            == SumBy(rows, InDays(MoneyIn, u, day, from, to)) - SumBy(rows, InDays(MoneyOut, u, day, from, to))
  {
    if rows != [] {
      var n := |rows| - 1;
      NetOfPeriod(rows[..n], u, day, from, to);
      assert Weight(MoneyIn, u, rows[n]) - Weight(MoneyOut, u, rows[n]) == if Counted(rows[n], u, None) then Signed(rows[n]) else 0;
    }
  }

  /** The statement's opening balance as a sum over the table. */
  lemma OpeningOverTable(rows: seq<Transaction>, order: seq<TxId>, u: UserId, day: Calendar, from: int)
    requires Listed(order, rows, u)
    ensures Opening(rows, order, day, from) == SumBy(rows, NetBefore(u, day, from))
  {
    var g := At(rows, NetBefore(u, day, from));
    forall i: TxId | i in order ensures g(i) == if BeforeDay(rows, day, from)(i) then NetAt(rows)(i) else 0 {
      assert i < |rows| && OwnSettled(u)(rows[i]);
    }
    SumOfFilter(order, BeforeDay(rows, day, from), NetAt(rows), g);
    SumInAnyOrder(order, rows, OwnSettled(u), NetBefore(u, day, from));
  }

  /**
   * The balance at the start of the period is the statement's opening balance for that day exactly
   * when what is dated after today, with the opening balance, adds up to the history before it.
   */
  lemma StartIsOpeningIff(db: Db, u: UserId, order: seq<TxId>, day: Calendar, today: int, days: nat)
    requires 0 < days && RealCalendar(day) && BalancedByRows(db) && Listed(order, db.rows, u)
    ensures WalletStatsOf(db, u, day, today, days).atPeriodStart == Opening(db.rows, order, day, today - (days - 1))
            <==> SumBy(db.rows, NetAfter(u, day, today)) + OpeningAmount(db.journal, u) == SumBy(db.rows, NetUntil(u, Since(db.journal, u)))
  {
    var from := today - (days - 1);
    TotalsAreTheRows(db, u, day, today, days, MoneyIn);
    TotalsAreTheRows(db, u, day, today, days, MoneyOut);
    NetOfPeriod(db.rows, u, day, from, today);
    NetSplits(db.rows, u, day, from, today, Since(db.journal, u));
    OpeningOverTable(db.rows, order, u, day, from);
    assert Stored(db.wallets, u) == OpeningAmount(db.journal, u) + SumBy(db.rows, NetOf(u, Since(db.journal, u)));
    hide SumBy, Opening, BalancedByRows, Series;
  }

  lemma NothingAfterToday(db: Db, u: UserId, day: Calendar)
    requires RowsOk(db) && forall s: int, t: int :: s <= t ==> day(s) <= day(t)
    ensures SumBy(db.rows, NetAfter(u, day, day(db.clock))) == 0
  {
    forall i | 0 <= i < |db.rows| ensures NetAfter(u, day, day(db.clock))(db.rows[i]) == 0 {
      assert RowOk(db.rows, i, db.transfers, db.ledgerStart, db.clock);
      assert day(db.rows[i].timestamp) <= day(db.clock);
    }
    hide RowsOk, NetAfter;
    SumZero(db.rows, NetAfter(u, day, day(db.clock)));
  }

  lemma NothingUntil(db: Db, u: UserId)
    requires FindOpening(db.journal, u).None?
    ensures OpeningAmount(db.journal, u) == 0 && SumBy(db.rows, NetUntil(u, Since(db.journal, u))) == 0
  {
    SumZero(db.rows, NetUntil(u, Since(db.journal, u)));
  }

  /** With no opening entry, in a timezone whose days never go backwards, the two always agree. */
  lemma StartIsOpening(db: Db, u: UserId, order: seq<TxId>, day: Calendar, days: nat)
    requires 0 < days && RealCalendar(day) && Inv(db) && Listed(order, db.rows, u)
    requires FindOpening(db.journal, u).None? && forall s: int, t: int :: s <= t ==> day(s) <= day(t)
    ensures WalletStatsOf(db, u, day, day(db.clock), days).atPeriodStart == Opening(db.rows, order, day, day(db.clock) - (days - 1))
  {
    var today := day(db.clock);
    assert BalancedByRows(db) && RowsOk(db);
    hide Inv, RowsOk, BalancedByRows;
    StartIsOpeningIff(db, u, order, day, today, days);
    NothingAfterToday(db, u, day);
    NothingUntil(db, u);
  }
}
