/** The statement: opening balance, rows, running balance, totals. */
module Statements {
  import opened Basics
  import opened Lists
  import opened Tables
  import opened Invariants

  const MAX_STATEMENT_ROWS: nat := 5000

  /** The local calendar day of an instant, in the timezone asked for. */
  type Calendar = int -> int

  datatype StatementRow = StatementRow(tx: TxId, date: int, kind: TxType, amount: int, balance: int)

  datatype Statement = Statement(opening: int, closing: int, moneyIn: int, moneyOut: int, rows: seq<StatementRow>)

  datatype StatementError = TooLarge

  /** `order` lists the settled rows of `u` by timestamp and then id. */
  ghost predicate Listed(order: seq<TxId>, rows: seq<Transaction>, u: UserId) {
    && Enumerates(order, rows, OwnSettled(u))
    && forall i, j :: 0 <= i < j < |order| && order[i] < |rows| && order[j] < |rows| ==> rows[order[i]].timestamp <= rows[order[j]].timestamp
  }

  function OwnSettled(u: UserId): Transaction -> bool {
    (t: Transaction) => Counted(t, u, None)
  }

  function DayOf(rows: seq<Transaction>, day: Calendar, i: TxId): int {
    if i < |rows| then day(rows[i].timestamp) else 0
  }

  function BeforeDay(rows: seq<Transaction>, day: Calendar, from: int): TxId -> bool {
    (i: TxId) => DayOf(rows, day, i) < from
  }

  function WithinDays(rows: seq<Transaction>, day: Calendar, from: int, to: int): TxId -> bool {
    (i: TxId) => from <= DayOf(rows, day, i) <= to
  }

  function NetAt(rows: seq<Transaction>): TxId -> int {
    (i: TxId) => if i < |rows| then Signed(rows[i]) else 0
  }

  function InAt(rows: seq<Transaction>): TxId -> int {
    (i: TxId) => if i < |rows| && rows[i].kind == Credit then rows[i].amount else 0
  }

  function OutAt(rows: seq<Transaction>): TxId -> int {
    (i: TxId) => if i < |rows| && rows[i].kind == Debit then rows[i].amount else 0
  }

  /** The balance before the first day. */
  function Opening(rows: seq<Transaction>, order: seq<TxId>, day: Calendar, from: int): int {
    SumBy(Filter(order, BeforeDay(rows, day, from)), NetAt(rows))
  }

  function Selected(rows: seq<Transaction>, order: seq<TxId>, day: Calendar, from: int, to: int): seq<TxId> {
    Filter(order, WithinDays(rows, day, from, to))
  }

  function RowAt(rows: seq<Transaction>, selected: seq<TxId>, opening: int, k: nat): StatementRow
    requires k < |selected| && selected[k] < |rows|
  {
    var t := rows[selected[k]];
    StatementRow(selected[k], t.timestamp, t.kind, t.amount, opening + SumBy(selected[..k + 1], NetAt(rows)))
  }

  ghost predicate InRange(order: seq<TxId>, rows: seq<Transaction>) {
    forall k :: 0 <= k < |order| ==> order[k] < |rows|
  }

  /** What a statement says: the balance after each row, the last of them, and the money in and out. */
  ghost predicate IsStatement(s: Statement, rows: seq<Transaction>, order: seq<TxId>, day: Calendar, from: int, to: int) {
    var selected := Selected(rows, order, day, from, to);
    && s.opening == Opening(rows, order, day, from)
    && s.closing == s.opening + SumBy(selected, NetAt(rows))
    && s.moneyIn == SumBy(selected, InAt(rows)) && s.moneyOut == SumBy(selected, OutAt(rows))
    && |s.rows| == |selected|
    && forall k :: 0 <= k < |selected| ==> selected[k] < |rows| && s.rows[k] == RowAt(rows, selected, s.opening, k)
  }

  lemma {:induction false} SelectedInRange(rows: seq<Transaction>, order: seq<TxId>, p: TxId -> bool)
    requires InRange(order, rows)
    ensures InRange(Filter(order, p), rows)
  {
    if order != [] {
      SelectedInRange(rows, order[..|order| - 1], p);
    }
  }

  lemma NoRowsYet(rows: seq<Transaction>, selected: seq<TxId>)
    ensures SumBy(selected[..0], NetAt(rows)) == SumBy(selected[..0], InAt(rows)) == SumBy(selected[..0], OutAt(rows)) == 0
  {
  }

  lemma SumsStep(rows: seq<Transaction>, selected: seq<TxId>, k: nat)
    requires k < |selected|
    ensures SumBy(selected[..k + 1], NetAt(rows)) == SumBy(selected[..k], NetAt(rows)) + NetAt(rows)(selected[k])
    ensures SumBy(selected[..k + 1], InAt(rows)) == SumBy(selected[..k], InAt(rows)) + InAt(rows)(selected[k])
    ensures SumBy(selected[..k + 1], OutAt(rows)) == SumBy(selected[..k], OutAt(rows)) + OutAt(rows)(selected[k])
  {
    assert selected[..k + 1][..k] == selected[..k];
  }

  /** Walks the period's rows once, keeping the running balance and the two totals. */
  method GetStatement(rows: seq<Transaction>, order: seq<TxId>, day: Calendar, from: int, to: int)
    returns (r: Result<Statement, StatementError>)
    requires InRange(order, rows)
    ensures r.Ok? <==> |Selected(rows, order, day, from, to)| <= 5_000
    ensures r.Ok? ==> IsStatement(r.value, rows, order, day, from, to)
    ensures r.Ok? ==> r.value.opening + r.value.moneyIn - r.value.moneyOut == r.value.closing
  {
    var selected: seq<TxId> := Selected(rows, order, day, from, to);
    hide Filter;
    SelectedInRange(rows, order, WithinDays(rows, day, from, to));
    if MAX_STATEMENT_ROWS < |selected| {
      return Err(TooLarge);
    }
    var opening := Opening(rows, order, day, from);
    hide SumBy;
    NoRowsYet(rows, selected);
    var balance, moneyIn, moneyOut := opening, 0, 0;
    var lines: seq<StatementRow> := [];
    for k := 0 to |selected|
      invariant |lines| == k
      invariant balance == opening + SumBy(selected[..k], NetAt(rows))
      invariant moneyIn == SumBy(selected[..k], InAt(rows)) && moneyOut == SumBy(selected[..k], OutAt(rows))
      invariant balance == opening + moneyIn - moneyOut
      invariant forall i :: 0 <= i < k ==> selected[i] < |rows| && lines[i] == RowAt(rows, selected, opening, i)
    {
      var i := selected[k];
      var t := rows[i];
      if t.kind == Credit {
        balance, moneyIn := balance + t.amount, moneyIn + t.amount;
      } else {
        balance, moneyOut := balance - t.amount, moneyOut + t.amount;
      }
      SumsStep(rows, selected, k);
      lines := lines + [StatementRow(i, t.timestamp, t.kind, t.amount, balance)];
    }
    assert selected[..|selected|] == selected;
    r := Ok(Statement(opening, balance, moneyIn, moneyOut, lines));
  }

  // ---------- What a statement shows ----------

  function CreditIn(): StatementRow -> int {
    (r: StatementRow) => if r.kind == Credit then r.amount else 0
  }

  function DebitIn(): StatementRow -> int {
    (r: StatementRow) => if r.kind == Debit then r.amount else 0
  }

  /** Each line is its row's, with the balance moved from the line above by plus or minus its amount; the last one closes. */
  lemma BalancesRun(s: Statement, rows: seq<Transaction>, order: seq<TxId>, day: Calendar, from: int, to: int, k: nat)
    requires IsStatement(s, rows, order, day, from, to)
    ensures k < |s.rows| ==>
              var line := s.rows[k];
              && line.tx < |rows| && line.date == rows[line.tx].timestamp && line.kind == rows[line.tx].kind && line.amount == rows[line.tx].amount
              && line.balance == (if k == 0 then s.opening else s.rows[k - 1].balance) + (if line.kind == Credit then line.amount else -line.amount)
    ensures s.closing == if s.rows == [] then s.opening else s.rows[|s.rows| - 1].balance
  {
    var selected := Selected(rows, order, day, from, to);
    assert selected[..|selected|] == selected;
    if k < |s.rows| {
      SumsStep(rows, selected, k);
      if k == 0 { NoRowsYet(rows, selected); }
    }
    hide Filter;
  }

  /** The money in is that of the lines that are credits, and the money out that of the debits. */
  lemma TotalsAreTheLines(s: Statement, rows: seq<Transaction>, order: seq<TxId>, day: Calendar, from: int, to: int)
    requires IsStatement(s, rows, order, day, from, to)
    ensures s.moneyIn == SumBy(s.rows, CreditIn()) && s.moneyOut == SumBy(s.rows, DebitIn())
  {
    var selected := Selected(rows, order, day, from, to);
    hide Filter;
    SumAgree(s.rows, CreditIn(), selected, InAt(rows));
    SumAgree(s.rows, DebitIn(), selected, OutAt(rows));
  }

  /** The lines are exactly the user's rows of those days that moved money, SUCCESSFUL or REVERSED since, each once and in the order of time. */
  lemma LinesAreThePeriod(s: Statement, rows: seq<Transaction>, order: seq<TxId>, u: UserId, day: Calendar, from: int, to: int, t: TxId)
    requires IsStatement(s, rows, order, day, from, to) && Listed(order, rows, u)
    ensures (exists k :: 0 <= k < |s.rows| && s.rows[k].tx == t) <==>
            t < |rows| && rows[t].user == u && (rows[t].status == TxStatus.Successful || rows[t].status == TxStatus.Reversed)
            && from <= day(rows[t].timestamp) <= to
    ensures forall i, j :: 0 <= i < j < |s.rows| ==> s.rows[i].tx != s.rows[j].tx && s.rows[i].date <= s.rows[j].date
  {
    var within := WithinDays(rows, day, from, to);
    var selected := Selected(rows, order, day, from, to);
    FilterIsWithin(order, within, t);
    assert t in selected <==> t in order && within(t);
    if t in selected {
      var k :| 0 <= k < |selected| && selected[k] == t;
      assert s.rows[k].tx == t;
    }
    forall i, j | 0 <= i < j < |s.rows| ensures s.rows[i].tx != s.rows[j].tx && s.rows[i].date <= s.rows[j].date {
      var a, b := FilterPlaces(order, within, i, j);
    }
  }

  lemma {:induction false} FilterIsWithin(order: seq<TxId>, p: TxId -> bool, t: TxId)
    ensures t in Filter(order, p) <==> t in order && p(t)
  {
    if order != [] {
      FilterIsWithin(order[..|order| - 1], p, t);
      assert t in order <==> t in order[..|order| - 1] || t == order[|order| - 1];
    }
  }

  /** Where two selected rows were in the list. */
  lemma {:induction false} FilterPlaces(order: seq<TxId>, p: TxId -> bool, i: nat, j: nat) returns (a: nat, b: nat)
    requires i < j < |Filter(order, p)|
    ensures a < b < |order| && order[a] == Filter(order, p)[i] && order[b] == Filter(order, p)[j]
  {
    var n := |order| - 1;
    if j < |Filter(order[..n], p)| {
      a, b := FilterPlaces(order[..n], p, i, j);
    } else {
      b := n;
      FilterIsWithin(order[..n], p, Filter(order, p)[i]);
      a :| 0 <= a < n && order[..n][a] == Filter(order, p)[i];
    }
  }

  // ---------- Statements of neighbouring periods ----------

  lemma OpeningCarries(rows: seq<Transaction>, order: seq<TxId>, day: Calendar, from: int, next: int)
    requires from <= next
    ensures Opening(rows, order, day, next) == Opening(rows, order, day, from) + SumBy(Selected(rows, order, day, from, next - 1), NetAt(rows))
  {
    SumsOfSplit(order, BeforeDay(rows, day, from), WithinDays(rows, day, from, next - 1), BeforeDay(rows, day, next), NetAt(rows));
  }

  lemma PeriodsSplit(rows: seq<Transaction>, order: seq<TxId>, day: Calendar, a: int, b: int, c: int)
    requires a <= b + 1 <= c + 1
    ensures Splits(order, WithinDays(rows, day, a, b), WithinDays(rows, day, b + 1, c), WithinDays(rows, day, a, c))
  {
  }

  /** No row of the second period is listed before one of the first. */
  predicate InDayOrder(rows: seq<Transaction>, order: seq<TxId>, day: Calendar, a: int, b: int, c: int) {
    NoInversion(order, WithinDays(rows, day, a, b), WithinDays(rows, day, b + 1, c))
  }

  /**
   * Statements of neighbouring periods compose: the first closes where the second opens, the totals
   * add up, and the two lists of rows joined are the combined period's rows, balances included,
   * exactly when no row of the second period comes before one of the first.
   */
  lemma StatementsCompose(rows: seq<Transaction>, order: seq<TxId>, day: Calendar, a: int, b: int, c: int,
                          first: Statement, second: Statement, both: Statement)
    requires a <= b + 1 <= c + 1
    requires IsStatement(first, rows, order, day, a, b)
    requires IsStatement(second, rows, order, day, b + 1, c)
    requires IsStatement(both, rows, order, day, a, c)
    ensures first.closing == second.opening && both.opening == first.opening && both.closing == second.closing
    ensures both.moneyIn == first.moneyIn + second.moneyIn && both.moneyOut == first.moneyOut + second.moneyOut
    ensures |both.rows| == |first.rows| + |second.rows|
    ensures first.rows + second.rows == both.rows <==> InDayOrder(rows, order, day, a, b, c)
  {
    TotalsCompose(rows, order, day, a, b, c);
    RowsCompose(rows, order, day, a, b, c, first, second, both);
    hide InDayOrder, SumBy, Filter, Opening;
  }

  lemma RowsCompose(rows: seq<Transaction>, order: seq<TxId>, day: Calendar, a: int, b: int, c: int,
                    first: Statement, second: Statement, both: Statement)
    requires a <= b + 1 <= c + 1
    requires IsStatement(first, rows, order, day, a, b)
    requires IsStatement(second, rows, order, day, b + 1, c)
    requires IsStatement(both, rows, order, day, a, c)
    requires first.closing == second.opening && both.opening == first.opening
    requires |Selected(rows, order, day, a, b)| + |Selected(rows, order, day, b + 1, c)| == |Selected(rows, order, day, a, c)|
    ensures first.rows + second.rows == both.rows <==> InDayOrder(rows, order, day, a, b, c)
  {
    var p, q, r := WithinDays(rows, day, a, b), WithinDays(rows, day, b + 1, c), WithinDays(rows, day, a, c);
    PeriodsSplit(rows, order, day, a, b, c);
    FilterJoinsIff(order, p, q, r);
    hide Splits, NoInversion, Opening, SumBy, Filter;
    assert InDayOrder(rows, order, day, a, b, c) <==> NoInversion(order, p, q);
    hide InDayOrder;
    var one, two, all := Filter(order, p), Filter(order, q), Filter(order, r);
    if one + two == all {
      RowsJoin(rows, one, two, first, second, both);
    } else {
      RowsDiffer(one, two, all, first.rows, second.rows, both.rows);
    }
  }

  lemma TotalsCompose(rows: seq<Transaction>, order: seq<TxId>, day: Calendar, a: int, b: int, c: int)
    requires a <= b + 1 <= c + 1
    ensures Opening(rows, order, day, b + 1) == Opening(rows, order, day, a) + SumBy(Selected(rows, order, day, a, b), NetAt(rows))
    ensures var one, two, all := Selected(rows, order, day, a, b), Selected(rows, order, day, b + 1, c), Selected(rows, order, day, a, c);
      && SumBy(one, NetAt(rows)) + SumBy(two, NetAt(rows)) == SumBy(all, NetAt(rows))
      && SumBy(one, InAt(rows)) + SumBy(two, InAt(rows)) == SumBy(all, InAt(rows))
      && SumBy(one, OutAt(rows)) + SumBy(two, OutAt(rows)) == SumBy(all, OutAt(rows))
      && |one| + |two| == |all|
  {
    var p, q, r := WithinDays(rows, day, a, b), WithinDays(rows, day, b + 1, c), WithinDays(rows, day, a, c);
    PeriodsSplit(rows, order, day, a, b, c);
    OpeningCarries(rows, order, day, a, b + 1);
    SumsOfSplit(order, p, q, r, NetAt(rows));
    SumsOfSplit(order, p, q, r, InAt(rows));
    SumsOfSplit(order, p, q, r, OutAt(rows));
    hide Splits, SumBy, Filter;
  }

  lemma PrefixOfBoth(one: seq<TxId>, two: seq<TxId>, m: nat)
    requires m < |two|
    ensures (one + two)[..|one| + m + 1] == one + two[..m + 1] && (one + two)[|one| + m] == two[m]
  {
  }

  lemma RowContinues(rows: seq<Transaction>, one: seq<TxId>, two: seq<TxId>, before: int, m: nat)
    requires m < |two| && two[m] < |rows|
    ensures RowAt(rows, one + two, before, |one| + m) == RowAt(rows, two, before + SumBy(one, NetAt(rows)), m)
  {
    hide SumBy;
    PrefixOfBoth(one, two, m);
    SumConcat(one, two[..m + 1], NetAt(rows));
  }

  lemma RowStays(rows: seq<Transaction>, one: seq<TxId>, two: seq<TxId>, before: int, k: nat)
    requires k < |one| && one[k] < |rows|
    ensures RowAt(rows, one + two, before, k) == RowAt(rows, one, before, k)
  {
    assert (one + two)[..k + 1] == one[..k + 1];
    hide SumBy;
  }

  lemma RowsJoin(rows: seq<Transaction>, one: seq<TxId>, two: seq<TxId>, first: Statement, second: Statement, both: Statement)
    requires second.opening == first.opening + SumBy(one, NetAt(rows)) && both.opening == first.opening
    requires |first.rows| == |one| && |second.rows| == |two| && |both.rows| == |one| + |two|
    requires forall k :: 0 <= k < |one| ==> one[k] < |rows| && first.rows[k] == RowAt(rows, one, first.opening, k)
    requires forall k :: 0 <= k < |two| ==> two[k] < |rows| && second.rows[k] == RowAt(rows, two, second.opening, k)
    requires forall k :: 0 <= k < |one + two| ==> (one + two)[k] < |rows| && both.rows[k] == RowAt(rows, one + two, both.opening, k)
    ensures first.rows + second.rows == both.rows
  {
    hide RowAt, SumBy;
    forall k | 0 <= k < |one| ensures first.rows[k] == both.rows[k] {
      RowStays(rows, one, two, first.opening, k);
      assert (one + two)[k] == one[k];
    }
    forall m | 0 <= m < |two| ensures second.rows[m] == both.rows[|one| + m] {
      RowContinues(rows, one, two, first.opening, m);
      assert (one + two)[|one| + m] == two[m];
    }
  }

  predicate Names(lines: seq<StatementRow>, ids: seq<TxId>) {
    |lines| == |ids| && forall k :: 0 <= k < |ids| ==> lines[k].tx == ids[k]
  }

  lemma RowsDiffer(one: seq<TxId>, two: seq<TxId>, all: seq<TxId>, first: seq<StatementRow>, second: seq<StatementRow>, both: seq<StatementRow>)
    requires one + two != all && Names(first, one) && Names(second, two) && Names(both, all)
    ensures first + second != both
  {
    if |one + two| == |all| {
      var k :| 0 <= k < |all| && (one + two)[k] != all[k];
      assert (first + second)[k].tx == (one + two)[k];
    }
  }

  /** In a timezone whose days never go backwards, neighbouring statements always join. */
  lemma SteadyCalendarsJoin(rows: seq<Transaction>, order: seq<TxId>, u: UserId, day: Calendar, a: int, b: int, c: int)
    requires Listed(order, rows, u)
    requires forall s: int, t: int :: s <= t ==> day(s) <= day(t)
    ensures InDayOrder(rows, order, day, a, b, c)
  {
    var p, q := WithinDays(rows, day, a, b), WithinDays(rows, day, b + 1, c);
    forall i, j | 0 <= i < j < |order| ensures !(q(order[i]) && p(order[j])) {
      assert order[i] in order && order[j] in order;
      assert rows[order[i]].timestamp <= rows[order[j]].timestamp;
      assert day(rows[order[i]].timestamp) <= day(rows[order[j]].timestamp);
    }
  }
}
