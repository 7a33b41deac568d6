/** The facts insights are made of: category totals, people paid, typical and unusual spends. */
module Facts {
  import opened Basics
  import opened Lists
  import opened Tables

  const PERIOD_DAYS: int := 30
  const HISTORY_DAYS: int := 90
  const UNUSUAL_MULTIPLE: int := 3
  const UNUSUAL_MINIMUM: int := 500_000

  /** `None` is the uncategorised key. */
  type Category = Option<nat>

  /** A completed row of the last 90 days, with its local day. Amounts are in kobo. */
  datatype FactRow = FactRow(kind: TxType, amount: Amount, category: Category, day: int, isWithdrawal: bool, counterparty: Option<UserId>)

  function AmountOf(): FactRow -> int {
    (r: FactRow) => r.amount
  }

  predicate IsSpend(r: FactRow) {
    r.kind == Debit && !r.isWithdrawal
  }

  function SpendIn(from: int, to: int): FactRow -> bool {
    (r: FactRow) => IsSpend(r) && from <= r.day <= to
  }

  function CurrentFrom(today: int): int {
    today - (PERIOD_DAYS - 1)
  }

  function PreviousFrom(today: int): int {
    CurrentFrom(today) - PERIOD_DAYS
  }

  function HistoryFrom(today: int): int {
    today - (HISTORY_DAYS - 1)
  }

  function CurrentSpends(rows: seq<FactRow>, today: int): seq<FactRow> {
    Filter(rows, SpendIn(CurrentFrom(today), today))
  }

  function PreviousSpends(rows: seq<FactRow>, today: int): seq<FactRow> {
    Filter(rows, SpendIn(PreviousFrom(today), CurrentFrom(today) - 1))
  }

  function SpendSince(from: int): FactRow -> bool {
    (r: FactRow) => IsSpend(r) && from <= r.day
  }

  /** Everything fetched for the 90 days; nothing bounds it above. */
  function HistorySpends(rows: seq<FactRow>, today: int): seq<FactRow> {
    Filter(rows, SpendSince(HistoryFrom(today)))
  }

  function Spent(spends: seq<FactRow>): int {
    SumBy(spends, AmountOf())
  }

  // ---------- Categories ----------

  function InCategory(c: Category): FactRow -> bool {
    (r: FactRow) => r.category == c
  }

  function SpentOn(spends: seq<FactRow>, c: Category): int {
    SumBy(Filter(spends, InCategory(c)), AmountOf())
  }

  /** The distinct categories of some rows, in order of first appearance. */
  function Keys(spends: seq<FactRow>): (keys: seq<Category>)
    ensures forall i, j :: 0 <= i < j < |keys| ==> keys[i] != keys[j]
    ensures forall i :: 0 <= i < |spends| ==> spends[i].category in keys
    ensures forall c :: c in keys ==> exists i :: 0 <= i < |spends| && spends[i].category == c
  {
    if spends == [] then []
    else
      var n := |spends| - 1;
      var keys := Keys(spends[..n]);
      if spends[n].category in keys then keys else keys + [spends[n].category]
  }

  datatype CategoryTotal = CategoryTotal(category: Category, current: int, previous: int)

  /** Biggest this period first, then biggest before. */
  function Bigger(): (CategoryTotal, CategoryTotal) -> bool {
    (a: CategoryTotal, b: CategoryTotal) => b.current < a.current || (a.current == b.current && b.previous < a.previous)
  }

  function Unsorted(current: seq<FactRow>, previous: seq<FactRow>): seq<CategoryTotal> {
    var keys := Keys(current + previous);
    seq(|keys|, i requires 0 <= i < |keys| => CategoryTotal(keys[i], SpentOn(current, keys[i]), SpentOn(previous, keys[i])))
  }

  function Categories(rows: seq<FactRow>, today: int): seq<CategoryTotal> {
    SortBy(Unsorted(CurrentSpends(rows, today), PreviousSpends(rows, today)), Bigger())
  }

  function CurrentOf(): CategoryTotal -> int {
    (c: CategoryTotal) => c.current
  }

  function PreviousOf(): CategoryTotal -> int {
    (c: CategoryTotal) => c.previous
  }

  function SpentBy(spends: seq<FactRow>): Category -> int {
    (c: Category) => SpentOn(spends, c)
  }

  function RowOn(r: FactRow): Category -> int {
    (c: Category) => if r.category == c then r.amount else 0
  }

  lemma {:induction false} RowOnceAmongKeys(keys: seq<Category>, r: FactRow)
    requires forall i, j :: 0 <= i < j < |keys| ==> keys[i] != keys[j]
    ensures SumBy(keys, RowOn(r)) == if r.category in keys then r.amount else 0
  {
    if keys != [] {
      var n := |keys| - 1;
      RowOnceAmongKeys(keys[..n], r);
      assert r.category in keys <==> r.category in keys[..n] || r.category == keys[n];
    }
  }

  /** Spending splits between the categories: nothing is left out and nothing counts twice. */
  lemma {:induction false} CategoriesPartition(keys: seq<Category>, spends: seq<FactRow>)
    requires forall i, j :: 0 <= i < j < |keys| ==> keys[i] != keys[j]
    requires forall i :: 0 <= i < |spends| ==> spends[i].category in keys
    ensures SumBy(keys, SpentBy(spends)) == Spent(spends)
  {
    if spends == [] {
      SumZero(keys, SpentBy(spends));
    } else {
      var n := |spends| - 1;
      CategoriesPartition(keys, spends[..n]);
      RowOnceAmongKeys(keys, spends[n]);
      forall c: Category ensures SpentBy(spends)(c) == SpentBy(spends[..n])(c) + RowOn(spends[n])(c) {
        SumAppend(Filter(spends[..n], InCategory(c)), spends[n], AmountOf());
      }
      SumOfSums(keys, SpentBy(spends[..n]), RowOn(spends[n]), SpentBy(spends));
    }
  }

  /** The category list accounts for all spending of both periods exactly, and is in order. */
  lemma CategoriesAccountForSpending(rows: seq<FactRow>, today: int)
    ensures var list := Categories(rows, today);
      && SumBy(list, CurrentOf()) == Spent(CurrentSpends(rows, today))
      && SumBy(list, PreviousOf()) == Spent(PreviousSpends(rows, today))
      && InOrder(list, Bigger())
  {
    var current, previous := CurrentSpends(rows, today), PreviousSpends(rows, today);
    UnsortedAccounts(current, previous);
    SortKeeps(Unsorted(current, previous), Bigger(), CurrentOf());
    SortKeeps(Unsorted(current, previous), Bigger(), PreviousOf());
    SortInOrder(Unsorted(current, previous), Bigger());
  }

  lemma UnsortedAccounts(current: seq<FactRow>, previous: seq<FactRow>)
    ensures SumBy(Unsorted(current, previous), CurrentOf()) == Spent(current)
    ensures SumBy(Unsorted(current, previous), PreviousOf()) == Spent(previous)
  {
    var both := current + previous;
    var keys := Keys(both);
    var list := Unsorted(current, previous);
    forall i | 0 <= i < |current| ensures current[i].category in keys {
      assert both[i] == current[i];
    }
    forall i | 0 <= i < |previous| ensures previous[i].category in keys {
      assert both[|current| + i] == previous[i];
    }
    CategoriesPartition(keys, current);
    CategoriesPartition(keys, previous);
    SumAgree(list, CurrentOf(), keys, SpentBy(current));
    SumAgree(list, PreviousOf(), keys, SpentBy(previous));
  }

  // ---------- The three blocks of the history ----------

  /** 0 for this period, 1 for the one before, 2 for the rest. */
  function Block(day: int, today: int): nat {
    if CurrentFrom(today) <= day then 0 else if PreviousFrom(today) <= day then 1 else 2
  }

  function InBlock(b: nat, today: int): FactRow -> bool {
    (r: FactRow) => IsSpend(r) && HistoryFrom(today) <= r.day && Block(r.day, today) == b
  }

  function Later(today: int): FactRow -> bool {
    (r: FactRow) => IsSpend(r) && today < r.day
  }

  /** The blocks are the 30 days up to today, the 30 before, and the 30 before those. */
  lemma BlocksAreThirtyDays(today: int, day: int)
    requires HistoryFrom(today) <= day <= today
    ensures HistoryFrom(today) + PERIOD_DAYS * (2 - Block(day, today)) <= day < HistoryFrom(today) + PERIOD_DAYS * (3 - Block(day, today))
    ensures Block(day, today) == 0 <==> CurrentFrom(today) <= day
    ensures Block(day, today) == 1 <==> PreviousFrom(today) <= day < CurrentFrom(today)
  {
  }

  /** The three blocks split the history's spending between them, and match the two periods compared. */
  lemma {:induction false} BlocksPartitionHistory(rows: seq<FactRow>, today: int)
    ensures Spent(Filter(rows, InBlock(0, today))) + Spent(Filter(rows, InBlock(1, today))) + Spent(Filter(rows, InBlock(2, today)))
            == Spent(HistorySpends(rows, today))
    ensures |Filter(rows, InBlock(0, today))| + |Filter(rows, InBlock(1, today))| + |Filter(rows, InBlock(2, today))| == |HistorySpends(rows, today)|
    ensures Filter(rows, InBlock(1, today)) == PreviousSpends(rows, today)
    ensures Spent(Filter(rows, InBlock(0, today))) == Spent(CurrentSpends(rows, today)) + Spent(Filter(rows, Later(today)))
  {
    var recent := SpendSince(PreviousFrom(today));
    FilterAgrees(rows, InBlock(1, today), SpendIn(PreviousFrom(today), CurrentFrom(today) - 1));
    SumsOfSplit(rows, SpendIn(CurrentFrom(today), today), Later(today), InBlock(0, today), AmountOf());
    RecentSplits(rows, today);
    HistorySplits(rows, today);
    SumsOfSplit(rows, InBlock(0, today), InBlock(1, today), recent, AmountOf());
    SumsOfSplit(rows, recent, InBlock(2, today), SpendSince(HistoryFrom(today)), AmountOf());
    hide Splits, Filter, SumBy;
  }

  lemma RecentSplits(rows: seq<FactRow>, today: int)
    ensures Splits(rows, InBlock(0, today), InBlock(1, today), SpendSince(PreviousFrom(today)))
  {
  }

  lemma HistorySplits(rows: seq<FactRow>, today: int)
    ensures Splits(rows, SpendSince(PreviousFrom(today)), InBlock(2, today), SpendSince(HistoryFrom(today)))
  {
  }

  lemma {:induction false} FilterAgrees<T(!new)>(s: seq<T>, p: T -> bool, q: T -> bool)
    requires forall x :: p(x) <==> q(x)
    ensures Filter(s, p) == Filter(s, q)
  {
    if s != [] {
      FilterAgrees(s[..|s| - 1], p, q);
    }
  }

  // ---------- The typical spend ----------

  function Less(): (int, int) -> bool {
    (a: int, b: int) => a < b
  }

  /** Twice the median, so that halves stay whole. Zero for no values. */
  function TwiceMedian(values: seq<int>): int {
    if values == [] then 0
    else
      var sorted := SortBy(values, Less());
      var mid := |sorted| / 2;
      if |sorted| % 2 == 1 then 2 * sorted[mid] else sorted[mid - 1] + sorted[mid]
  }

  function AboveHalf(twice: int): int -> bool {
    (v: int) => twice < 2 * v
  }

  function BelowHalf(twice: int): int -> bool {
    (v: int) => 2 * v < twice
  }

  /** At most half of the values lie strictly above the median, and at most half strictly below. */
  lemma MedianIsInTheMiddle(values: seq<int>)
    ensures 2 * |Filter(values, AboveHalf(TwiceMedian(values)))| <= |values|
    ensures 2 * |Filter(values, BelowHalf(TwiceMedian(values)))| <= |values|
  {
    var twice := TwiceMedian(values);
    SortedCount(values, AboveHalf(twice));
    SortedCount(values, BelowHalf(twice));
    if values != [] {
      SortInOrder(values, Less());
      MedianSplits(SortBy(values, Less()), twice);
    }
    hide SumBy, Filter, SortBy, InOrder;
  }

  lemma SortedCount(values: seq<int>, p: int -> bool)
    ensures |Filter(values, p)| == SumBy(SortBy(values, Less()), Counting(p)) <= |values|
  {
    SortKeeps(values, Less(), Counting(p));
    CountIsLength(values, p);
  }

  lemma MedianSplits(sorted: seq<int>, twice: int)
    requires sorted != [] && InOrder(sorted, Less())
    requires twice == if |sorted| % 2 == 1 then 2 * sorted[|sorted| / 2] else sorted[|sorted| / 2 - 1] + sorted[|sorted| / 2]
    ensures 2 * SumBy(sorted, Counting(AboveHalf(twice))) <= |sorted|
    ensures 2 * SumBy(sorted, Counting(BelowHalf(twice))) <= |sorted|
  {
    var n := |sorted|;
    var mid := n / 2;
    var low, high := (n + 1) / 2, n / 2;
    forall i, j | 0 <= i <= j < n ensures sorted[i] <= sorted[j] {
      if i < j { assert !Less()(sorted[j], sorted[i]); }
    }
    CountAfter(sorted, AboveHalf(twice), low);
    CountBefore(sorted, BelowHalf(twice), high);
  }

  lemma {:induction false} CountBefore(s: seq<int>, p: int -> bool, k: nat)
    requires k <= |s| && forall i :: k <= i < |s| ==> !p(s[i])
    ensures SumBy(s, Counting(p)) <= k
    decreases |s|
  {
    if s != [] {
      var n := |s| - 1;
      CountBefore(s[..n], p, if k <= n then k else n);
    }
  }

  // ---------- People paid ----------

  datatype RecipientTotal = RecipientTotal(total: int, count: int)

  function PaidTo(id: UserId): FactRow -> bool {
    (r: FactRow) => r.counterparty == Some(id)
  }

  function TotalTo(spends: seq<FactRow>, id: UserId): RecipientTotal {
    RecipientTotal(Spent(Filter(spends, PaidTo(id))), |Filter(spends, PaidTo(id))|)
  }

  lemma OneMorePaid(spends: seq<FactRow>, r: FactRow, id: UserId)
    ensures var before, after := TotalTo(spends, id), TotalTo(spends + [r], id);
      after == if r.counterparty == Some(id) then RecipientTotal(before.total + r.amount, before.count + 1) else before
  {
    assert (spends + [r])[..|spends|] == spends;
    SumAppend(Filter(spends, PaidTo(id)), r, AmountOf());
  }

  /** `totals` says what each person was paid and how often. */
  ghost predicate Tallied(totals: map<UserId, RecipientTotal>, spends: seq<FactRow>) {
    && (forall id: UserId :: id in totals <==> 0 < TotalTo(spends, id).count)
    && (forall id: UserId :: id in totals ==> totals[id] == TotalTo(spends, id))
  }

  lemma TallyOne(totals: map<UserId, RecipientTotal>, spends: seq<FactRow>, r: FactRow)
    requires Tallied(totals, spends)
    ensures r.counterparty.None? ==> Tallied(totals, spends + [r])
    ensures r.counterparty.Some? ==>
              var id := r.counterparty.value;
              var entry := if id in totals then totals[id] else RecipientTotal(0, 0);
              Tallied(totals[id := RecipientTotal(entry.total + r.amount, entry.count + 1)], spends + [r])
  {
    hide TotalTo;
    forall id: UserId ensures TotalTo(spends + [r], id) ==
      if r.counterparty == Some(id) then RecipientTotal(TotalTo(spends, id).total + r.amount, TotalTo(spends, id).count + 1)
      else TotalTo(spends, id)
    {
      OneMorePaid(spends, r, id);
    }
    if r.counterparty.Some? { NobodyPaid(spends, r.counterparty.value); }
  }

  /** Adds up what each person was paid and how often, in one walk. */
  method RecipientTotals(spends: seq<FactRow>) returns (totals: map<UserId, RecipientTotal>)
    ensures Tallied(totals, spends)
  {
    totals := map[];
    assert Tallied(totals, spends[..0]);
    hide Tallied;
    for i := 0 to |spends|
      invariant Tallied(totals, spends[..i])
    {
      var r := spends[i];
      TallyOne(totals, spends[..i], r);
      assert spends[..i + 1] == spends[..i] + [r];
      if r.counterparty.Some? {
        var id := r.counterparty.value;
        var entry := if id in totals then totals[id] else RecipientTotal(0, 0);
        totals := totals[id := RecipientTotal(entry.total + r.amount, entry.count + 1)];
      }
    }
    assert spends[..|spends|] == spends;
  }

  lemma NobodyPaid(spends: seq<FactRow>, id: UserId)
    ensures 0 <= TotalTo(spends, id).count
    ensures TotalTo(spends, id).count == 0 ==> TotalTo(spends, id) == RecipientTotal(0, 0)
  {
  }

  // ---------- Regular payments ----------

  function Amounts(spends: seq<FactRow>): (r: seq<int>)
    ensures |r| == |spends|
  {
    seq(|spends|, i requires 0 <= i < |spends| => spends[i].amount as int)
  }

  const SHOWN_REGULAR: nat := 3

  /** The people paid, each once, in order of their first payment. */
  function Payees(spends: seq<FactRow>): (ids: seq<UserId>)
    ensures forall i, j :: 0 <= i < j < |ids| ==> ids[i] != ids[j]
    ensures forall i :: 0 <= i < |spends| && spends[i].counterparty.Some? ==> spends[i].counterparty.value in ids
    ensures forall id :: id in ids ==> exists i :: 0 <= i < |spends| && spends[i].counterparty == Some(id)
  {
    if spends == [] then []
    else
      var n := |spends| - 1;
      var ids := Payees(spends[..n]);
      if spends[n].counterparty.None? || spends[n].counterparty.value in ids then ids else ids + [spends[n].counterparty.value]
  }

  function PaymentsTo(spends: seq<FactRow>, id: UserId): seq<FactRow> {
    Filter(spends, PaidTo(id))
  }

  predicate PaidInBlock(payments: seq<FactRow>, b: nat, today: int) {
    exists i :: 0 <= i < |payments| && Block(payments[i].day, today) == b
  }

  /** Within a quarter of the typical amount. */
  predicate NearTypical(amount: int, twiceTypical: int) {
    var gap := 2 * amount - twiceTypical;
    4 * (if gap < 0 then -gap else gap) <= twiceTypical
  }

  /** Paid in each of the three blocks, always about the same. */
  predicate IsRegular(history: seq<FactRow>, today: int, id: UserId) {
    var payments := PaymentsTo(history, id);
    && PaidInBlock(payments, 0, today) && PaidInBlock(payments, 1, today) && PaidInBlock(payments, 2, today)
    && forall i :: 0 <= i < |payments| ==> NearTypical(payments[i].amount, TwiceMedian(Amounts(payments)))
  }

  function RegularIn(history: seq<FactRow>, today: int): UserId -> bool {
    (id: UserId) => IsRegular(history, today, id)
  }

  /** The first three people paid regularly. */
  function RegularPayees(rows: seq<FactRow>, today: int): seq<UserId> {
    var history := HistorySpends(rows, today);
    Take(Filter(Payees(history), RegularIn(history, today)), SHOWN_REGULAR)
  }

  lemma {:induction false} FilterKeepsDistinct(ids: seq<UserId>, p: UserId -> bool)
    requires forall i, j :: 0 <= i < j < |ids| ==> ids[i] != ids[j]
    ensures var kept := Filter(ids, p); forall i, j :: 0 <= i < j < |kept| ==> kept[i] != kept[j]
  {
    forall i, j | 0 <= i < j < |Filter(ids, p)| ensures Filter(ids, p)[i] != Filter(ids, p)[j] {
      FilterDistinct(ids, p, i, j);
    }
  }

  lemma {:induction false} FilterDistinct(ids: seq<UserId>, p: UserId -> bool, i: nat, j: nat)
    requires forall i, j :: 0 <= i < j < |ids| ==> ids[i] != ids[j]
    requires i < j < |Filter(ids, p)|
    ensures Filter(ids, p)[i] != Filter(ids, p)[j]
  {
    var n := |ids| - 1;
    var kept := Filter(ids[..n], p);
    if j < |kept| {
      FilterDistinct(ids[..n], p, i, j);
    } else {
      FilterMembers(ids[..n], p, kept[i]);
    }
  }

  /** Payments within a quarter of one typical amount differ by at most two thirds of the smaller. */
  lemma NearEachOther(a: int, b: int, twiceTypical: int)
    requires NearTypical(a, twiceTypical) && NearTypical(b, twiceTypical)
    ensures 3 * a <= 5 * b
  {
  }

  /**
   * Whoever is shown as paid regularly was paid in each of the three 30-day blocks, and any two of the
   * payments are within a ratio of five to three; nobody is shown twice, and with at most three such
   * people all of them are shown.
   */
  lemma {:induction false} RegularPayeesAreRegular(rows: seq<FactRow>, today: int, id: UserId, i: nat, j: nat)
    ensures var history, shown := HistorySpends(rows, today), RegularPayees(rows, today);
      && |shown| <= 3
      && (forall x, y :: 0 <= x < y < |shown| ==> shown[x] != shown[y])
      && (id in shown ==>
            && IsRegular(history, today, id)
            && 3 <= |PaymentsTo(history, id)|
            && (i < |PaymentsTo(history, id)| && j < |PaymentsTo(history, id)| ==>
                  3 * PaymentsTo(history, id)[i].amount <= 5 * PaymentsTo(history, id)[j].amount))
      && (IsRegular(history, today, id) && |Filter(Payees(history), RegularIn(history, today))| <= 3 ==> id in shown)
  {
    hide IsRegular, Payees, HistorySpends, PaymentsTo;
    var history := HistorySpends(rows, today);
    var all := Filter(Payees(history), RegularIn(history, today));
    PayeesAreDistinct(history);
    FilterKeepsDistinct(Payees(history), RegularIn(history, today));
    if id in RegularPayees(rows, today) {
      assert id in all;
      FilterMembers(Payees(history), RegularIn(history, today), id);
      RegularPayments(history, today, id, i, j);
    }
    if IsRegular(history, today, id) {
      RegularIsAPayee(history, today, id);
      FilterHasMember(Payees(history), RegularIn(history, today), id);
    }
  }

  lemma PayeesAreDistinct(history: seq<FactRow>)
    ensures var ids := Payees(history); forall i, j :: 0 <= i < j < |ids| ==> ids[i] != ids[j]
  {
  }

  lemma FilterHasMember(ids: seq<UserId>, p: UserId -> bool, id: UserId)
    requires id in ids && p(id)
    ensures id in Filter(ids, p)
  {
    var i :| 0 <= i < |ids| && ids[i] == id;
    var b := FilterHas(ids, p, i);
  }

  lemma RegularPayments(history: seq<FactRow>, today: int, id: UserId, i: nat, j: nat)
    requires IsRegular(history, today, id)
    ensures var payments := PaymentsTo(history, id);
      && 3 <= |payments|
      && (i < |payments| && j < |payments| ==> 3 * payments[i].amount <= 5 * payments[j].amount)
  {
    var payments := PaymentsTo(history, id);
    var a :| 0 <= a < |payments| && Block(payments[a].day, today) == 0;
    var b :| 0 <= b < |payments| && Block(payments[b].day, today) == 1;
    var c :| 0 <= c < |payments| && Block(payments[c].day, today) == 2;
    assert a != b && b != c && a != c;
    hide Block, Filter, TwiceMedian;
    if i < |payments| && j < |payments| {
      NearEachOther(payments[i].amount, payments[j].amount, TwiceMedian(Amounts(payments)));
    }
  }

  lemma RegularIsAPayee(history: seq<FactRow>, today: int, id: UserId)
    requires IsRegular(history, today, id)
    ensures id in Payees(history)
  {
    var payments := PaymentsTo(history, id);
    var a :| 0 <= a < |payments| && Block(payments[a].day, today) == 0;
    hide Block, TwiceMedian, IsRegular;
    FilterMembers(history, PaidTo(id), payments[a]);
    var k :| 0 <= k < |history| && history[k] == payments[a];
  }

  // ---------- Unusual spends ----------

  predicate Unusual(r: FactRow, twiceTypical: int, regular: set<UserId>) {
    && !(r.counterparty.Some? && r.counterparty.value in regular)
    && 0 < twiceTypical && UNUSUAL_MULTIPLE * twiceTypical <= 2 * r.amount && UNUSUAL_MINIMUM <= r.amount
  }

  function IsUnusual(twiceTypical: int, regular: set<UserId>): FactRow -> bool {
    (r: FactRow) => Unusual(r, twiceTypical, regular)
  }

  /** Whole times the typical spend. */
  function TimesTypical(r: FactRow, twiceTypical: int): int
    requires 0 < twiceTypical
  {
    2 * r.amount / twiceTypical
  }

  function Larger(): (FactRow, FactRow) -> bool {
    (a: FactRow, b: FactRow) => b.amount < a.amount
  }

  function RegularSet(rows: seq<FactRow>, today: int): set<UserId> {
    set id | id in RegularPayees(rows, today)
  }

  /** At most the two largest, none of them to someone paid regularly. */
  function UnusualSpends(rows: seq<FactRow>, today: int): seq<FactRow> {
    var typical := TwiceMedian(Amounts(HistorySpends(rows, today)));
    Take(SortBy(Filter(CurrentSpends(rows, today), IsUnusual(typical, RegularSet(rows, today))), Larger()), 2)
  }

  lemma {:induction false} CountOfAmounts(spends: seq<FactRow>, p: FactRow -> bool, q: int -> bool)
    requires forall x :: x in spends ==> (p(x) ==> q(x.amount))
    ensures |Filter(spends, p)| <= |Filter(Amounts(spends), q)|
  {
    if spends != [] {
      var n := |spends| - 1;
      assert Amounts(spends)[..n] == Amounts(spends[..n]);
      CountOfAmounts(spends[..n], p, q);
    }
  }

  /**
   * At most half of the 90 days' spends can be unusual, each at least three times the typical one and
   * none to someone paid regularly; at most two are shown, the largest first.
   */
  lemma UnusualIsRare(rows: seq<FactRow>, today: int)
    ensures var history, regular := HistorySpends(rows, today), RegularSet(rows, today);
      var typical := TwiceMedian(Amounts(history));
      && 2 * |Filter(history, IsUnusual(typical, regular))| <= |history|
      && 2 * |Filter(CurrentSpends(rows, today), IsUnusual(typical, regular))| <= |history|
      && |UnusualSpends(rows, today)| <= 2
      && InOrder(UnusualSpends(rows, today), Larger())
      && (forall r :: r in UnusualSpends(rows, today) ==> r in CurrentSpends(rows, today) && Stands(r, typical, regular))
  {
    hide TwiceMedian, HistorySpends, CurrentSpends, RegularSet, Stands;
    var history, regular := HistorySpends(rows, today), RegularSet(rows, today);
    var typical := TwiceMedian(Amounts(history));
    UnusualInHistory(history, typical, regular);
    CurrentWithinHistory(rows, today, IsUnusual(typical, regular));
    ShownAreUnusual(CurrentSpends(rows, today), typical, regular);
  }

  /** Large, far above the typical spend, and not to someone paid regularly. */
  predicate Stands(r: FactRow, twiceTypical: int, regular: set<UserId>) {
    && 0 < twiceTypical && 3 <= TimesTypical(r, twiceTypical) && UNUSUAL_MINIMUM <= r.amount
    && (r.counterparty.Some? ==> r.counterparty.value !in regular)
  }

  lemma ShownAreUnusual(current: seq<FactRow>, typical: int, regular: set<UserId>)
    ensures var shown := Take(SortBy(Filter(current, IsUnusual(typical, regular)), Larger()), 2);
      && |shown| <= 2 && InOrder(shown, Larger())
      && forall r :: r in shown ==> r in current && Stands(r, typical, regular)
  {
    var unusual := IsUnusual(typical, regular);
    var found := Filter(current, unusual);
    var shown := Take(SortBy(found, Larger()), 2);
    SortInOrder(found, Larger());
    SortKeeps(found, Larger(), AmountOf());
    PrefixInOrder(SortBy(found, Larger()), Larger(), 2);
    hide SortBy, InOrder, SumBy, TimesTypical;
    forall r | r in shown ensures r in current && Stands(r, typical, regular) {
      assert r in multiset(SortBy(found, Larger()));
      assert r in found;
      FilterMembers(current, unusual, r);
      UnusualTimes(r, typical, regular);
    }
  }

  lemma PrefixInOrder<T>(s: seq<T>, before: (T, T) -> bool, n: nat)
    requires InOrder(s, before)
    ensures InOrder(Take(s, n), before)
  {
  }

  lemma UnusualTimes(r: FactRow, typical: int, regular: set<UserId>)
    requires Unusual(r, typical, regular)
    ensures 3 <= TimesTypical(r, typical)
  {
    AtLeastTimes(2 * r.amount, typical, 3);
  }

  lemma AtLeastTimes(a: int, d: int, k: int)
    requires 0 < d && k * d <= a
    ensures k <= a / d
  {
    var q := a / d;
    assert q * d <= a < q * d + d;
    if q < k { Monotone(q + 1, k, d); }
  }

  lemma Monotone(a: int, b: int, d: int)
    requires a <= b && 0 <= d
    ensures a * d <= b * d
  {
  }

  lemma {:induction false} FilterMembers<T>(s: seq<T>, p: T -> bool, x: T)
    requires x in Filter(s, p)
    ensures x in s && p(x)
  {
    if s != [] && x in Filter(s[..|s| - 1], p) {
      FilterMembers(s[..|s| - 1], p, x);
    }
  }

  lemma UnusualInHistory(history: seq<FactRow>, typical: int, regular: set<UserId>)
    requires typical == TwiceMedian(Amounts(history))
    ensures 2 * |Filter(history, IsUnusual(typical, regular))| <= |history|
  {
    CountOfAmounts(history, IsUnusual(typical, regular), AboveHalf(typical));
    MedianIsInTheMiddle(Amounts(history));
  }

  lemma {:induction false} CurrentWithinHistory(rows: seq<FactRow>, today: int, p: FactRow -> bool)
    ensures |Filter(CurrentSpends(rows, today), p)| <= |Filter(HistorySpends(rows, today), p)|
  {
    if rows != [] {
      var n := |rows| - 1;
      CurrentWithinHistory(rows[..n], today, p);
      var c, h := CurrentSpends(rows[..n], today), HistorySpends(rows[..n], today);
      assert (c + [rows[n]])[..|c|] == c && (h + [rows[n]])[..|h|] == h;
    }
  }

  /**
   * Nothing that ought to be shown is missing: a spend of this period of at least 5,000 naira and three times the
   * median of the 90 days, not to someone paid regularly, is shown unless two are that are no smaller.
   */
  lemma UnusualAreShown(rows: seq<FactRow>, today: int, r: FactRow)
    requires r in CurrentSpends(rows, today)
    requires r.counterparty.Some? ==> r.counterparty.value !in RegularPayees(rows, today)
    requires 0 < TwiceMedian(Amounts(HistorySpends(rows, today)))
    requires 3 * TwiceMedian(Amounts(HistorySpends(rows, today))) <= 2 * r.amount && 500_000 <= r.amount
    ensures var shown := UnusualSpends(rows, today);
      r in shown || (|shown| == 2 && r.amount <= shown[0].amount && r.amount <= shown[1].amount)
  {
    hide CurrentSpends, HistorySpends, RegularPayees, TwiceMedian, Amounts;
    var typical := TwiceMedian(Amounts(HistorySpends(rows, today)));
    var current, unusual := CurrentSpends(rows, today), IsUnusual(typical, RegularSet(rows, today));
    var found := Filter(current, unusual);
    var j :| 0 <= j < |current| && current[j] == r;
    var b := FilterHas(current, unusual, j);
    LargestTwo(found, r);
  }

  /** And nothing else is. */
  lemma OnlyUnusualAreShown(rows: seq<FactRow>, today: int, r: FactRow)
    requires r in UnusualSpends(rows, today)
    ensures r in CurrentSpends(rows, today) && (r.counterparty.Some? ==> r.counterparty.value !in RegularPayees(rows, today))
    ensures var typical := TwiceMedian(Amounts(HistorySpends(rows, today)));
      0 < typical && 3 * typical <= 2 * r.amount && 500_000 <= r.amount
  {
    hide CurrentSpends, HistorySpends, RegularPayees, TwiceMedian, Amounts;
    var typical := TwiceMedian(Amounts(HistorySpends(rows, today)));
    var current, unusual := CurrentSpends(rows, today), IsUnusual(typical, RegularSet(rows, today));
    var found := Filter(current, unusual);
    SortKeeps(found, Larger(), AmountOf());
    hide SortBy;
    assert r in multiset(SortBy(found, Larger()));
    assert r in found;
    FilterMembers(current, unusual, r);
  }

  lemma LargestTwo(found: seq<FactRow>, r: FactRow)
    requires r in found
    ensures var shown := Take(SortBy(found, Larger()), 2);
      r in shown || (|shown| == 2 && r.amount <= shown[0].amount && r.amount <= shown[1].amount)
  {
    var sorted := SortBy(found, Larger());
    SortInOrder(found, Larger());
    SortKeeps(found, Larger(), AmountOf());
    hide SortBy;
    assert r in multiset(sorted);
    var k :| 0 <= k < |sorted| && sorted[k] == r;
    if 2 <= k {
      assert !Larger()(sorted[k], sorted[0]) && !Larger()(sorted[k], sorted[1]);
    } else {
      assert Take(sorted, 2)[k] == r;
    }
  }

  // ---------- What counts as what ----------

  /** The spends of each period, in the fetched rows' own fields. */
  lemma SpendsAre(rows: seq<FactRow>, today: int, r: FactRow)
    ensures r in CurrentSpends(rows, today) <==> r in rows && r.kind == Debit && !r.isWithdrawal && today - 29 <= r.day <= today
    ensures r in PreviousSpends(rows, today) <==> r in rows && r.kind == Debit && !r.isWithdrawal && today - 59 <= r.day <= today - 30
    ensures r in HistorySpends(rows, today) <==> r in rows && r.kind == Debit && !r.isWithdrawal && today - 89 <= r.day
  {
    FilterIffMember(rows, SpendIn(CurrentFrom(today), today), r);
    FilterIffMember(rows, SpendIn(PreviousFrom(today), CurrentFrom(today) - 1), r);
    FilterIffMember(rows, SpendSince(HistoryFrom(today)), r);
    hide Filter;
  }

  lemma FilterIffMember(rows: seq<FactRow>, p: FactRow -> bool, r: FactRow)
    ensures r in Filter(rows, p) <==> r in rows && p(r)
  {
    if r in Filter(rows, p) {
      FilterMembers(rows, p, r);
    }
    if r in rows && p(r) {
      var j :| 0 <= j < |rows| && rows[j] == r;
      var b := FilterHas(rows, p, j);
    }
  }

  /** The median is the mean of the two middle values, or the middle one twice. */
  lemma MedianIsMiddle(values: seq<int>)
    ensures var sorted := SortBy(values, Less());
      TwiceMedian(values) == if values == [] then 0 else sorted[(|sorted| - 1) / 2] + sorted[|sorted| / 2]
  {
    hide SortBy;
  }

  /** Someone is paid regularly exactly when paid in each block of thirty days, always within a quarter of the median. */
  lemma RegularMeans(rows: seq<FactRow>, today: int, id: UserId)
    ensures var history := HistorySpends(rows, today);
      var typical := TwiceMedian(Amounts(PaymentsTo(history, id)));
      IsRegular(history, today, id) <==>
      && (exists r :: r in history && r.counterparty == Some(id) && today - 29 <= r.day)
      && (exists r :: r in history && r.counterparty == Some(id) && today - 59 <= r.day <= today - 30)
      && (exists r :: r in history && r.counterparty == Some(id) && r.day <= today - 60)
      && (forall r :: r in history && r.counterparty == Some(id) ==> 3 * typical <= 8 * r.amount <= 5 * typical)
  {
    hide HistorySpends, TwiceMedian, Amounts;
    var history := HistorySpends(rows, today);
    var payments := PaymentsTo(history, id);
    forall r: FactRow ensures r in payments <==> r in history && r.counterparty == Some(id) {
      FilterIffMember(history, PaidTo(id), r);
    }
    hide Filter, PaymentsTo;
    PaidInBlockMeans(payments, 0, today);
    PaidInBlockMeans(payments, 1, today);
    PaidInBlockMeans(payments, 2, today);
    AllNear(payments, TwiceMedian(Amounts(payments)));
  }

  lemma PaidInBlockMeans(payments: seq<FactRow>, b: nat, today: int)
    ensures PaidInBlock(payments, b, today) <==> exists r :: r in payments && Block(r.day, today) == b
  {
    if r :| r in payments && Block(r.day, today) == b {
      var i :| 0 <= i < |payments| && payments[i] == r;
      assert Block(payments[i].day, today) == b;
    }
  }

  lemma AllNear(payments: seq<FactRow>, typical: int)
    ensures (forall i :: 0 <= i < |payments| ==> NearTypical(payments[i].amount, typical)) <==>
            (forall r :: r in payments ==> 3 * typical <= 8 * r.amount <= 5 * typical)
  {
  }

  /** The times quoted are the whole multiples of the typical spend that fit. */
  lemma TimesAreWhole(r: FactRow, typical: int)
    requires 0 < typical
    ensures var times := TimesTypical(r, typical); times * typical <= 2 * r.amount < (times + 1) * typical
  {
  }

  /** The categories are in order of this period's spending, and then of the one before; ties stay as they came. */
  lemma CategoriesAreInOrder(rows: seq<FactRow>, today: int, p: CategoryTotal -> bool, i: nat, j: nat)
    requires i < j < |Categories(rows, today)|
    requires forall x, y :: p(x) && p(y) ==> x.current == y.current && x.previous == y.previous
    ensures var list := Categories(rows, today);
      && (list[j].current < list[i].current || (list[j].current == list[i].current && list[j].previous <= list[i].previous))
      && Filter(list, p) == Filter(Unsorted(CurrentSpends(rows, today), PreviousSpends(rows, today)), p)
  {
    var unsorted := Unsorted(CurrentSpends(rows, today), PreviousSpends(rows, today));
    hide Unsorted, CurrentSpends, PreviousSpends;
    SortInOrder(unsorted, Bigger());
    SortIsStable(unsorted, Bigger(), p);
    hide SortBy, Filter;
    assert !Bigger()(SortBy(unsorted, Bigger())[j], SortBy(unsorted, Bigger())[i]);
  }

  // ---------- Changes in per cent ----------

  /** Rounded to the nearest whole per cent, halves up. None when there is nothing to compare with. */
  function PercentChange(current: int, previous: int): Option<int> {
    if 0 < previous then Some((200 * (current - previous) + previous) / (2 * previous)) else None
  }

  /** The rounded change is within half a per cent of the real one, and never below minus 100. */
  lemma {:induction false} PercentIsNearest(current: nat, previous: int)
    ensures PercentChange(current, previous).Some? <==> 0 < previous
    ensures 0 < previous ==>
              var p := PercentChange(current, previous).value;
              && -previous <= 2 * (100 * (current - previous) - p * previous) < previous
              && -100 <= p
              && (current == previous ==> p == 0)
  {
    if 0 < previous {
      var a, d := 200 * (current - previous) + previous, 2 * previous;
      var p := a / d;
      QuotientBounds(a, d);
      AtLeastTimes(a, d, -100);
      PercentFrom(current, previous, p);
      if current == previous { HalfIsNone(previous); }
    }
  }

  lemma PercentFrom(current: nat, previous: int, p: int)
    requires 0 < previous
    requires p * (2 * previous) <= 200 * (current - previous) + previous < p * (2 * previous) + 2 * previous
    ensures -previous <= 2 * (100 * (current - previous) - p * previous) < previous
  {
    Doubled(p, previous);
  }

  lemma HalfIsNone(n: int)
    requires 0 < n
    ensures n / (2 * n) == 0
  {
  }

  lemma QuotientBounds(a: int, d: int)
    requires 0 < d
    ensures a / d * d <= a < a / d * d + d
  {
  }

  lemma Doubled(p: int, n: int)
    ensures p * (2 * n) == 2 * (p * n)
  {
  }
}
