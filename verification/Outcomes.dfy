/** Confirmations reordered: what is the same whichever way they come. */
module Outcomes {
  import opened Basics
  import opened Tables
  import opened Ledger
  import opened Steps
  import opened Invariants
  import opened AccountProofs
  import opened Runs
  import opened Guarantees
  import opened Confirmations

  // ---------- The entries each payment leaves ----------

  /** An entry without the id of the row it is about. */
  function Anonymous(e: Entry): Entry {
    e.(transactionId := None)
  }

  /** The entries with this reference, in order. */
  function EntriesOf(journal: seq<Entry>, r: Option<Reference>): seq<Entry> {
    if journal == [] then []
    else
      var n := |journal| - 1;
      var earlier := EntriesOf(journal[..n], r);
      if journal[n].reference == r then earlier + [Anonymous(journal[n])] else earlier
  }

  lemma PostedEntries(journal: seq<Entry>, e: Entry, r: Option<Reference>)
    ensures EntriesOf(journal + [e], r) == EntriesOf(journal, r) + if e.reference == r then [Anonymous(e)] else []
  {
    assert (journal + [e])[..|journal|] == journal;
  }

  /** What a deposit's move to status `after` posts. */
  function DepositEntries(db: Db, d: nat, after: DepositStatus): seq<Entry>
    requires d < |db.deposits|
  {
    if after == db.deposits[d].status || after != DepositStatus.Successful then []
    else [Anonymous(DepositMovement(db.deposits[d], d, 0, db.clock))]
  }

  function PaidMovement(wd: Withdrawal, w: nat, at: int): Entry {
    Movement(WithdrawalPaid, wd.amount, PayoutsInTransit, PaystackClearing, Some(WithdrawalRef(w)), Some(wd.debitTransactionId), at)
  }

  /** What a withdrawal's move to status `after` posts. */
  function WithdrawalEntries(db: Db, w: nat, after: WithdrawalStatus): seq<Entry>
    requires w < |db.withdrawals|
  {
    var wd := db.withdrawals[w];
    if after == wd.status then []
    else if after == WithdrawalStatus.Successful then [Anonymous(PaidMovement(wd, w, db.clock))]
    else [Anonymous(RefundMovement(wd, wd.status, w, 0, db.clock))]
  }

  /** `entries` is all that is posted from `db` to `db'`, under reference `r`. */
  ghost predicate Posts(db: Db, db': Db, r: Reference, entries: seq<Entry>) {
    forall q: Option<Reference> :: EntriesOf(db'.journal, q) == EntriesOf(db.journal, q) + if q == Some(r) then entries else []
  }

  lemma NothingPosts(db: Db, db': Db, r: Reference)
    requires db'.journal == db.journal
    ensures Posts(db, db', r, [])
  {
  }

  lemma OnePosts(db: Db, db': Db, e: Entry, r: Reference)
    requires db'.journal == db.journal + [e] && e.reference == Some(r)
    ensures Posts(db, db', r, [Anonymous(e)])
  {
    forall q: Option<Reference> ensures EntriesOf(db'.journal, q) == EntriesOf(db.journal, q) + if q == Some(r) then [Anonymous(e)] else [] {
      PostedEntries(db.journal, e, q);
    }
  }

  lemma SettleDepositEntries(db: Db, d: nat)
    requires d < |db.deposits|
    ensures var db' := SettleDeposit(db, d);
      |db'.deposits| == |db.deposits| && Posts(db, db', DepositRef(d), DepositEntries(db, d, db'.deposits[d].status))
  {
    hide Posts;
    var dep, db' := db.deposits[d], SettleDeposit(db, d);
    if dep.status == DepositStatus.Pending && dep.user in db.wallets {
      OnePosts(db, db', DepositMovement(dep, d, |db.rows|, db.clock), DepositRef(d));
    } else {
      NothingPosts(db, db', DepositRef(d));
    }
  }

  lemma RefundEntries(db: Db, w: nat, outcome: WithdrawalStatus)
    requires HasPayout(db, w) && Refunded(outcome)
    ensures var db' := RefundWithdrawal(db, w, outcome);
      |db'.withdrawals| == |db.withdrawals| && Posts(db, db', WithdrawalRef(w), WithdrawalEntries(db, w, db'.withdrawals[w].status))
  {
    hide Posts;
    var db' := RefundWithdrawal(db, w, outcome);
    if db' != db {
      OnePosts(db, db', RefundMovement(db.withdrawals[w], db.withdrawals[w].status, w, |db.rows|, db.clock), WithdrawalRef(w));
    } else {
      NothingPosts(db, db', WithdrawalRef(w));
    }
  }

  lemma MarkEntries(db: Db, w: nat)
    requires w < |db.withdrawals|
    ensures var db' := MarkSuccessful(db, w);
      |db'.withdrawals| == |db.withdrawals| && Posts(db, db', WithdrawalRef(w), WithdrawalEntries(db, w, db'.withdrawals[w].status))
  {
    hide Posts;
    var db' := MarkSuccessful(db, w);
    if db' != db {
      OnePosts(db, db', PaidMovement(db.withdrawals[w], w, db.clock), WithdrawalRef(w));
    } else {
      NothingPosts(db, db', WithdrawalRef(w));
    }
  }

  lemma CheckDepositEntries(db: Db, d: nat, payment: Payment)
    requires d < |db.deposits|
    ensures var db' := ConfirmDeposit(db, d, payment);
      |db'.deposits| == |db.deposits| && Posts(db, db', DepositRef(d), DepositEntries(db, d, db'.deposits[d].status))
  {
    hide Posts, SettleDeposit;
    SettleDepositEntries(db, d);
    NothingPosts(db, db, DepositRef(d));
    NothingPosts(db, FailDeposit(db, d), DepositRef(d));
  }

  lemma SweepDepositEntries(db: Db, d: nat, payment: Payment)
    requires d < |db.deposits|
    ensures var db' := SweepDeposit(db, d, payment);
      |db'.deposits| == |db.deposits| && Posts(db, db', DepositRef(d), DepositEntries(db, d, db'.deposits[d].status))
  {
    CheckDepositEntries(db, d, payment);
    CheckDepositEnd(db, d, payment);
    NothingPosts(db, db, DepositRef(d));
    hide ConfirmDeposit, Frame;
    assert SweepDeposit(db, d, payment).journal == ConfirmDeposit(db, d, payment).journal || SweepDeposit(db, d, payment) == db;
  }

  lemma CheckWithdrawalEntries(db: Db, w: nat, answer: TransferAnswer)
    requires HasPayout(db, w)
    ensures var db' := ConfirmWithdrawal(db, w, answer);
      |db'.withdrawals| == |db.withdrawals| && Posts(db, db', WithdrawalRef(w), WithdrawalEntries(db, w, db'.withdrawals[w].status))
  {
    hide Posts, RefundWithdrawal, MarkSuccessful;
    RefundEntries(db, w, WithdrawalStatus.Failed);
    RefundEntries(db, w, WithdrawalStatus.Reversed);
    MarkEntries(db, w);
    NothingPosts(db, db, WithdrawalRef(w));
  }

  /** What is posted under reference `q` when statuses move from those of `db` to those of `db'`. */
  function NewEntries(db: Db, db': Db, q: Option<Reference>): seq<Entry> {
    match q
    case Some(DepositRef(d)) => if d < |db.deposits| && d < |db'.deposits| then DepositEntries(db, d, db'.deposits[d].status) else []
    case Some(WithdrawalRef(w)) => if w < |db.withdrawals| && w < |db'.withdrawals| then WithdrawalEntries(db, w, db'.withdrawals[w].status) else []
    case _ => []
  }

  /** The journal has grown by exactly the entries that the new statuses call for. */
  ghost predicate EntriesAt(db: Db, db': Db) {
    forall q: Option<Reference> :: EntriesOf(db'.journal, q) == EntriesOf(db.journal, q) + NewEntries(db, db', q)
  }

  lemma DepositEntriesAt(db: Db, mid: Db, db': Db, d: nat)
    requires Frame(db, mid) && EntriesAt(db, mid) && d < |db.deposits| && OtherDepositsStay(mid, db', d)
    requires Posts(mid, db', DepositRef(d), DepositEntries(mid, d, db'.deposits[d].status))
    requires mid.deposits[d].status == db.deposits[d].status || db'.deposits[d].status == mid.deposits[d].status
    ensures EntriesAt(db, db')
  {
    assert SameDeposit(db.deposits[d], mid.deposits[d]);
    hide Kept;
    forall q: Option<Reference> ensures EntriesOf(db'.journal, q) == EntriesOf(db.journal, q) + NewEntries(db, db', q) {
      assert EntriesOf(mid.journal, q) == EntriesOf(db.journal, q) + NewEntries(db, mid, q);
    }
  }

  lemma WithdrawalEntriesAt(db: Db, mid: Db, db': Db, w: nat)
    requires Frame(db, mid) && EntriesAt(db, mid) && w < |db.withdrawals| && OtherWithdrawalsStay(mid, db', w)
    requires Posts(mid, db', WithdrawalRef(w), WithdrawalEntries(mid, w, db'.withdrawals[w].status))
    requires mid.withdrawals[w].status == db.withdrawals[w].status || db'.withdrawals[w].status == mid.withdrawals[w].status
    ensures EntriesAt(db, db')
  {
    assert SameWithdrawal(db.withdrawals[w], mid.withdrawals[w]);
    hide Kept;
    forall q: Option<Reference> ensures EntriesOf(db'.journal, q) == EntriesOf(db.journal, q) + NewEntries(db, db', q) {
      assert EntriesOf(mid.journal, q) == EntriesOf(db.journal, q) + NewEntries(db, mid, q);
    }
  }

  lemma OneFireEntries(db: Db, mid: Db, ts: seq<Trigger>, t: Trigger, o: Oracle)
    requires PayoutsHaveRows(db) && EndsAt(db, mid, ts, o) && EntriesAt(db, mid)
    ensures EntriesAt(db, Fire(mid, t, o))
  {
    assert Frame(db, mid);
    LengthsKept(db, mid);
    hide EntriesAt, Frame, Posts, ConfirmDeposit, SweepDeposit, ConfirmWithdrawal, Kept, EntriesOf;
    match t
    case DepositCheck(d) =>
      if d < |db.deposits| {
        CheckDepositEnd(mid, d, o.payment(d));
        CheckDepositEntries(mid, d, o.payment(d));
        DepositsMoveOnce(db, mid, Fire(mid, t, o), ts, t, d, o);
        DepositEntriesAt(db, mid, Fire(mid, t, o), d);
      }
    case DepositSweep(d) =>
      if d < |db.deposits| {
        SweepDepositEnd(mid, d, o.payment(d));
        SweepDepositEntries(mid, d, o.payment(d));
        DepositsMoveOnce(db, mid, Fire(mid, t, o), ts, t, d, o);
        DepositEntriesAt(db, mid, Fire(mid, t, o), d);
      }
    case WithdrawalCheck(w) =>
      if w < |db.withdrawals| {
        assert HasPayout(mid, w);
        CheckWithdrawalEnd(mid, w, o.transfer(w));
        CheckWithdrawalEntries(mid, w, o.transfer(w));
        WithdrawalsMoveOnce(db, mid, Fire(mid, t, o), ts, w, o);
        WithdrawalEntriesAt(db, mid, Fire(mid, t, o), w);
      }
  }

  /** With one answer a payment's status moves at most once. */
  lemma DepositsMoveOnce(db: Db, mid: Db, db': Db, ts: seq<Trigger>, t: Trigger, d: nat, o: Oracle)
    requires EndsAt(db, mid, ts, o) && d < |db.deposits| && |db'.deposits| == |db.deposits|
    requires t == DepositCheck(d) || t == DepositSweep(d)
    requires d < |mid.deposits| && db'.deposits[d].status == DepositEnd(mid, d, o.payment(d), t == DepositCheck(d), t == DepositSweep(d))
    ensures mid.deposits[d].status == db.deposits[d].status || db'.deposits[d].status == mid.deposits[d].status
  {
    hide Kept;
  }

  lemma WithdrawalsMoveOnce(db: Db, mid: Db, db': Db, ts: seq<Trigger>, w: nat, o: Oracle)
    requires EndsAt(db, mid, ts, o) && w < |db.withdrawals| && |db'.withdrawals| == |db.withdrawals|
    requires w < |mid.withdrawals| && db'.withdrawals[w].status == WithdrawalEnd(mid, w, o.transfer(w), true)
    ensures mid.withdrawals[w].status == db.withdrawals[w].status || db'.withdrawals[w].status == mid.withdrawals[w].status
  {
    assert SameWithdrawal(db.withdrawals[w], mid.withdrawals[w]);
    hide Kept;
  }

  /** Each payment whose status moved has posted exactly its entry, and nothing else is posted. */
  lemma {:induction false} FireAllEntries(db: Db, ts: seq<Trigger>, o: Oracle)
    requires PayoutsHaveRows(db)
    ensures EntriesAt(db, FireAll(db, ts, o))
  {
    if ts == [] {
      NoNewEntries(db);
    } else {
      var n := |ts| - 1;
      FireAllEnds(db, ts[..n], o);
      FireAllEntries(db, ts[..n], o);
      hide EndsAt, EntriesAt, Fire, PayoutsHaveRows;
      OneFireEntries(db, FireAll(db, ts[..n], o), ts[..n], ts[n], o);
    }
  }

  lemma NoNewEntries(db: Db)
    ensures EntriesAt(db, db)
  {
    hide EntriesOf;
  }

  // ---------- The order does not matter ----------

  lemma PayoutRows(db: Db)
    requires Inv(db)
    ensures PayoutsHaveRows(db)
  {
    forall w | 0 <= w < |db.withdrawals| ensures HasPayout(db, w) {
      assert WithdrawalOk(db.rows, db.withdrawals, w);
    }
  }

  lemma FireKeeps(db: Db, t: Trigger, o: Oracle)
    requires Inv(db)
    ensures Inv(Fire(db, t, o)) && SameGaps(db, Fire(db, t, o))
  {
    hide Inv, SameGaps, ConfirmDeposit, ConfirmWithdrawal, SweepDeposit;
    GapsReflexive(db);
    match t
    case DepositCheck(d) => if d < |db.deposits| { ConfirmKeeps(db, d, o.payment(d)); }
    case DepositSweep(d) => SweepKeeps(db, d, o);
    case WithdrawalCheck(w) => if HasPayout(db, w) { CheckKeeps(db, w, o.transfer(w)); }
  }

  lemma CheckKeeps(db: Db, w: nat, answer: TransferAnswer)
    requires Inv(db) && HasPayout(db, w)
    ensures Inv(ConfirmWithdrawal(db, w, answer)) && SameGaps(db, ConfirmWithdrawal(db, w, answer))
  {
    hide Inv, ConfirmWithdrawal, SameGaps, RowsEvolve;
    StepKeepsInv(db, OfPayment(WithdrawalConfirmed(w, answer)));
  }

  lemma SweepKeeps(db: Db, d: nat, o: Oracle)
    requires Inv(db)
    ensures Inv(Fire(db, DepositSweep(d), o)) && SameGaps(db, Fire(db, DepositSweep(d), o))
  {
    hide Inv, GoodStep, SameGaps;
    if d < |db.deposits| {
      var payment := o.payment(d);
      ConfirmKeeps(db, d, payment);
      hide ConfirmDeposit, AbandonDeposit;
      Same(db);
      var checked := ConfirmDeposit(db, d, payment);
      AbandonKeeps(checked, d);
      GapsTransitive(db, checked, AbandonDeposit(checked, d));
    }
    GapsReflexive(db);
  }

  lemma ConfirmKeeps(db: Db, d: nat, payment: Payment)
    requires Inv(db) && d < |db.deposits|
    ensures var db' := ConfirmDeposit(db, d, payment);
      Inv(db') && SameGaps(db, db') && |db'.deposits| == |db.deposits|
  {
    CheckDepositEnd(db, d, payment);
    hide Inv, ConfirmDeposit, SameGaps, RowsEvolve, Frame;
    StepKeepsInv(db, OfPayment(DepositConfirmed(d, payment)));
  }

  lemma AbandonKeeps(db: Db, d: nat)
    requires Inv(db) && d < |db.deposits|
    ensures Inv(AbandonDeposit(db, d)) && SameGaps(db, AbandonDeposit(db, d))
  {
    hide Inv, AbandonDeposit, SameGaps, RowsEvolve;
    StepKeepsInv(db, OfPayment(DepositAbandoned(d)));
  }

  lemma GapsReflexive(db: Db)
    ensures SameGaps(db, db)
  {
  }

  lemma GapsTransitive(a: Db, b: Db, c: Db)
    requires SameGaps(a, b) && SameGaps(b, c)
    ensures SameGaps(a, c)
  {
    forall account: Account ensures Gap(c, account) == Gap(a, account) {
      assert Gap(c, account) == Gap(b, account) == Gap(a, account);
    }
  }

  lemma {:induction false} FireAllKeeps(db: Db, ts: seq<Trigger>, o: Oracle)
    requires Inv(db)
    ensures Inv(FireAll(db, ts, o)) && SameGaps(db, FireAll(db, ts, o))
  {
    hide Inv, Fire, SameGaps;
    if ts != [] {
      var mid := FireAll(db, ts[..|ts| - 1], o);
      FireAllKeeps(db, ts[..|ts| - 1], o);
      FireKeeps(mid, ts[|ts| - 1], o);
      GapsTransitive(db, mid, Fire(mid, ts[|ts| - 1], o));
    } else {
      GapsReflexive(db);
    }
  }

  /** The same money in the same places: wallets, every payment's status, every ledger account, and every payment's entries. */
  ghost predicate SameOutcome(a: Db, b: Db) {
    && a.wallets == b.wallets
    && |a.deposits| == |b.deposits| && |a.withdrawals| == |b.withdrawals|
    && (forall d :: 0 <= d < |a.deposits| ==> a.deposits[d].status == b.deposits[d].status)
    && (forall w :: 0 <= w < |a.withdrawals| ==> a.withdrawals[w].status == b.withdrawals[w].status)
    && (forall account: Account :: AccountBalance(a.journal, account) == AccountBalance(b.journal, account))
    && (forall q: Option<Reference> :: EntriesOf(a.journal, q) == EntriesOf(b.journal, q))
  }

  /** Two databases that came from one, with the same statuses. */
  ghost predicate SameStatuses(db: Db, a: Db, b: Db) {
    && Frame(db, a) && Frame(db, b)
    && (forall d :: 0 <= d < |a.deposits| ==> a.deposits[d].status == b.deposits[d].status)
    && (forall w :: 0 <= w < |a.withdrawals| ==> a.withdrawals[w].status == b.withdrawals[w].status)
  }

  lemma StatusesFixWallets(db: Db, a: Db, b: Db)
    requires SameStatuses(db, a, b)
    ensures a.wallets == b.wallets
  {
    forall u: UserId ensures Stored(a.wallets, u) == Stored(b.wallets, u) {
      assert Kept(a, u) == Kept(db, u) == Kept(b, u);
      forall d | 0 <= d < |a.deposits| ensures PaidIn(u)(a.deposits[d]) == PaidIn(u)(b.deposits[d]) {
        assert SameDeposit(db.deposits[d], a.deposits[d]) && SameDeposit(db.deposits[d], b.deposits[d]);
      }
      SumAgree(a.deposits, PaidIn(u), b.deposits, PaidIn(u));
      forall w | 0 <= w < |a.withdrawals| ensures GivenBack(u)(a.withdrawals[w]) == GivenBack(u)(b.withdrawals[w]) {
        assert SameWithdrawal(db.withdrawals[w], a.withdrawals[w]) && SameWithdrawal(db.withdrawals[w], b.withdrawals[w]);
      }
      SumAgree(a.withdrawals, GivenBack(u), b.withdrawals, GivenBack(u));
    }
    forall u | u in a.wallets ensures u in b.wallets && a.wallets[u] == b.wallets[u] {
      assert Stored(a.wallets, u) == Stored(b.wallets, u);
    }
    assert forall u :: u in b.wallets ==> u in a.wallets;
  }

  lemma StatusesFixSums(db: Db, a: Db, b: Db)
    requires SameStatuses(db, a, b)
    ensures SumBy(a.deposits, DepositedAs(DepositStatus.Successful)) == SumBy(b.deposits, DepositedAs(DepositStatus.Successful))
    ensures forall status :: SumBy(a.withdrawals, WithdrawnAs(status)) == SumBy(b.withdrawals, WithdrawnAs(status))
  {
    var f := DepositedAs(DepositStatus.Successful);
    forall d | 0 <= d < |a.deposits| ensures f(a.deposits[d]) == f(b.deposits[d]) {
      assert SameDeposit(db.deposits[d], a.deposits[d]) && SameDeposit(db.deposits[d], b.deposits[d]);
    }
    SumAgree(a.deposits, f, b.deposits, f);
    forall status ensures SumBy(a.withdrawals, WithdrawnAs(status)) == SumBy(b.withdrawals, WithdrawnAs(status)) {
      forall w | 0 <= w < |a.withdrawals| ensures WithdrawnAs(status)(a.withdrawals[w]) == WithdrawnAs(status)(b.withdrawals[w]) {
        assert SameWithdrawal(db.withdrawals[w], a.withdrawals[w]) && SameWithdrawal(db.withdrawals[w], b.withdrawals[w]);
      }
      SumAgree(a.withdrawals, WithdrawnAs(status), b.withdrawals, WithdrawnAs(status));
    }
  }

  lemma StatusesFixAccounts(db: Db, a: Db, b: Db, account: Account)
    requires SameStatuses(db, a, b) && SameGaps(db, a) && SameGaps(db, b)
    ensures AccountBalance(a.journal, account) == AccountBalance(b.journal, account)
  {
    StatusesFixWallets(db, a, b);
    StatusesFixSums(db, a, b);
    assert Gap(a, account) == Gap(db, account) == Gap(b, account);
  }

  lemma SameFlagsSameStatuses(db: Db, a: Db, b: Db, ts: seq<Trigger>, us: seq<Trigger>, o: Oracle)
    requires EndsAt(db, a, ts, o) && EndsAt(db, b, us, o) && forall t: Trigger :: t in ts <==> t in us
    ensures SameStatuses(db, a, b)
  {
    hide Kept, AccountBalance, DepositEnd, WithdrawalEnd;
  }

  /**
   * Any two mixes of callbacks, webhooks, retries and passes over the same payments, all made at one
   * moment, end in the same wallets, statuses, ledger balances and entries, whatever the order and the repeats.
   */
  lemma {:induction false} SameAnswersSameOutcome(db: Db, ts: seq<Trigger>, us: seq<Trigger>, o: Oracle)
    requires Inv(db) && forall t: Trigger :: t in ts <==> t in us
    ensures SameOutcome(FireAll(db, ts, o), FireAll(db, us, o))
  {
    PayoutRows(db);
    var a, b := FireAll(db, ts, o), FireAll(db, us, o);
    FireAllEnds(db, ts, o);
    FireAllEnds(db, us, o);
    FireAllKeeps(db, ts, o);
    FireAllKeeps(db, us, o);
    FireAllEntries(db, ts, o);
    FireAllEntries(db, us, o);
    hide Inv, FireAll, SameGaps, EntriesAt, EndsAt, SameStatuses, SameOutcome, PayoutsHaveRows;
    SameFlagsSameStatuses(db, a, b, ts, us, o);
    StatusesFixOutcome(db, a, b);
  }

  lemma StatusesFixEntries(db: Db, a: Db, b: Db)
    requires SameStatuses(db, a, b) && EntriesAt(db, a) && EntriesAt(db, b)
    ensures forall q: Option<Reference> :: EntriesOf(a.journal, q) == EntriesOf(b.journal, q)
  {
    hide Kept, EntriesOf, AccountBalance;
    forall q: Option<Reference> ensures EntriesOf(a.journal, q) == EntriesOf(b.journal, q) {
      assert EntriesOf(a.journal, q) == EntriesOf(db.journal, q) + NewEntries(db, a, q);
      assert EntriesOf(b.journal, q) == EntriesOf(db.journal, q) + NewEntries(db, b, q);
    }
  }

  lemma StatusesFixOutcome(db: Db, a: Db, b: Db)
    requires SameStatuses(db, a, b) && SameGaps(db, a) && SameGaps(db, b) && EntriesAt(db, a) && EntriesAt(db, b)
    ensures SameOutcome(a, b)
  {
    StatusesFixWallets(db, a, b);
    StatusesFixEntries(db, a, b);
    forall account: Account ensures AccountBalance(a.journal, account) == AccountBalance(b.journal, account) {
      StatusesFixAccounts(db, a, b, account);
    }
    hide Kept, AccountBalance, SameGaps, EntriesAt, EntriesOf;
  }

  // ---------- A deposit credits what Paystack verified ----------

  /** `action` confirmed deposit `d` with a successful payment in naira for exactly its amount. */
  predicate VerifiedBy(db: Db, action: Action, d: nat) {
    && action.OfPayment? && action.payment.DepositConfirmed? && action.payment.d == d && d < |db.deposits|
    && var p := action.payment.payment;
       p.status == PaidUp && p.reference == d && p.amount == db.deposits[d].amount && p.inNaira
  }

  lemma {:induction false} OnlyVerifiedPaymentsSettle(db: Db, action: Action, d: nat)
    requires d < |Apply(db, action).deposits| && Apply(db, action).deposits[d].status == DepositStatus.Successful
    ensures d < |db.deposits| && (db.deposits[d].status == DepositStatus.Successful || VerifiedBy(db, action, d))
    ensures VerifiedBy(db, action, d) && db.deposits[d].status == DepositStatus.Pending ==>
              db.deposits[d].user in db.wallets &&
              Apply(db, action).wallets == db.wallets[db.deposits[d].user := db.wallets[db.deposits[d].user] + action.payment.payment.amount]
  {
    match action
    case OfWallet(w) => WalletForward(db, w);
    case OfStaff(s) => StaffLeavesDeposits(db, s);
    case OfPayment(p) => PaymentSettles(db, p, d);
  }

  lemma StaffLeavesDeposits(db: Db, action: StaffAction)
    ensures ApplyStaff(db, action).deposits == db.deposits
  {
  }

  lemma ConfirmedDeposits(db: Db, c: nat, payment: Payment)
    requires c < |db.deposits|
    ensures var db' := ConfirmDeposit(db, c, payment);
      && |db'.deposits| == |db.deposits|
      && (forall d :: 0 <= d < |db.deposits| && d != c ==> db'.deposits[d] == db.deposits[d])
      && (db'.deposits[c].status == DepositStatus.Successful && db.deposits[c].status != DepositStatus.Successful ==>
            payment.status == PaidUp && Matches(db, c, payment))
      && (payment.status == PaidUp && Matches(db, c, payment) && db.deposits[c].status == DepositStatus.Pending && db'.deposits[c].status == DepositStatus.Successful ==>
            db.deposits[c].user in db.wallets &&
            db'.wallets == db.wallets[db.deposits[c].user := db.wallets[db.deposits[c].user] + payment.amount])
  {
  }

  lemma AbandonedDeposits(db: Db, c: nat)
    requires c < |db.deposits|
    ensures var db' := AbandonDeposit(db, c);
      && |db'.deposits| == |db.deposits|
      && forall d :: 0 <= d < |db.deposits| && db'.deposits[d].status == DepositStatus.Successful ==> db.deposits[d].status == DepositStatus.Successful
  {
  }

  lemma WithdrawingLeavesDeposits(db: Db, u: UserId, amount: Amount)
    ensures CreateWithdrawal(db, u, amount).deposits == db.deposits
  {
  }

  lemma PaymentSettles(db: Db, action: PaymentAction, d: nat)
    requires d < |ApplyPayment(db, action).deposits| && ApplyPayment(db, action).deposits[d].status == DepositStatus.Successful
    ensures d < |db.deposits| && (db.deposits[d].status == DepositStatus.Successful || VerifiedBy(db, OfPayment(action), d))
    ensures VerifiedBy(db, OfPayment(action), d) && db.deposits[d].status == DepositStatus.Pending ==>
              db.deposits[d].user in db.wallets &&
              ApplyPayment(db, action).wallets == db.wallets[db.deposits[d].user := db.wallets[db.deposits[d].user] + action.payment.amount]
  {
    hide SendTransfer, ConfirmWithdrawal, ConfirmDeposit, AbandonDeposit, CreateWithdrawal;
    match action
    case DepositConfirmed(c, payment) => if c < |db.deposits| { ConfirmedDeposits(db, c, payment); }
    case DepositAbandoned(c) => if c < |db.deposits| { AbandonedDeposits(db, c); }
    case WithdrawalCreated(u, amount) => WithdrawingLeavesDeposits(db, u, amount);
    case PayoutSent(w, answer) => if HasPayout(db, w) { AnswerLeavesDeposits(db, w, answer); }
    case WithdrawalConfirmed(w, answer) => if HasPayout(db, w) { AnswerLeavesDeposits(db, w, answer); }
    case DepositCreated(_, _) =>
  }

  lemma AnswerLeavesDeposits(db: Db, w: nat, answer: TransferAnswer)
    requires HasPayout(db, w)
    ensures SendTransfer(db, w, answer).deposits == db.deposits && ConfirmWithdrawal(db, w, answer).deposits == db.deposits
  {
  }

  /** In every run each SUCCESSFUL deposit was settled by a verified payment of its own amount. */
  lemma {:induction false} EveryCreditWasVerified(start: Db, actions: seq<Action>, d: nat)
    requires start.deposits == [] && d < |Run(start, actions).deposits|
    requires Run(start, actions).deposits[d].status == DepositStatus.Successful
    ensures exists k :: 0 <= k < |actions| && VerifiedBy(Run(start, actions[..k]), actions[k], d)
  {
    if actions != [] {
      var n := |actions| - 1;
      OnlyVerifiedPaymentsSettle(Run(start, actions[..n]), actions[n], d);
      if VerifiedBy(Run(start, actions[..n]), actions[n], d) {
      } else {
        EveryCreditWasVerified(start, actions[..n], d);
        var k :| 0 <= k < n && VerifiedBy(Run(start, actions[..n][..k]), actions[..n][k], d);
        assert actions[..n][..k] == actions[..k];
      }
    }
  }
}
