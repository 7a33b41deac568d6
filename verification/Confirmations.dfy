/** Asking Paystack about payments, all at one moment. */
module Confirmations {
  // Callbacks, webhooks, job retries, rechecks and reconcile passes may all ask about the same payment. Here
  // they do so at one moment, any number of times and in any order, and Paystack says the same thing about a
  // payment each time: the outcome is that of asking once. Repeats is about asks with time, other actions and
  // other answers between them.

  import opened Basics
  import opened Tables
  import opened Ledger
  import opened Steps
  import opened Invariants
  import opened Runs

  const MINUTE_MS: int := 60 * 1000
  const ABANDON_DEPOSITS_AFTER_MS: int := 24 * 60 * MINUTE_MS

  /** What Paystack answers about each reference. */
  datatype Oracle = Oracle(payment: nat -> Payment, transfer: nat -> TransferAnswer)

  /** One reason to look at a payment again; a sweep is a reconcile pass over a pending deposit. */
  datatype Trigger =
    | DepositCheck(d: nat)
    | DepositSweep(d: nat)
    | WithdrawalCheck(w: nat)

  /** confirmDeposit throws: no answer, or a good payment with no wallet to credit. */
  predicate CheckThrows(db: Db, d: nat, payment: Payment)
    requires d < |db.deposits|
  {
    && db.deposits[d].status == DepositStatus.Pending
    && (payment.status == PaymentUnreachable
        || (payment.status == PaidUp && Matches(db, d, payment) && db.deposits[d].user !in db.wallets))
  }

  predicate PastAbandoning(db: Db, d: nat)
    requires d < |db.deposits|
  {
    db.deposits[d].createdAt < db.clock - ABANDON_DEPOSITS_AFTER_MS
  }

  /** Confirms a deposit, and gives up on it when it has stayed open for a day. */
  function SweepDeposit(db: Db, d: nat, payment: Payment): Db
    requires d < |db.deposits|
  {
    if CheckThrows(db, d, payment) then db
    else
      var checked := ConfirmDeposit(db, d, payment);
      if checked.deposits[d].status == DepositStatus.Pending && PastAbandoning(checked, d) then AbandonDeposit(checked, d) else checked
  }

  function Fire(db: Db, t: Trigger, o: Oracle): Db {
    match t
    case DepositCheck(d) => if d < |db.deposits| then ConfirmDeposit(db, d, o.payment(d)) else db
    case DepositSweep(d) => if d < |db.deposits| then SweepDeposit(db, d, o.payment(d)) else db
    case WithdrawalCheck(w) => if HasPayout(db, w) then ConfirmWithdrawal(db, w, o.transfer(w)) else db
  }

  function FireAll(db: Db, ts: seq<Trigger>, o: Oracle): Db {
    if ts == [] then db else Fire(FireAll(db, ts[..|ts| - 1], o), ts[|ts| - 1], o)
  }

  // ---------- Where each payment ends ----------

  /** The status of deposit `d` once it has been checked, or swept, or neither. */
  function DepositEnd(db: Db, d: nat, payment: Payment, checked: bool, swept: bool): DepositStatus
    requires d < |db.deposits|
  {
    var status := db.deposits[d].status;
    if status != DepositStatus.Pending || !(checked || swept) then status
    else
      match payment.status
      case PaidUp =>
        if !Matches(db, d, payment) then DepositStatus.Failed
        else if db.deposits[d].user in db.wallets then DepositStatus.Successful
        else DepositStatus.Pending
      case PaymentFailed => DepositStatus.Failed
      case PaymentReversed => DepositStatus.Failed
      case PaymentOpen => if swept && PastAbandoning(db, d) then DepositStatus.Abandoned else DepositStatus.Pending
      case PaymentUnreachable => DepositStatus.Pending
  }

  function RefundEnd(db: Db, w: nat, outcome: WithdrawalStatus): WithdrawalStatus
    requires w < |db.withdrawals|
  {
    var wd := db.withdrawals[w];
    if Claimable(wd.status, outcome) && wd.user in db.wallets then outcome else wd.status
  }

  /** The status of withdrawal `w` once it has been checked, or not. */
  function WithdrawalEnd(db: Db, w: nat, answer: TransferAnswer, checked: bool): WithdrawalStatus
    requires w < |db.withdrawals|
  {
    var status := db.withdrawals[w].status;
    if !checked then status
    else
      match answer
      case Missing => if PastGrace(db, w) then RefundEnd(db, w, WithdrawalStatus.Failed) else status
      case Refused4xx => status
      case NoAnswer => status
      case Reported(s) =>
        match s
        case TransferSuccess => if status == WithdrawalStatus.Processing then WithdrawalStatus.Successful else status
        case TransferReversed => RefundEnd(db, w, WithdrawalStatus.Reversed)
        case TransferUnderway => status
        case _ => RefundEnd(db, w, WithdrawalStatus.Failed)
  }

  function PaidIn(u: UserId): Deposit -> int {
    (d: Deposit) => if d.user == u && d.status == DepositStatus.Successful then d.amount else 0
  }

  function GivenBack(u: UserId): Withdrawal -> int {
    (w: Withdrawal) => if w.user == u && Refunded(w.status) then w.amount else 0
  }

  /** What `u` would hold without any deposit credited or withdrawal refunded. */
  function Kept(db: Db, u: UserId): int {
    Stored(db.wallets, u) - SumBy(db.deposits, PaidIn(u)) - SumBy(db.withdrawals, GivenBack(u))
  }

  /** What no trigger changes: who is paid how much, which wallets exist, the time, and the other accounts. */
  ghost predicate Frame(db: Db, db': Db) {
    && (forall u: UserId :: Kept(db', u) == Kept(db, u))
    && db'.wallets.Keys == db.wallets.Keys && db'.clock == db.clock
    && |db.rows| <= |db'.rows|
    && |db'.deposits| == |db.deposits| && |db'.withdrawals| == |db.withdrawals|
    && (forall d :: 0 <= d < |db.deposits| ==> SameDeposit(db.deposits[d], db'.deposits[d]))
    && (forall w :: 0 <= w < |db.withdrawals| ==> SameWithdrawal(db.withdrawals[w], db'.withdrawals[w]))
    && (forall a: Account :: a == Adjustments || a == DevFunding || a == OpeningBalances ==>
          AccountBalance(db'.journal, a) == AccountBalance(db.journal, a))
  }

  predicate SameDeposit(a: Deposit, b: Deposit) {
    a.user == b.user && a.amount == b.amount && a.createdAt == b.createdAt
  }

  predicate SameWithdrawal(a: Withdrawal, b: Withdrawal) {
    a.user == b.user && a.amount == b.amount && a.debitTransactionId == b.debitTransactionId && a.createdAt == b.createdAt
  }

  predicate OtherDepositsStay(db: Db, db': Db, d: nat) {
    && |db'.deposits| == |db.deposits| && db'.withdrawals == db.withdrawals
    && forall e :: 0 <= e < |db.deposits| && e != d ==> db'.deposits[e] == db.deposits[e]
  }

  predicate OtherWithdrawalsStay(db: Db, db': Db, w: nat) {
    && |db'.withdrawals| == |db.withdrawals| && db'.deposits == db.deposits
    && forall v :: 0 <= v < |db.withdrawals| && v != w ==> db'.withdrawals[v] == db.withdrawals[v]
  }

  lemma PostedFrame(db: Db, e: Entry, debit: Account, credit: Account, amount: int)
    requires e.lines == [Line(debit, amount), Line(credit, -amount)]
    requires debit.Wallet? || debit == PaystackClearing || debit == PayoutsInTransit
    requires credit.Wallet? || credit == PaystackClearing || credit == PayoutsInTransit
    ensures forall a: Account :: a == Adjustments || a == DevFunding || a == OpeningBalances ==>
              AccountBalance(db.journal + [e], a) == AccountBalance(db.journal, a)
  {
    forall a: Account | a == Adjustments || a == DevFunding || a == OpeningBalances
      ensures AccountBalance(db.journal + [e], a) == AccountBalance(db.journal, a)
    {
      PostMoves(db.journal, e, a);
      TwoLines(e, debit, credit, amount, a);
    }
  }

  lemma SettleDepositEnd(db: Db, d: nat)
    requires d < |db.deposits|
    ensures var db' := SettleDeposit(db, d);
      && Frame(db, db') && OtherDepositsStay(db, db', d)
      && db'.deposits[d].status == if db.deposits[d].status == DepositStatus.Pending && db.deposits[d].user in db.wallets
                                   then DepositStatus.Successful else db.deposits[d].status
  {
    var dep := db.deposits[d];
    PostedFrame(db, DepositMovement(dep, d, |db.rows|, db.clock), PaystackClearing, Wallet(dep.user), dep.amount);
    var db' := SettleDeposit(db, d);
    assert db'.wallets.Keys == db.wallets.Keys;
    forall u: UserId ensures Kept(db', u) == Kept(db, u) {
      if db' != db { SumUpdate(db.deposits, d, db'.deposits[d], PaidIn(u)); }
    }
  }

  lemma CloseDepositEnd(db: Db, d: nat, status: DepositStatus)
    requires d < |db.deposits| && db.deposits[d].status == DepositStatus.Pending && status != DepositStatus.Successful
    ensures var db' := SetDeposit(db, d, status);
      Frame(db, db') && OtherDepositsStay(db, db', d) && db'.deposits[d].status == status
  {
    var db' := SetDeposit(db, d, status);
    forall u: UserId ensures Kept(db', u) == Kept(db, u) {
      SumUpdate(db.deposits, d, db'.deposits[d], PaidIn(u));
    }
  }

  lemma RefundWithdrawalEnd(db: Db, w: nat, outcome: WithdrawalStatus)
    requires HasPayout(db, w) && Refunded(outcome)
    ensures var db' := RefundWithdrawal(db, w, outcome);
      && Frame(db, db') && OtherWithdrawalsStay(db, db', w)
      && db'.withdrawals[w].status == RefundEnd(db, w, outcome)
  {
    var wd := db.withdrawals[w];
    var e := RefundMovement(wd, wd.status, w, |db.rows|, db.clock);
    PostedFrame(db, e, e.lines[0].account, Wallet(wd.user), wd.amount);
    var db' := RefundWithdrawal(db, w, outcome);
    assert db'.wallets.Keys == db.wallets.Keys;
    forall u: UserId ensures Kept(db', u) == Kept(db, u) {
      if db' != db { SumUpdate(db.withdrawals, w, db'.withdrawals[w], GivenBack(u)); }
    }
  }

  lemma MarkSuccessfulEnd(db: Db, w: nat)
    requires HasPayout(db, w)
    ensures var db' := MarkSuccessful(db, w);
      && Frame(db, db') && OtherWithdrawalsStay(db, db', w)
      && db'.withdrawals[w].status ==
         if db.withdrawals[w].status == WithdrawalStatus.Processing then WithdrawalStatus.Successful else db.withdrawals[w].status
  {
    var wd := db.withdrawals[w];
    var e := Movement(WithdrawalPaid, wd.amount, PayoutsInTransit, PaystackClearing,
                      Some(WithdrawalRef(w)), Some(wd.debitTransactionId), db.clock);
    PostedFrame(db, e, PayoutsInTransit, PaystackClearing, wd.amount);
    var db' := MarkSuccessful(db, w);
    forall u: UserId ensures Kept(db', u) == Kept(db, u) {
      if db' != db { SumUpdate(db.withdrawals, w, db'.withdrawals[w], GivenBack(u)); }
    }
  }

  lemma CheckDepositEnd(db: Db, d: nat, payment: Payment)
    requires d < |db.deposits|
    ensures var db' := ConfirmDeposit(db, d, payment);
      && Frame(db, db') && OtherDepositsStay(db, db', d)
      && db'.deposits[d].status == DepositEnd(db, d, payment, true, false)
  {
    hide Frame, SettleDeposit, SetDeposit;
    SettleDepositEnd(db, d);
    if db.deposits[d].status == DepositStatus.Pending { CloseDepositEnd(db, d, DepositStatus.Failed); }
    Same(db);
  }

  lemma Same(db: Db)
    ensures Frame(db, db)
  {
  }

  lemma FrameTransitive(a: Db, b: Db, c: Db)
    requires Frame(a, b) && Frame(b, c)
    ensures Frame(a, c)
  {
  }

  lemma SweepDepositEnd(db: Db, d: nat, payment: Payment)
    requires d < |db.deposits|
    ensures var db' := SweepDeposit(db, d, payment);
      && Frame(db, db') && OtherDepositsStay(db, db', d)
      && db'.deposits[d].status == DepositEnd(db, d, payment, false, true)
  {
    CheckDepositEnd(db, d, payment);
    var checked := ConfirmDeposit(db, d, payment);
    if checked.deposits[d].status == DepositStatus.Pending {
      CloseDepositEnd(checked, d, DepositStatus.Abandoned);
      FrameTransitive(db, checked, SetDeposit(checked, d, DepositStatus.Abandoned));
    }
    Same(db);
    assert SameDeposit(db.deposits[d], checked.deposits[d]);
    hide Frame, ConfirmDeposit, SetDeposit;
  }

  lemma CheckWithdrawalEnd(db: Db, w: nat, answer: TransferAnswer)
    requires HasPayout(db, w)
    ensures var db' := ConfirmWithdrawal(db, w, answer);
      && Frame(db, db') && OtherWithdrawalsStay(db, db', w)
      && db'.withdrawals[w].status == WithdrawalEnd(db, w, answer, true)
  {
    hide Frame, RefundWithdrawal, MarkSuccessful;
    RefundWithdrawalEnd(db, w, WithdrawalStatus.Failed);
    RefundWithdrawalEnd(db, w, WithdrawalStatus.Reversed);
    MarkSuccessfulEnd(db, w);
    Same(db);
  }

  // ---------- Where a list of triggers ends ----------

  /** Every status is where the triggers in `ts`, taken together, put it. */
  ghost predicate EndsAt(db: Db, db': Db, ts: seq<Trigger>, o: Oracle) {
    && Frame(db, db')
    && (forall d :: 0 <= d < |db.deposits| ==>
          db'.deposits[d].status == DepositEnd(db, d, o.payment(d), DepositCheck(d) in ts, DepositSweep(d) in ts))
    && (forall w :: 0 <= w < |db.withdrawals| ==>
          db'.withdrawals[w].status == WithdrawalEnd(db, w, o.transfer(w), WithdrawalCheck(w) in ts))
  }

  ghost predicate PayoutsHaveRows(db: Db) {
    forall w :: 0 <= w < |db.withdrawals| ==> HasPayout(db, w)
  }

  lemma EndsWithDeposit(db: Db, mid: Db, db': Db, ts: seq<Trigger>, t: Trigger, d: nat, o: Oracle)
    requires EndsAt(db, mid, ts, o) && d < |db.deposits|
    requires t == DepositCheck(d) || t == DepositSweep(d)
    requires Frame(mid, db') && OtherDepositsStay(mid, db', d)
    requires db'.deposits[d].status == DepositEnd(mid, d, o.payment(d), t == DepositCheck(d), t == DepositSweep(d))
    ensures EndsAt(db, db', ts + [t], o)
  {
    FrameTransitive(db, mid, db');
    assert SameDeposit(db.deposits[d], mid.deposits[d]);
    forall e | 0 <= e < |db.deposits|
      ensures db'.deposits[e].status == DepositEnd(db, e, o.payment(e), DepositCheck(e) in ts + [t], DepositSweep(e) in ts + [t])
    {
      hide Frame;
    }
  }

  lemma EndsWithWithdrawal(db: Db, mid: Db, db': Db, ts: seq<Trigger>, w: nat, o: Oracle)
    requires EndsAt(db, mid, ts, o) && w < |db.withdrawals|
    requires Frame(mid, db') && OtherWithdrawalsStay(mid, db', w)
    requires db'.withdrawals[w].status == WithdrawalEnd(mid, w, o.transfer(w), true)
    ensures EndsAt(db, db', ts + [WithdrawalCheck(w)], o)
  {
    FrameTransitive(db, mid, db');
    assert SameWithdrawal(db.withdrawals[w], mid.withdrawals[w]);
  }

  /** `t` is about a payment that does not exist. */
  predicate Unknown(db: Db, t: Trigger) {
    match t
    case DepositCheck(d) => |db.deposits| <= d
    case DepositSweep(d) => |db.deposits| <= d
    case WithdrawalCheck(w) => |db.withdrawals| <= w
  }

  lemma EndsUnmoved(db: Db, mid: Db, ts: seq<Trigger>, t: Trigger, o: Oracle)
    requires EndsAt(db, mid, ts, o)
    requires Unknown(db, t)
    ensures EndsAt(db, mid, ts + [t], o)
  {
  }

  lemma OneMoreEnds(db: Db, mid: Db, ts: seq<Trigger>, t: Trigger, o: Oracle)
    requires PayoutsHaveRows(db) && EndsAt(db, mid, ts, o)
    ensures EndsAt(db, Fire(mid, t, o), ts + [t], o)
  {
    assert Frame(db, mid);
    LengthsKept(db, mid);
    hide EndsAt, Frame, ConfirmDeposit, ConfirmWithdrawal, SweepDeposit, OtherDepositsStay, OtherWithdrawalsStay;
    hide DepositEnd, WithdrawalEnd;
    match t
    case DepositCheck(d) =>
      if d < |db.deposits| { CheckDepositEnd(mid, d, o.payment(d)); EndsWithDeposit(db, mid, Fire(mid, t, o), ts, t, d, o); }
      else { EndsUnmoved(db, mid, ts, t, o); }
    case DepositSweep(d) =>
      if d < |db.deposits| { SweepDepositEnd(mid, d, o.payment(d)); EndsWithDeposit(db, mid, Fire(mid, t, o), ts, t, d, o); }
      else { EndsUnmoved(db, mid, ts, t, o); }
    case WithdrawalCheck(w) =>
      if w < |db.withdrawals| {
        assert HasPayout(mid, w);
        CheckWithdrawalEnd(mid, w, o.transfer(w)); EndsWithWithdrawal(db, mid, Fire(mid, t, o), ts, w, o);
      } else { EndsUnmoved(db, mid, ts, t, o); }
  }

  lemma {:induction false} FireAllEnds(db: Db, ts: seq<Trigger>, o: Oracle)
    requires PayoutsHaveRows(db)
    ensures EndsAt(db, FireAll(db, ts, o), ts, o)
  {
    if ts == [] {
      Same(db);
    } else {
      var n := |ts| - 1;
      assert ts[..n] + [ts[n]] == ts;
      FireAllEnds(db, ts[..n], o);
      hide EndsAt, Fire, PayoutsHaveRows;
      OneMoreEnds(db, FireAll(db, ts[..n], o), ts[..n], ts[n], o);
    }
  }

  lemma LengthsKept(db: Db, mid: Db)
    requires Frame(db, mid)
    ensures |mid.deposits| == |db.deposits| && |mid.withdrawals| == |db.withdrawals|
    ensures PayoutsHaveRows(db) ==> PayoutsHaveRows(mid)
  {
    forall w | PayoutsHaveRows(db) && 0 <= w < |mid.withdrawals| ensures HasPayout(mid, w) {
      assert SameWithdrawal(db.withdrawals[w], mid.withdrawals[w]) && HasPayout(db, w);
    }
  }
}
