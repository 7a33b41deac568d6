/**
 * Every ledger account says what the tables say: wallets mirror stored balances, payouts in transit
 * mirror PROCESSING withdrawals, Paystack clearing mirrors settled payments, and the adjustment and
 * development accounts mirror the movements nobody has undone.
 */
module AccountProofs {
  import opened Basics
  import opened Tables
  import opened Ledger
  import opened Steps
  import opened Invariants

  // ---------- What the tables say an account should hold ----------

  function WithdrawnAs(status: WithdrawalStatus): Withdrawal -> int {
    (w: Withdrawal) => if w.status == status then w.amount else 0
  }

  function DepositedAs(status: DepositStatus): Deposit -> int {
    (d: Deposit) => if d.status == status then d.amount else 0
  }

  /** Direct movements that nobody has reversed. */
  function StandingDirect(): Transaction -> int {
    (t: Transaction) => if t.origin.Direct? && t.status == TxStatus.Successful then Signed(t) else 0
  }

  function StandingAdjustment(): Transaction -> int {
    (t: Transaction) => if t.origin.AdjustmentRow? && t.status == TxStatus.Successful then Signed(t) else 0
  }

  /** Reversals, since the ledger started, of single movements older than it. */
  function UndoneHistory(): Transaction -> int {
    (t: Transaction) => if UndoesHistory(t) && t.status == TxStatus.Successful then Signed(t) else 0
  }

  predicate UndoesHistory(t: Transaction) {
    t.origin.ReversalRow? && t.origin.ofHistory && t.transferId.None?
  }

  function Expected(db: Db, a: Account): int {
    match a
    case Wallet(u) => -Stored(db.wallets, u)
    case PayoutsInTransit => -SumBy(db.withdrawals, WithdrawnAs(WithdrawalStatus.Processing))
    case PaystackClearing =>
      SumBy(db.deposits, DepositedAs(DepositStatus.Successful)) - SumBy(db.withdrawals, WithdrawnAs(WithdrawalStatus.Successful))
    case Adjustments => SumBy(db.rows, StandingAdjustment())
    case DevFunding => SumBy(db.rows, StandingDirect())
    case OpeningBalances => SumBy(db.rows, UndoneHistory())
  }

  /** How far an account is from what the tables say: what it held before the ledger knew the tables. */
  function Gap(db: Db, a: Account): int {
    AccountBalance(db.journal, a) - Expected(db, a)
  }

  ghost predicate SameGaps(db: Db, db': Db) {
    forall a: Account :: Gap(db', a) == Gap(db, a)
  }

  // ---------- What each write does to it ----------

  /** What a standing movement of row `t` adds to the expectation for account `a`. */
  function RowWeight(t: Transaction, a: Account): int {
    if a == DevFunding && t.origin.Direct? then Signed(t)
    else if a == Adjustments && t.origin.AdjustmentRow? then Signed(t)
    else if a == OpeningBalances && UndoesHistory(t) then Signed(t)
    else 0
  }

  lemma AddRowExpected(db: Db, row: Transaction, a: Account)
    requires row.status == TxStatus.Pending
    ensures Expected(AddRow(db, row), a) == Expected(db, a)
  {
    SumAppend(db.rows, row, StandingDirect());
    SumAppend(db.rows, row, StandingAdjustment());
    SumAppend(db.rows, row, UndoneHistory());
  }

  lemma SetStatusExpected(db: Db, i: TxId, status: TxStatus, a: Account)
    requires i < |db.rows| && status != TxStatus.Successful
    ensures Expected(SetStatus(db, i, status), a) ==
            Expected(db, a) - (if db.rows[i].status == TxStatus.Successful then RowWeight(db.rows[i], a) else 0)
  {
    var row := db.rows[i].(status := status);
    SumUpdate(db.rows, i, row, StandingDirect());
    SumUpdate(db.rows, i, row, StandingAdjustment());
    SumUpdate(db.rows, i, row, UndoneHistory());
  }

  lemma BookRowExpected(db: Db, i: TxId, a: Account)
    requires i < |db.rows| && db.rows[i].user in db.wallets && db.rows[i].status == TxStatus.Pending
    ensures Expected(BookRow(db, i), a) ==
            Expected(db, a) + RowWeight(db.rows[i], a) - (if a == Wallet(db.rows[i].user) then Signed(db.rows[i]) else 0)
  {
    var row := BookRow(db, i).rows[i];
    SumUpdate(db.rows, i, row, StandingDirect());
    SumUpdate(db.rows, i, row, StandingAdjustment());
    SumUpdate(db.rows, i, row, UndoneHistory());
  }

  // ---------- Direct movements and transfers ----------

  lemma SettleDirectAccounts(db: Db, i: TxId)
    requires PendingDirect(db.rows, i) && db.rows[i].origin.Direct?
    ensures SameGaps(db, SettleDirect(db, i))
  {
    var row, db' := db.rows[i], SettleDirect(db, i);
    forall a: Account ensures Gap(db', a) == Gap(db, a) {
      if CanBook(db, row) {
        var e := DirectEntry(row, i, db.clock);
        BookRowExpected(db, i, a);
        TwoLines(e, e.lines[0].account, e.lines[1].account, row.amount, a);
        PostMoves(db.journal, e, a);
      } else {
        SetStatusExpected(db, i, TxStatus.Failed, a);
      }
    }
  }

  lemma FailTwoAccounts(db: Db, i: TxId, j: TxId, a: Account)
    requires i < |db.rows| && j < |db.rows|
    requires db.rows[i].status == TxStatus.Pending && db.rows[j].status == TxStatus.Pending
    ensures Gap(SetStatus(SetStatus(db, i, TxStatus.Failed), j, TxStatus.Failed), a) == Gap(db, a)
  {
    SetStatusExpected(db, i, TxStatus.Failed, a);
    SetStatusExpected(SetStatus(db, i, TxStatus.Failed), j, TxStatus.Failed, a);
  }

  lemma BookTwoExpected(db: Db, i: TxId, j: TxId, a: Account)
    requires i < |db.rows| && j < |db.rows| && i != j && db.rows[i].user in db.wallets && db.rows[j].user in db.wallets
    requires db.rows[i].status == TxStatus.Pending && db.rows[j].status == TxStatus.Pending
    requires forall b: Account :: RowWeight(db.rows[i], b) == 0 == RowWeight(db.rows[j], b)
    ensures Expected(BookRow(BookRow(db, i), j), a) ==
            Expected(db, a) - (if a == Wallet(db.rows[i].user) then Signed(db.rows[i]) else 0)
                            - (if a == Wallet(db.rows[j].user) then Signed(db.rows[j]) else 0)
  {
    BookRowExpected(db, i, a);
    BookRowExpected(BookRow(db, i), j, a);
  }

  lemma SettleTransferAccounts(db: Db, i: TxId, j: TxId)
    requires PendingTransfer(db.rows, i, j) && db.rows[i].amount == db.rows[j].amount
    requires db.rows[i].origin.TransferLeg? && db.rows[j].origin.TransferLeg?
    ensures SameGaps(db, SettleTransfer(db, i, j))
  {
    var debit, credit, db' := db.rows[i], db.rows[j], SettleTransfer(db, i, j);
    forall a: Account ensures Gap(db', a) == Gap(db, a) {
      if CanTransfer(db, debit, credit) {
        var e := TransferMovement(debit, credit, i, db.clock);
        BookTwoExpected(db, i, j, a);
        TwoLines(e, Wallet(debit.user), Wallet(credit.user), debit.amount, a);
        PostMoves(db.journal, e, a);
      } else {
        FailTwoAccounts(db, i, j, a);
      }
    }
  }

  // ---------- Payments and adjustments ----------

  /** A row written and settled in one go: what it does to the expectations it does to the rows' ones. */
  lemma AddMovementExpected(db: Db, row: Transaction, a: Account)
    requires row.status == TxStatus.Pending && row.user in db.wallets
    ensures Expected(BookRow(AddRow(db, row), |db.rows|), a) ==
            Expected(db, a) + RowWeight(row, a) - (if a == Wallet(row.user) then Signed(row) else 0)
  {
    AddRowExpected(db, row, a);
    BookRowExpected(AddRow(db, row), |db.rows|, a);
  }

  lemma SettleDepositAccounts(db: Db, d: nat)
    requires d < |db.deposits|
    ensures SameGaps(db, SettleDeposit(db, d))
  {
    var dep, db' := db.deposits[d], SettleDeposit(db, d);
    if dep.status == DepositStatus.Pending && dep.user in db.wallets {
      forall a: Account ensures Gap(db', a) == Gap(db, a) {
        var e := DepositMovement(dep, d, |db.rows|, db.clock);
        AddMovementExpected(db, NewRow(db, dep.user, Credit, dep.amount, None, None, Origin.DepositCredit(d)), a);
        SumUpdate(db.deposits, d, db'.deposits[d], DepositedAs(DepositStatus.Successful));
        TwoLines(e, PaystackClearing, Wallet(dep.user), dep.amount, a);
        PostMoves(db.journal, e, a);
      }
    }
  }

  lemma CloseDepositAccounts(db: Db, d: nat, status: DepositStatus)
    requires d < |db.deposits| && db.deposits[d].status == DepositStatus.Pending && status != DepositStatus.Successful
    ensures SameGaps(db, SetDeposit(db, d, status))
  {
    SumUpdate(db.deposits, d, db.deposits[d].(status := status), DepositedAs(DepositStatus.Successful));
  }

  lemma CreateDepositAccounts(db: Db, u: UserId, amount: Amount)
    ensures SameGaps(db, CreateDeposit(db, u, amount))
  {
    var db' := CreateDeposit(db, u, amount);
    if db' != db {
      SumAppend(db.deposits, db'.deposits[|db.deposits|], DepositedAs(DepositStatus.Successful));
    }
  }

  lemma CreateWithdrawalAccounts(db: Db, u: UserId, amount: Amount)
    ensures SameGaps(db, CreateWithdrawal(db, u, amount))
  {
    var db' := CreateWithdrawal(db, u, amount);
    if CanWithdraw(db, u, amount) {
      var w := |db.withdrawals|;
      forall a: Account ensures Gap(db', a) == Gap(db, a) {
        var e := WithdrawalMovement(u, amount, w, |db.rows|, db.clock);
        AddMovementExpected(db, NewRow(db, u, Debit, amount, None, None, Origin.WithdrawalDebit(w)), a);
        SumAppend(db.withdrawals, db'.withdrawals[w], WithdrawnAs(WithdrawalStatus.Processing));
        SumAppend(db.withdrawals, db'.withdrawals[w], WithdrawnAs(WithdrawalStatus.Successful));
        TwoLines(e, Wallet(u), PayoutsInTransit, amount, a);
        PostMoves(db.journal, e, a);
      }
    }
  }

  lemma MarkSuccessfulAccounts(db: Db, w: nat)
    requires w < |db.withdrawals|
    ensures SameGaps(db, MarkSuccessful(db, w))
  {
    var wd, db' := db.withdrawals[w], MarkSuccessful(db, w);
    if wd.status == WithdrawalStatus.Processing {
      forall a: Account ensures Gap(db', a) == Gap(db, a) {
        var e := db'.journal[|db.journal|];
        SumUpdate(db.withdrawals, w, db'.withdrawals[w], WithdrawnAs(WithdrawalStatus.Processing));
        SumUpdate(db.withdrawals, w, db'.withdrawals[w], WithdrawnAs(WithdrawalStatus.Successful));
        TwoLines(e, PayoutsInTransit, PaystackClearing, wd.amount, a);
        PostMoves(db.journal, e, a);
      }
    }
  }

  lemma RefundAccounts(db: Db, w: nat, outcome: WithdrawalStatus)
    requires w < |db.withdrawals| && WithdrawalOk(db.rows, db.withdrawals, w) && Refunded(outcome)
    ensures SameGaps(db, RefundWithdrawal(db, w, outcome))
  {
    var wd, db' := db.withdrawals[w], RefundWithdrawal(db, w, outcome);
    if Claimable(wd.status, outcome) && wd.user in db.wallets {
      var marked := SetStatus(db, wd.debitTransactionId, TxStatus.Reversed);
      forall a: Account ensures Gap(db', a) == Gap(db, a) {
        var e := RefundMovement(wd, wd.status, w, |db.rows|, db.clock);
        SetStatusExpected(db, wd.debitTransactionId, TxStatus.Reversed, a);
        AddMovementExpected(marked, NewRow(db, wd.user, Credit, wd.amount, None, Some(wd.debitTransactionId), Origin.RefundCredit(w)), a);
        SumUpdate(db.withdrawals, w, db'.withdrawals[w], WithdrawnAs(WithdrawalStatus.Processing));
        SumUpdate(db.withdrawals, w, db'.withdrawals[w], WithdrawnAs(WithdrawalStatus.Successful));
        TwoLines(e, e.lines[0].account, Wallet(wd.user), wd.amount, a);
        PostMoves(db.journal, e, a);
      }
    }
  }

  lemma ApplyAdjustmentAccounts(db: Db, a: nat, approver: UserId)
    requires a < |db.adjustments|
    ensures SameGaps(db, ApplyAdjustment(db, a, approver))
  {
    var db' := ApplyAdjustment(db, a, approver);
    if CanApply(db, a) {
      var adj := db.adjustments[a];
      forall b: Account ensures Gap(db', b) == Gap(db, b) {
        var e := AdjustmentMovement(adj, a, |db.rows|, db.clock);
        AddMovementExpected(db, NewRow(db, adj.user, adj.direction, adj.amount, None, None, Origin.AdjustmentRow(a)), b);
        TwoLines(e, e.lines[0].account, e.lines[1].account, adj.amount, b);
        PostMoves(db.journal, e, b);
      }
    }
  }
}
