/**
 * Every step keeps stored balances in agreement with the rows, with the ledger, and with the chain of
 * settled rows: in the order in which rows were settled each starts where the previous one of the same
 * wallet ended.
 */
module BalanceProofs {
  import opened Basics
  import opened Tables
  import opened Ledger
  import opened Steps
  import opened Invariants

  // ---------- Opening balances never move ----------

  lemma OpeningStands(journal: seq<Entry>, e: Entry, u: UserId)
    requires e.kind != OpeningBalance
    ensures OpeningAmount(journal + [e], u) == OpeningAmount(journal, u)
    ensures Since(journal + [e], u) == Since(journal, u)
  {
    FindEntryAppend(journal, e, Opens(u));
  }

  ghost predicate OpeningsEarly(db: Db) {
    forall k :: 0 <= k < |db.journal| && db.journal[k].kind == OpeningBalance ==> db.journal[k].createdAt <= db.ledgerStart
  }

  lemma OpeningsAreEarly(db: Db)
    requires Posted(db)
    ensures OpeningsEarly(db)
  {
    forall k | 0 <= k < |db.journal| && db.journal[k].kind == OpeningBalance ensures db.journal[k].createdAt <= db.ledgerStart {
      assert EntryOk(db.rows, db.journal[k], db.ledgerStart);
    }
  }

  lemma SinceBeforeLedger(db: Db, u: UserId)
    requires OpeningsEarly(db)
    ensures Since(db.journal, u).Some? ==> Since(db.journal, u).value <= db.ledgerStart
  {
  }

  // ---------- Against the rows ----------

  /** Adding a row that has not settled changes no computed balance. */
  lemma AddRowKeepsBalances(db: Db, row: Transaction)
    requires BalancedByRows(db) && !Settled(row)
    ensures BalancedByRows(AddRow(db, row))
  {
    forall u: UserId
      ensures Stored(db.wallets, u) == OpeningAmount(db.journal, u) + SumBy(db.rows + [row], NetOf(u, Since(db.journal, u)))
    {
      SumAppend(db.rows, row, NetOf(u, Since(db.journal, u)));
    }
  }

  /** Neither does failing a pending row, nor marking a settled one REVERSED: both statuses count. */
  lemma SetStatusKeepsBalances(db: Db, i: TxId, status: TxStatus)
    requires BalancedByRows(db) && i < |db.rows|
    requires Settled(db.rows[i]) == (status == TxStatus.Successful || status == TxStatus.Reversed)
    ensures BalancedByRows(SetStatus(db, i, status))
  {
    forall u: UserId
      ensures Stored(db.wallets, u) == OpeningAmount(db.journal, u) + SumBy(SetStatus(db, i, status).rows, NetOf(u, Since(db.journal, u)))
    {
      SumUpdate(db.rows, i, db.rows[i].(status := status), NetOf(u, Since(db.journal, u)));
    }
  }

  lemma BookRowKeepsBalances(db: Db, i: TxId)
    requires BalancedByRows(db) && OpeningsEarly(db)
    requires i < |db.rows| && CanBook(db, db.rows[i]) && !Settled(db.rows[i]) && db.ledgerStart < db.rows[i].timestamp
    ensures BalancedByRows(BookRow(db, i))
  {
    var db' := BookRow(db, i);
    forall u: UserId
      ensures Stored(db'.wallets, u) == OpeningAmount(db.journal, u) + SumBy(db'.rows, NetOf(u, Since(db.journal, u)))
    {
      SinceBeforeLedger(db, u);
      assert Stored(db.wallets, u) == OpeningAmount(db.journal, u) + SumBy(db.rows, NetOf(u, Since(db.journal, u)));
      SumUpdate(db.rows, i, db'.rows[i], NetOf(u, Since(db.journal, u)));
    }
  }

  lemma PostKeepsBalances(db: Db, e: Entry)
    requires BalancedByRows(db) && e.kind != OpeningBalance
    ensures BalancedByRows(PostEntry(db, e))
  {
    forall u: UserId
      ensures Stored(db.wallets, u) == OpeningAmount(db.journal + [e], u) + SumBy(db.rows, NetOf(u, Since(db.journal + [e], u)))
    {
      OpeningStands(db.journal, e, u);
      assert Stored(db.wallets, u) == OpeningAmount(db.journal, u) + SumBy(db.rows, NetOf(u, Since(db.journal, u)));
    }
  }

  // ---------- Against the order of commits ----------

  lemma {:induction false} ChainSame(rows: seq<Transaction>, rows': seq<Transaction>, commits: seq<TxId>, u: UserId, start: int)
    requires CommitsInRange(rows, commits) && CommitsInRange(rows', commits)
    requires forall c :: 0 <= c < |commits| ==>
               var a, b := rows[commits[c]], rows'[commits[c]];
               a.user == b.user && a.kind == b.kind && a.amount == b.amount && a.balanceBefore == b.balanceBefore && a.balanceAfter == b.balanceAfter
    ensures ChainEnd(rows', commits, u, start) == ChainEnd(rows, commits, u, start)
    ensures Chained(rows', commits, u, start) == Chained(rows, commits, u, start)
  {
    if commits != [] {
      var n := |commits| - 1;
      assert commits[n] < |rows| && commits[n] < |rows'|;
      ChainSame(rows, rows', commits[..n], u, start);
    }
  }

  /** Rows may come and change status; the settled ones keep their balances. */
  lemma ChainsStand(db: Db, db': Db)
    requires BalancesChained(db)
    requires db'.wallets == db.wallets && db'.journal == db.journal && db'.commits == db.commits
    requires |db.rows| <= |db'.rows|
    requires forall i :: 0 <= i < |db.rows| ==>
               SameIdentity(db.rows[i], db'.rows[i]) && db'.rows[i].balanceBefore == db.rows[i].balanceBefore && db'.rows[i].balanceAfter == db.rows[i].balanceAfter
    ensures BalancesChained(db')
  {
    forall u: UserId
      ensures Chained(db'.rows, db'.commits, u, OpeningAmount(db'.journal, u))
      ensures ChainEnd(db'.rows, db'.commits, u, OpeningAmount(db'.journal, u)) == Stored(db'.wallets, u)
    {
      ChainSame(db.rows, db'.rows, db.commits, u, OpeningAmount(db.journal, u));
    }
  }

  lemma BookRowKeepsChains(db: Db, i: TxId)
    requires BalancesChained(db) && i < |db.rows| && db.rows[i].user in db.wallets && i !in db.commits
    ensures BalancesChained(BookRow(db, i))
  {
    var db' := BookRow(db, i);
    var n := |db.commits|;
    assert db'.commits[..n] == db.commits;
    forall u: UserId
      ensures Chained(db'.rows, db'.commits, u, OpeningAmount(db.journal, u))
      ensures ChainEnd(db'.rows, db'.commits, u, OpeningAmount(db.journal, u)) == Stored(db'.wallets, u)
    {
      ChainSame(db.rows, db'.rows, db.commits, u, OpeningAmount(db.journal, u));
    }
  }

  lemma PostKeepsChains(db: Db, e: Entry)
    requires BalancesChained(db) && e.kind != OpeningBalance
    ensures BalancesChained(PostEntry(db, e))
  {
    forall u: UserId
      ensures Chained(db.rows, db.commits, u, OpeningAmount(db.journal + [e], u))
      ensures ChainEnd(db.rows, db.commits, u, OpeningAmount(db.journal + [e], u)) == Stored(db.wallets, u)
    {
      OpeningStands(db.journal, e, u);
    }
  }

  lemma CommitsStand(db: Db, db': Db)
    requires CommitsComplete(db.rows, db.commits) && db'.commits == db.commits
    requires |db.rows| <= |db'.rows|
    requires forall i :: 0 <= i < |db.rows| ==> Settled(db'.rows[i]) == Settled(db.rows[i]) && db'.rows[i].origin == db.rows[i].origin
    requires forall i :: |db.rows| <= i < |db'.rows| ==> !Settled(db'.rows[i])
    ensures CommitsComplete(db'.rows, db'.commits)
  {
    forall i | 0 <= i < |db'.rows| ensures i in db'.commits <==> Settled(db'.rows[i]) && !db'.rows[i].origin.BeforeLedger? {
      if |db.rows| <= i {
        assert i !in db.commits;
      }
    }
  }

  lemma BookRowKeepsCommits(db: Db, i: TxId)
    requires CommitsComplete(db.rows, db.commits)
    requires i < |db.rows| && db.rows[i].user in db.wallets && !Settled(db.rows[i]) && !db.rows[i].origin.BeforeLedger?
    ensures i !in db.commits && CommitsComplete(BookRow(db, i).rows, BookRow(db, i).commits)
  {
    assert i !in db.commits;
    var db' := BookRow(db, i);
    forall x | 0 <= x < |db'.rows| ensures x in db'.commits <==> Settled(db'.rows[x]) && !db'.rows[x].origin.BeforeLedger? {
      assert x in db'.commits <==> x in db.commits || x == i;
    }
  }

  // ---------- The three readings of one wallet, step by step ----------

  lemma AddRowBalances(db: Db, row: Transaction)
    requires Balances(db) && !Settled(row)
    ensures Balances(AddRow(db, row))
  {
    AddRowKeepsBalances(db, row);
    ChainsStand(db, AddRow(db, row));
    CommitsStand(db, AddRow(db, row));
  }

  lemma SetStatusBalances(db: Db, i: TxId, status: TxStatus)
    requires Balances(db) && i < |db.rows|
    requires Settled(db.rows[i]) == (status == TxStatus.Successful || status == TxStatus.Reversed)
    ensures Balances(SetStatus(db, i, status))
  {
    SetStatusKeepsBalances(db, i, status);
    ChainsStand(db, SetStatus(db, i, status));
    CommitsStand(db, SetStatus(db, i, status));
  }

  lemma BookRowBalances(db: Db, i: TxId)
    requires Balances(db) && OpeningsEarly(db)
    requires i < |db.rows| && CanBook(db, db.rows[i]) && !Settled(db.rows[i])
    requires db.ledgerStart < db.rows[i].timestamp && !db.rows[i].origin.BeforeLedger?
    ensures Balances(BookRow(db, i)) && OpeningsEarly(BookRow(db, i))
  {
    BookRowKeepsBalances(db, i);
    BookRowKeepsCommits(db, i);
    BookRowKeepsChains(db, i);
  }

  lemma PostBalances(db: Db, e: Entry)
    requires Balances(db) && e.kind != OpeningBalance
    ensures Balances(PostEntry(db, e))
  {
    PostKeepsBalances(db, e);
    PostKeepsChains(db, e);
  }

  lemma SettleDirectBalances(db: Db, i: TxId)
    requires Balances(db) && OpeningsEarly(db) && RowsOk(db) && PendingDirect(db.rows, i)
    ensures Balances(SettleDirect(db, i))
  {
    assert RowOk(db.rows, i, db.transfers, db.ledgerStart, db.clock);
    if CanBook(db, db.rows[i]) {
      BookRowBalances(db, i);
      PostBalances(BookRow(db, i), DirectEntry(db.rows[i], i, db.clock));
    } else {
      SetStatusBalances(db, i, TxStatus.Failed);
    }
  }

  /** Two rows of different users settle one after the other. */
  lemma BookTwoBalances(db: Db, i: TxId, j: TxId)
    requires Balances(db) && OpeningsEarly(db) && RowsOk(db)
    requires i < |db.rows| && j < |db.rows| && db.rows[i].user != db.rows[j].user
    requires db.rows[i].status == TxStatus.Pending && db.rows[j].status == TxStatus.Pending
    requires CanBook(db, db.rows[i]) && CanBook(db, db.rows[j])
    ensures Balances(BookRow(BookRow(db, i), j))
  {
    assert RowOk(db.rows, i, db.transfers, db.ledgerStart, db.clock);
    assert RowOk(db.rows, j, db.transfers, db.ledgerStart, db.clock);
    BookRowBalances(db, i);
    BookRowBalances(BookRow(db, i), j);
  }

  lemma FailTwoBalances(db: Db, i: TxId, j: TxId)
    requires Balances(db) && i < |db.rows| && j < |db.rows|
    requires db.rows[i].status == TxStatus.Pending && db.rows[j].status == TxStatus.Pending
    ensures Balances(SetStatus(SetStatus(db, i, TxStatus.Failed), j, TxStatus.Failed))
  {
    SetStatusBalances(db, i, TxStatus.Failed);
    SetStatusBalances(SetStatus(db, i, TxStatus.Failed), j, TxStatus.Failed);
  }

  lemma SettleTransferBalances(db: Db, i: TxId, j: TxId)
    requires Balances(db) && OpeningsEarly(db) && RowsOk(db) && PendingTransfer(db.rows, i, j)
    requires db.rows[i].user != db.rows[j].user
    ensures Balances(SettleTransfer(db, i, j))
  {
    if CanTransfer(db, db.rows[i], db.rows[j]) {
      BookTwoBalances(db, i, j);
      PostBalances(BookRow(BookRow(db, i), j), TransferMovement(db.rows[i], db.rows[j], i, db.clock));
    } else {
      FailTwoBalances(db, i, j);
    }
  }

  lemma SettleSingleReversalBalances(db: Db, p: TxId)
    requires Balances(db) && OpeningsEarly(db) && RowsOk(db) && PendingReversal(db.rows, p)
    requires Settled(db.rows[db.rows[p].reversalOf.value])
    ensures Balances(SettleSingleReversal(db, p))
  {
    assert RowOk(db.rows, p, db.transfers, db.ledgerStart, db.clock);
    if CanBook(db, db.rows[p]) {
      BookRowBalances(db, p);
      var marked := SetStatus(BookRow(db, p), db.rows[p].reversalOf.value, TxStatus.Reversed);
      SetStatusBalances(BookRow(db, p), db.rows[p].reversalOf.value, TxStatus.Reversed);
      PostBalances(marked, SingleReversalEntry(db.journal, db.rows[p], p, db.clock));
    } else {
      SetStatusBalances(db, p, TxStatus.Failed);
    }
  }

  lemma SettleTransferReversalBalances(db: Db, p: TxId, q: TxId)
    requires Balances(db) && OpeningsEarly(db) && RowsOk(db) && PendingTransferReversal(db.rows, p, q)
    requires db.rows[p].user != db.rows[q].user
    requires Settled(db.rows[db.rows[p].reversalOf.value]) && Settled(db.rows[db.rows[q].reversalOf.value])
    ensures Balances(SettleTransferReversal(db, p, q))
  {
    var back, out := db.rows[p], db.rows[q];
    if back.user in db.wallets && CanBook(db, out) {
      BookTwoBalances(db, p, q);
      var booked := BookRow(BookRow(db, p), q);
      SetStatusBalances(booked, back.reversalOf.value, TxStatus.Reversed);
      var half := SetStatus(booked, back.reversalOf.value, TxStatus.Reversed);
      SetStatusBalances(half, out.reversalOf.value, TxStatus.Reversed);
      var marked := SetStatus(half, out.reversalOf.value, TxStatus.Reversed);
      PostBalances(marked, TransferReversalEntry(db.journal, back, out, p, db.clock));
    } else {
      FailTwoBalances(db, p, q);
    }
  }

  /** A row written and settled in one go, whatever else the step writes in other tables. */
  lemma AddMovementBalances(db: Db, db': Db, row: Transaction, e: Entry)
    requires Balances(db) && OpeningsEarly(db) && db.ledgerStart < row.timestamp && !row.origin.BeforeLedger?
    requires row.status == TxStatus.Pending && CanBook(db, row) && e.kind != OpeningBalance
    requires (var b := PostEntry(BookRow(AddRow(db, row), |db.rows|), e);
      db'.wallets == b.wallets && db'.rows == b.rows && db'.journal == b.journal && db'.commits == b.commits)
    ensures Balances(db')
  {
    AddRowBalances(db, row);
    BookRowBalances(AddRow(db, row), |db.rows|);
    var b := PostEntry(BookRow(AddRow(db, row), |db.rows|), e);
    PostBalances(BookRow(AddRow(db, row), |db.rows|), e);
    SameBalances(b, db');
  }

  lemma SameBalances(b: Db, db': Db)
    requires Balances(b)
    requires db'.wallets == b.wallets && db'.rows == b.rows && db'.journal == b.journal && db'.commits == b.commits
    ensures Balances(db')
  {
    forall u: UserId
      ensures Stored(db'.wallets, u) == OpeningAmount(db'.journal, u) + SumBy(db'.rows, NetOf(u, Since(db'.journal, u)))
    {
      assert Stored(b.wallets, u) == OpeningAmount(b.journal, u) + SumBy(b.rows, NetOf(u, Since(b.journal, u)));
    }
    ChainsStand(b, db');
  }

  lemma SettleDepositBalances(db: Db, d: nat)
    requires Balances(db) && OpeningsEarly(db) && RowsOk(db) && d < |db.deposits|
    ensures Balances(SettleDeposit(db, d))
  {
    var dep := db.deposits[d];
    if dep.status == DepositStatus.Pending && dep.user in db.wallets {
      AddMovementBalances(db, SettleDeposit(db, d), NewRow(db, dep.user, Credit, dep.amount, None, None, Origin.DepositCredit(d)),
                          DepositMovement(dep, d, |db.rows|, db.clock));
    }
  }

  lemma CreateWithdrawalBalances(db: Db, u: UserId, amount: Amount)
    requires Balances(db) && OpeningsEarly(db) && RowsOk(db)
    ensures Balances(CreateWithdrawal(db, u, amount))
  {
    if CanWithdraw(db, u, amount) {
      var w := |db.withdrawals|;
      AddMovementBalances(db, CreateWithdrawal(db, u, amount), NewRow(db, u, Debit, amount, None, None, Origin.WithdrawalDebit(w)),
                          WithdrawalMovement(u, amount, w, |db.rows|, db.clock));
    }
  }

  lemma ApplyAdjustmentBalances(db: Db, a: nat, approver: UserId)
    requires Balances(db) && OpeningsEarly(db) && RowsOk(db) && a < |db.adjustments|
    ensures Balances(ApplyAdjustment(db, a, approver))
  {
    if CanApply(db, a) {
      var adj := db.adjustments[a];
      AddMovementBalances(db, ApplyAdjustment(db, a, approver),
                          NewRow(db, adj.user, adj.direction, adj.amount, None, None, Origin.AdjustmentRow(a)),
                          AdjustmentMovement(adj, a, |db.rows|, db.clock));
    }
  }

  lemma MarkSuccessfulBalances(db: Db, w: nat)
    requires Balances(db) && w < |db.withdrawals|
    ensures Balances(MarkSuccessful(db, w))
  {
    var db' := MarkSuccessful(db, w);
    if db' != db {
      var e := db'.journal[|db.journal|];
      PostBalances(db, e);
      SameBalances(PostEntry(db, e), db');
    }
  }

  lemma RefundBalances(db: Db, w: nat, outcome: WithdrawalStatus, read: WithdrawalStatus)
    requires Balances(db) && OpeningsEarly(db) && RowsOk(db) && w < |db.withdrawals|
    requires db.withdrawals[w].debitTransactionId < |db.rows| && Settled(db.rows[db.withdrawals[w].debitTransactionId])
    ensures Balances(RefundWithRead(db, w, outcome, read))
  {
    var wd := db.withdrawals[w];
    var db' := RefundWithRead(db, w, outcome, read);
    if Claimable(wd.status, outcome) && wd.user in db.wallets {
      var marked := SetStatus(db, wd.debitTransactionId, TxStatus.Reversed);
      SetStatusBalances(db, wd.debitTransactionId, TxStatus.Reversed);
      AddMovementBalances(marked, db', NewRow(db, wd.user, Credit, wd.amount, None, Some(wd.debitTransactionId), Origin.RefundCredit(w)),
                          RefundMovement(wd, read, w, |db.rows|, db.clock));
    }
  }
}
