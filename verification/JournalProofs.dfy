/**
 * Every step keeps the journal posted: each movement that calls for an entry has one, with the lines the
 * movement calls for, and no settled row has two. A withdrawal's own row is the exception: that the bank
 * was paid is posted under it as well.
 */
module JournalProofs {
  import opened Basics
  import opened Tables
  import opened Ledger
  import opened Steps
  import opened Invariants
  import opened RowProofs

  lemma EntryStaysOk(rows: seq<Transaction>, rows': seq<Transaction>, e: Entry, ledgerStart: int)
    requires RowsEvolve(rows, rows') && EntryOk(rows, e, ledgerStart)
    ensures EntryOk(rows', e, ledgerStart)
  {
    if e.transactionId.Some? {
      assert RowStep(rows[e.transactionId.value], rows'[e.transactionId.value]);
    }
  }

  /** A leg added by the step belongs to a transfer no entry speaks of yet. */
  ghost predicate NewLegsFresh(db: Db, db': Db) {
    forall j :: |db.rows| <= j < |db'.rows| && Leg(db'.rows[j]) ==> db'.rows[j].transferId == Some(db.transfers)
  }

  lemma OldEntriesStand(db: Db, db': Db)
    requires RowsOk(db) && Posted(db)
    requires RowsEvolve(db.rows, db'.rows) && NewLegsFresh(db, db')
    ensures JournalOk(db'.rows, db.journal, db.ledgerStart)
    ensures TransfersPosted(db'.rows, db.journal)
    ensures PostedOnce(db'.rows, db.journal)
  {
    forall k | 0 <= k < |db.journal| ensures EntryOk(db'.rows, db.journal[k], db.ledgerStart) {
      EntryStaysOk(db.rows, db'.rows, db.journal[k], db.ledgerStart);
    }
    forall k, j | 0 <= k < |db.journal| && 0 <= j < |db'.rows| && ReceivesFrom(db'.rows, db.journal[k], db'.rows[j])
      ensures TransferLines(db.journal[k], db'.rows[db.journal[k].transactionId.value], db'.rows[j])
    {
      assert EntryOk(db.rows, db.journal[k], db.ledgerStart);
      var i := db.journal[k].transactionId.value;
      assert RowStep(db.rows[i], db'.rows[i]);
      assert RowOk(db.rows, i, db.transfers, db.ledgerStart, db.clock);
      assert j < |db.rows| && RowStep(db.rows[j], db'.rows[j]);
      assert ReceivesFrom(db.rows, db.journal[k], db.rows[j]);
    }
    forall k, m | 0 <= k < m < |db.journal| && db.journal[k].transactionId.Some? && db.journal[k].transactionId == db.journal[m].transactionId
      ensures db.journal[k].transactionId.value < |db'.rows| && db'.rows[db.journal[k].transactionId.value].origin.WithdrawalDebit?
    {
      assert EntryOk(db.rows, db.journal[k], db.ledgerStart);
      var i := db.journal[k].transactionId.value;
      assert RowStep(db.rows[i], db'.rows[i]);
    }
  }

  predicate NewlyNeedsEntry(db: Db, db': Db, x: nat)
    requires x < |db'.rows|
  {
    NeedsEntry(db'.rows[x]) && !(x < |db.rows| && NeedsEntry(db.rows[x]))
  }

  /** A step that posts nothing. */
  lemma NothingPosted(db: Db, db': Db)
    requires RowsOk(db) && Posted(db)
    requires RowsEvolve(db.rows, db'.rows) && NewLegsFresh(db, db')
    requires db'.journal == db.journal && db'.ledgerStart == db.ledgerStart
    requires forall x :: 0 <= x < |db'.rows| ==> !NewlyNeedsEntry(db, db', x)
    ensures Posted(db')
  {
    OldEntriesStand(db, db');
    forall x | 0 <= x < |db'.rows| && NeedsEntry(db'.rows[x]) ensures HasEntry(db'.journal, x) {
      assert !NewlyNeedsEntry(db, db', x);
    }
  }

  /** A step that posts one entry, for row `i`. */
  lemma OnePosted(db: Db, db': Db, e: Entry, i: TxId)
    requires RowsOk(db) && Posted(db)
    requires RowsEvolve(db.rows, db'.rows)
    requires forall j :: |db.rows| <= j < |db'.rows| ==> !Leg(db'.rows[j])
    requires db'.journal == db.journal + [e] && db'.ledgerStart == db.ledgerStart
    requires e.transactionId == Some(i) && EntryOk(db'.rows, e, db.ledgerStart)
    requires i < |db.rows| ==> !Settled(db.rows[i]) || db.rows[i].origin.WithdrawalDebit?
    requires forall j :: 0 <= j < |db'.rows| && ReceivesFrom(db'.rows, e, db'.rows[j]) ==> TransferLines(e, db'.rows[i], db'.rows[j])
    requires forall x :: 0 <= x < |db'.rows| && NewlyNeedsEntry(db, db', x) ==> x == i
    ensures Posted(db')
  {
    OldEntriesStand(db, db');
    var n := |db.journal|;
    forall k | 0 <= k < n + 1 ensures EntryOk(db'.rows, db'.journal[k], db.ledgerStart) {
      assert k < n ==> EntryOk(db'.rows, db.journal[k], db.ledgerStart);
    }
    forall k, m | 0 <= k < m < n + 1 && db'.journal[k].transactionId.Some? && db'.journal[k].transactionId == db'.journal[m].transactionId
      ensures db'.journal[k].transactionId.value < |db'.rows| && db'.rows[db'.journal[k].transactionId.value].origin.WithdrawalDebit?
    {
      assert EntryOk(db.rows, db.journal[k], db.ledgerStart);
      if m == n {
        assert RowStep(db.rows[i], db'.rows[i]);
      }
    }
    forall x | 0 <= x < |db'.rows| && NeedsEntry(db'.rows[x]) ensures HasEntry(db'.journal, x) {
      if NewlyNeedsEntry(db, db', x) {
        assert db'.journal[n].transactionId == Some(x);
      } else {
        var k :| 0 <= k < n && db.journal[k].transactionId == Some(x);
        assert db'.journal[k].transactionId == Some(x);
      }
    }
  }

  // ---------- Step by step ----------

  lemma SettleDirectPosts(db: Db, i: TxId)
    requires RowsOk(db) && Posted(db) && PendingDirect(db.rows, i) && db.rows[i].origin.Direct?
    requires RowsEvolve(db.rows, SettleDirect(db, i).rows)
    ensures Posted(SettleDirect(db, i))
  {
    var db' := SettleDirect(db, i);
    if CanBook(db, db.rows[i]) {
      var row := db.rows[i];
      var e := DirectEntry(row, i, db.clock);
      if row.kind == Credit {
        TwoLines(e, DevFunding, Wallet(row.user), row.amount, DevFunding);
      } else {
        TwoLines(e, Wallet(row.user), DevFunding, row.amount, DevFunding);
      }
      hide RowsOk, Posted;
      OnePosted(db, db', e, i);
    } else {
      hide RowsOk, Posted;
      NothingPosted(db, db');
    }
  }

  lemma SettledTransferEntry(db: Db, i: TxId, j: TxId)
    requires RowsOk(db) && TransfersPaired(db.rows) && PendingTransfer(db.rows, i, j) && db.rows[i].origin.TransferLeg?
    requires CanTransfer(db, db.rows[i], db.rows[j])
    ensures var db', e := SettleTransfer(db, i, j), TransferMovement(db.rows[i], db.rows[j], i, db.clock);
      && |db'.rows| == |db.rows| && db'.journal == db.journal + [e] && db'.ledgerStart == db.ledgerStart
      && e.transactionId == Some(i) && EntryOk(db'.rows, e, db.ledgerStart) && !Settled(db.rows[i])
      && (forall x :: 0 <= x < |db'.rows| && ReceivesFrom(db'.rows, e, db'.rows[x]) ==> TransferLines(e, db'.rows[i], db'.rows[x]))
      && (forall x :: 0 <= x < |db'.rows| && NewlyNeedsEntry(db, db', x) ==> x == i)
  {
    var db', e := SettleTransfer(db, i, j), TransferMovement(db.rows[i], db.rows[j], i, db.clock);
    TwoLines(e, Wallet(db.rows[i].user), Wallet(db.rows[j].user), db.rows[i].amount, DevFunding);
    BothBooked(db, i, j);
    forall x | 0 <= x < |db'.rows| && ReceivesFrom(db'.rows, e, db'.rows[x]) ensures TransferLines(e, db'.rows[i], db'.rows[x]) {
      OneCreditLeg(db.rows, x, j);
    }
  }

  lemma SettleTransferPosts(db: Db, i: TxId, j: TxId)
    requires RowsOk(db) && TransfersPaired(db.rows) && Posted(db) && PendingTransfer(db.rows, i, j)
    requires db.rows[i].origin.TransferLeg?
    requires RowsEvolve(db.rows, SettleTransfer(db, i, j).rows)
    ensures Posted(SettleTransfer(db, i, j))
  {
    if CanTransfer(db, db.rows[i], db.rows[j]) {
      SettledTransferEntry(db, i, j);
      hide RowsOk, TransfersPaired, Posted, SettleTransfer, EntryOk, TransferMovement, ReceivesFrom, TransferLines;
      OnePosted(db, SettleTransfer(db, i, j), TransferMovement(db.rows[i], db.rows[j], i, db.clock), i);
    } else {
      hide RowsOk, TransfersPaired, Posted;
      NothingPosted(db, SettleTransfer(db, i, j));
    }
  }

  /** The entry that undoes a single movement is balanced, and carries no transfer. */
  lemma SingleReversalEntryOk(db: Db, p: TxId)
    requires RowsOk(db) && Posted(db) && PendingReversal(db.rows, p)
    ensures var e := SingleReversalEntry(db.journal, db.rows[p], p, db.clock);
      && Balanced(e) && e.kind == ReversalEntry && e.transactionId == Some(p)
  {
    var row := db.rows[p];
    var found := FindByTransaction(db.journal, row.reversalOf.value);
    if found.Some? {
      assert EntryOk(db.rows, db.journal[found.value], db.ledgerStart);
      MirrorUndoes(db.journal[found.value], Some(p), db.clock, OpeningBalances);
    } else {
      var e := SingleReversalEntry(db.journal, row, p, db.clock);
      TwoLines(e, e.lines[0].account, e.lines[1].account, row.amount, OpeningBalances);
    }
  }

  lemma SettleSingleReversalPosts(db: Db, p: TxId)
    requires RowsOk(db) && ReversedOnce(db.rows) && Posted(db) && PendingReversal(db.rows, p) && db.rows[p].origin.ReversalRow?
    requires RowsEvolve(db.rows, SettleSingleReversal(db, p).rows)
    ensures Posted(SettleSingleReversal(db, p))
  {
    var db' := SettleSingleReversal(db, p);
    assert RowOk(db.rows, p, db.transfers, db.ledgerStart, db.clock);
    if CanBook(db, db.rows[p]) {
      SingleReversalEntryOk(db, p);
      OnePosted(db, db', SingleReversalEntry(db.journal, db.rows[p], p, db.clock), p);
    } else {
      NothingPosted(db, db');
    }
  }

  lemma TransferReversalEntryOk(db: Db, p: TxId, q: TxId)
    requires RowsOk(db) && Posted(db) && PendingTransferReversal(db.rows, p, q)
    ensures var e := TransferReversalEntry(db.journal, db.rows[p], db.rows[q], p, db.clock);
      && Balanced(e) && e.kind == ReversalEntry && e.transactionId == Some(p)
  {
    var found := FindByTransfer(db.journal, db.rows[p].transferId.value);
    if found.Some? {
      assert EntryOk(db.rows, db.journal[found.value], db.ledgerStart);
      MirrorUndoes(db.journal[found.value], Some(p), db.clock, OpeningBalances);
    } else {
      var e := TransferReversalEntry(db.journal, db.rows[p], db.rows[q], p, db.clock);
      TwoLines(e, e.lines[0].account, e.lines[1].account, db.rows[p].amount, OpeningBalances);
    }
  }

  lemma ReversalAppends(db: Db, p: TxId, q: TxId)
    requires PendingTransferReversal(db.rows, p, q) && db.rows[p].user in db.wallets && CanBook(db, db.rows[q])
    ensures var db' := SettleTransferReversal(db, p, q);
      db'.journal == db.journal + [TransferReversalEntry(db.journal, db.rows[p], db.rows[q], p, db.clock)] && db'.ledgerStart == db.ledgerStart
  {
    hide TransferReversalEntry;
  }

  lemma SettledReversalEntry(db: Db, p: TxId, q: TxId)
    requires RowsOk(db) && ReversedOnce(db.rows) && TransfersPaired(db.rows) && Posted(db)
    requires PendingTransferReversal(db.rows, p, q) && db.rows[p].origin.ReversalRow? && db.rows[q].origin.ReversalRow?
    requires db.rows[p].user in db.wallets && CanBook(db, db.rows[q])
    ensures var db', e := SettleTransferReversal(db, p, q), TransferReversalEntry(db.journal, db.rows[p], db.rows[q], p, db.clock);
      && |db'.rows| == |db.rows| && db'.journal == db.journal + [e] && db'.ledgerStart == db.ledgerStart
      && e.transactionId == Some(p) && EntryOk(db'.rows, e, db.ledgerStart) && !Settled(db.rows[p])
      && (forall x :: 0 <= x < |db'.rows| ==> !ReceivesFrom(db'.rows, e, db'.rows[x]))
      && (forall x :: 0 <= x < |db'.rows| && NewlyNeedsEntry(db, db', x) ==> x == p)
  {
    hide RowsOk, ReversedOnce, TransfersPaired, Posted;
    UndoneLegs(db, p, q);
    ReversalMoves(db, p, q);
    TransferReversalEntryOk(db, p, q);
    ReversalAppends(db, p, q);
    hide SettleTransferReversal, BookRow, TransferReversalEntry, Balanced;
  }

  lemma SettleTransferReversalPosts(db: Db, p: TxId, q: TxId)
    requires RowsOk(db) && ReversedOnce(db.rows) && TransfersPaired(db.rows) && Posted(db)
    requires PendingTransferReversal(db.rows, p, q) && db.rows[p].origin.ReversalRow? && db.rows[q].origin.ReversalRow?
    requires RowsEvolve(db.rows, SettleTransferReversal(db, p, q).rows)
    ensures Posted(SettleTransferReversal(db, p, q))
  {
    hide RowsOk, ReversedOnce, TransfersPaired, Posted;
    if db.rows[p].user in db.wallets && CanBook(db, db.rows[q]) {
      SettledReversalEntry(db, p, q);
      hide SettleTransferReversal, EntryOk, TransferReversalEntry, ReceivesFrom;
      OnePosted(db, SettleTransferReversal(db, p, q), TransferReversalEntry(db.journal, db.rows[p], db.rows[q], p, db.clock), p);
    } else {
      NothingPosted(db, SettleTransferReversal(db, p, q));
    }
  }

  /** A movement written in one go, with its own entry. */
  lemma AddMovementPosts(db: Db, db': Db, row: Transaction, e: Entry)
    requires RowsOk(db) && Posted(db)
    requires FreshMovement(db, row) && row.user in db.wallets && db.ledgerStart < db.clock
    requires db'.rows == BookRow(AddRow(db, row), |db.rows|).rows && db'.journal == db.journal + [e] && db'.ledgerStart == db.ledgerStart
    requires e.transactionId == Some(|db.rows|) && PostedAs(e.kind, row.origin) && e.kind != WithdrawalPaid
    requires e.reference.Some? ==> !e.reference.value.TransferRef?
    requires Balanced(e)
    requires row.origin.AdjustmentRow? ==> e.lines == SideLines(row, Adjustments)
    ensures Posted(db')
  {
    OnePosted(db, db', e, |db.rows|);
  }

  lemma SettleDepositPosts(db: Db, d: nat)
    requires RowsOk(db) && Posted(db) && d < |db.deposits|
    ensures Posted(SettleDeposit(db, d))
  {
    var dep := db.deposits[d];
    if dep.status == DepositStatus.Pending && dep.user in db.wallets {
      var row := NewRow(db, dep.user, Credit, dep.amount, None, None, Origin.DepositCredit(d));
      var e := DepositMovement(dep, d, |db.rows|, db.clock);
      TwoLines(e, PaystackClearing, Wallet(dep.user), dep.amount, DevFunding);
      AddMovementPosts(db, SettleDeposit(db, d), row, e);
    }
  }

  lemma CreateWithdrawalPosts(db: Db, u: UserId, amount: Amount)
    requires RowsOk(db) && Posted(db)
    ensures Posted(CreateWithdrawal(db, u, amount))
  {
    if CanWithdraw(db, u, amount) {
      var w := |db.withdrawals|;
      var row := NewRow(db, u, Debit, amount, None, None, Origin.WithdrawalDebit(w));
      var e := WithdrawalMovement(u, amount, w, |db.rows|, db.clock);
      TwoLines(e, Wallet(u), PayoutsInTransit, amount, DevFunding);
      AddMovementPosts(db, CreateWithdrawal(db, u, amount), row, e);
    }
  }

  lemma ApplyAdjustmentPosts(db: Db, a: nat, approver: UserId)
    requires RowsOk(db) && Posted(db) && a < |db.adjustments|
    ensures Posted(ApplyAdjustment(db, a, approver))
  {
    if CanApply(db, a) {
      var adj := db.adjustments[a];
      var row := NewRow(db, adj.user, adj.direction, adj.amount, None, None, Origin.AdjustmentRow(a));
      var e := AdjustmentMovement(adj, a, |db.rows|, db.clock);
      TwoLines(e, e.lines[0].account, e.lines[1].account, adj.amount, DevFunding);
      AddMovementPosts(db, ApplyAdjustment(db, a, approver), row, e);
    }
  }

  lemma MarkSuccessfulPosts(db: Db, w: nat)
    requires RowsOk(db) && Posted(db) && Linked(db) && w < |db.withdrawals|
    ensures Posted(MarkSuccessful(db, w))
  {
    var wd := db.withdrawals[w];
    var db' := MarkSuccessful(db, w);
    if db' != db {
      assert WithdrawalOk(db.rows, db.withdrawals, w);
      var e := db'.journal[|db.journal|];
      TwoLines(e, PayoutsInTransit, PaystackClearing, wd.amount, DevFunding);
      OnePosted(db, db', e, wd.debitTransactionId);
    }
  }

  lemma RefundPosts(db: Db, w: nat, outcome: WithdrawalStatus, read: WithdrawalStatus)
    requires RowsOk(db) && Posted(db) && w < |db.withdrawals| && WithdrawalOk(db.rows, db.withdrawals, w)
    requires RowsEvolve(db.rows, RefundWithRead(db, w, outcome, read).rows)
    ensures Posted(RefundWithRead(db, w, outcome, read))
  {
    var wd := db.withdrawals[w];
    var db' := RefundWithRead(db, w, outcome, read);
    if db' != db {
      var e := RefundMovement(wd, read, w, |db.rows|, db.clock);
      TwoLines(e, e.lines[0].account, e.lines[1].account, wd.amount, DevFunding);
      OnePosted(db, db', e, |db.rows|);
    }
  }
}
