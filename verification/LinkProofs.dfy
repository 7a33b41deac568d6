/**
 * Every step keeps deposits, withdrawals and adjustments tied to exactly their own rows: a settled payment
 * to the row that moved its money, a refunded withdrawal to its refund, and each such row back to the one
 * payment it belongs to.
 */
module LinkProofs {
  import opened Basics
  import opened Tables
  import opened Steps
  import opened Invariants

  predicate Unlinked(db: Db, i: TxId) {
    !HasDeposit(db.deposits, i) && !HasWithdrawal(db.withdrawals, i)
  }

  /** A step that leaves the payment tables alone, and neither undoes nor sets out to undo a payment. */
  ghost predicate LeavesPayments(db: Db, db': Db) {
    && db'.deposits == db.deposits && db'.withdrawals == db.withdrawals && db'.adjustments == db.adjustments
    && RowsEvolve(db.rows, db'.rows)
    && (forall i :: |db.rows| <= i < |db'.rows| ==>
          && (db'.rows[i].origin.Direct? || db'.rows[i].origin.TransferLeg? || db'.rows[i].origin.ReversalRow?)
          && (db'.rows[i].reversalOf.Some? ==> Unlinked(db, db'.rows[i].reversalOf.value)))
    && (forall i :: 0 <= i < |db.rows| && db'.rows[i].status != db.rows[i].status && db'.rows[i].status == TxStatus.Reversed ==>
          Unlinked(db, i) && db.rows[i].reversalOf.None?)
  }

  lemma DepositsLeft(db: Db, db': Db)
    requires DepositsLinked(db.rows, db.deposits) && LeavesPayments(db, db')
    ensures DepositsLinked(db'.rows, db'.deposits)
  {
    forall d | 0 <= d < |db.deposits| ensures DepositOk(db'.rows, db'.deposits, d) {
      assert DepositOk(db.rows, db.deposits, d);
      var dep := db.deposits[d];
      if dep.transactionId.Some? {
        assert RowStep(db.rows[dep.transactionId.value], db'.rows[dep.transactionId.value]);
      }
    }
    forall i | 0 <= i < |db'.rows| && db'.rows[i].origin.DepositCredit?
      ensures db'.rows[i].origin.deposit < |db.deposits| && db.deposits[db'.rows[i].origin.deposit].transactionId == Some(i)
    {
      assert i < |db.rows| && RowStep(db.rows[i], db'.rows[i]);
    }
    forall p, d | 0 <= p < |db'.rows| && 0 <= d < |db.deposits| && db'.rows[p].reversalOf.Some? && db'.rows[p].status != TxStatus.Failed
      ensures db'.rows[p].reversalOf != db.deposits[d].transactionId
    {
      if p < |db.rows| {
        assert RowStep(db.rows[p], db'.rows[p]);
      }
    }
  }

  lemma WithdrawalsLeft(db: Db, db': Db)
    requires WithdrawalsLinked(db.rows, db.withdrawals) && LeavesPayments(db, db')
    ensures WithdrawalsLinked(db'.rows, db'.withdrawals)
  {
    forall w | 0 <= w < |db.withdrawals| ensures WithdrawalOk(db'.rows, db'.withdrawals, w) {
      assert WithdrawalOk(db.rows, db.withdrawals, w);
      var wd := db.withdrawals[w];
      assert RowStep(db.rows[wd.debitTransactionId], db'.rows[wd.debitTransactionId]);
      if wd.refundTransactionId.Some? {
        var r := wd.refundTransactionId.value;
        assert RowStep(db.rows[r], db'.rows[r]);
      }
    }
    forall i | 0 <= i < |db'.rows| && (db'.rows[i].origin.WithdrawalDebit? || db'.rows[i].origin.RefundCredit?)
      ensures i < |db.rows| && db'.rows[i].origin == db.rows[i].origin
    {
      assert i < |db.rows| && RowStep(db.rows[i], db'.rows[i]);
    }
    forall w, r | 0 <= w < |db.withdrawals| && LiveReversal(db'.rows, r, db.withdrawals[w].debitTransactionId)
      ensures db.withdrawals[w].refundTransactionId == Some(r)
    {
      if r < |db.rows| {
        assert RowStep(db.rows[r], db'.rows[r]);
        assert LiveReversal(db.rows, r, db.withdrawals[w].debitTransactionId);
      }
    }
  }

  lemma AdjustmentsLeft(db: Db, db': Db)
    requires AdjustmentsLinked(db.rows, db.adjustments) && LeavesPayments(db, db')
    ensures AdjustmentsLinked(db'.rows, db'.adjustments)
  {
    forall a | 0 <= a < |db.adjustments| ensures AdjustmentOk(db'.rows, db'.adjustments, a) {
      assert AdjustmentOk(db.rows, db.adjustments, a);
      var adj := db.adjustments[a];
      if adj.transactionId.Some? {
        assert RowStep(db.rows[adj.transactionId.value], db'.rows[adj.transactionId.value]);
      }
    }
    forall i | 0 <= i < |db'.rows| && db'.rows[i].origin.AdjustmentRow?
      ensures i < |db.rows| && db'.rows[i].origin == db.rows[i].origin
    {
      assert i < |db.rows| && RowStep(db.rows[i], db'.rows[i]);
    }
  }

  lemma PaymentsLeft(db: Db, db': Db)
    requires Linked(db) && LeavesPayments(db, db')
    ensures Linked(db')
  {
    DepositsLeft(db, db');
    WithdrawalsLeft(db, db');
    AdjustmentsLeft(db, db');
  }

  // ---------- Deposits ----------

  lemma CreateDepositKeepsLinks(db: Db, u: UserId, amount: Amount)
    requires Linked(db)
    ensures Linked(CreateDeposit(db, u, amount))
  {
    var db' := CreateDeposit(db, u, amount);
    forall d | 0 <= d < |db'.deposits| ensures DepositOk(db'.rows, db'.deposits, d) {
      if d < |db.deposits| {
        assert DepositOk(db.rows, db.deposits, d);
      }
    }
  }

  /** Closing a PENDING deposit without money. */
  lemma CloseDepositKeepsLinks(db: Db, d: nat, status: DepositStatus)
    requires Linked(db)
    requires d < |db.deposits| && db.deposits[d].status == DepositStatus.Pending
    requires status == DepositStatus.Failed || status == DepositStatus.Abandoned
    ensures Linked(SetDeposit(db, d, status))
  {
    var db' := SetDeposit(db, d, status);
    forall e | 0 <= e < |db'.deposits| ensures DepositOk(db'.rows, db'.deposits, e) {
      assert DepositOk(db.rows, db.deposits, e);
    }
  }

  lemma SettleDepositKeepsLinks(db: Db, d: nat)
    requires RowsOk(db) && Linked(db) && d < |db.deposits|
    ensures Linked(SettleDeposit(db, d))
  {
    var db' := SettleDeposit(db, d);
    if db' != db {
      var i := |db.rows|;
      forall e | 0 <= e < |db'.deposits| ensures DepositOk(db'.rows, db'.deposits, e) {
        assert DepositOk(db.rows, db.deposits, e);
      }
      forall x | 0 <= x < |db'.rows| && db'.rows[x].origin.DepositCredit?
        ensures db'.rows[x].origin.deposit < |db'.deposits| && db'.deposits[db'.rows[x].origin.deposit].transactionId == Some(x)
      {
        if x < i {
          assert db'.rows[x] == db.rows[x] && DepositOk(db.rows, db.deposits, d);
        }
      }
      forall p, e | 0 <= p < |db'.rows| && 0 <= e < |db'.deposits| && db'.rows[p].reversalOf.Some? && db'.rows[p].status != TxStatus.Failed
        ensures db'.rows[p].reversalOf != db'.deposits[e].transactionId
      {
        assert p < |db.rows| && db'.rows[p] == db.rows[p];
        assert RowOk(db.rows, p, db.transfers, db.ledgerStart, db.clock);
      }
      forall w | 0 <= w < |db.withdrawals| ensures WithdrawalOk(db'.rows, db'.withdrawals, w) {
        assert WithdrawalOk(db.rows, db.withdrawals, w);
      }
      forall w, r | 0 <= w < |db.withdrawals| && LiveReversal(db'.rows, r, db.withdrawals[w].debitTransactionId)
        ensures db.withdrawals[w].refundTransactionId == Some(r)
      {
        assert LiveReversal(db.rows, r, db.withdrawals[w].debitTransactionId);
      }
      forall a | 0 <= a < |db.adjustments| ensures AdjustmentOk(db'.rows, db'.adjustments, a) {
        assert AdjustmentOk(db.rows, db.adjustments, a);
      }
    }
  }

  // ---------- Withdrawals ----------

  lemma WithdrawalCreated(db: Db, u: UserId, amount: Amount)
    requires CanWithdraw(db, u, amount)
    ensures var db', i := CreateWithdrawal(db, u, amount), |db.rows|;
      && |db'.rows| == i + 1 && (forall x :: 0 <= x < i ==> db'.rows[x] == db.rows[x])
      && db'.rows[i].user == u && db'.rows[i].kind == Debit && db'.rows[i].amount == amount
      && db'.rows[i].transferId.None? && db'.rows[i].reversalOf.None?
      && db'.rows[i].status == TxStatus.Successful && db'.rows[i].origin == Origin.WithdrawalDebit(|db.withdrawals|)
      && db'.withdrawals == db.withdrawals + [Withdrawal(u, amount, WithdrawalStatus.Processing, i, None, db.clock)]
      && db'.deposits == db.deposits && db'.adjustments == db.adjustments
  {
  }

  lemma CreateWithdrawalKeepsLinks(db: Db, u: UserId, amount: Amount)
    requires RowsOk(db) && Linked(db)
    ensures Linked(CreateWithdrawal(db, u, amount))
  {
    if CanWithdraw(db, u, amount) {
      var db' := CreateWithdrawal(db, u, amount);
      WithdrawalCreated(db, u, amount);
      hide CreateWithdrawal, CanWithdraw;
      CreatedKeepsWithdrawals(db, db');
      hide WithdrawalsLinked, RowsOk;
      forall e | 0 <= e < |db.deposits| ensures DepositOk(db'.rows, db'.deposits, e) {
        assert DepositOk(db.rows, db.deposits, e);
      }
      forall a | 0 <= a < |db.adjustments| ensures AdjustmentOk(db'.rows, db'.adjustments, a) {
        assert AdjustmentOk(db.rows, db.adjustments, a);
      }
    }
  }

  lemma CreatedKeepsWithdrawals(db: Db, db': Db)
    requires RowsOk(db) && WithdrawalsLinked(db.rows, db.withdrawals)
    requires |db'.rows| == |db.rows| + 1 && forall x :: 0 <= x < |db.rows| ==> db'.rows[x] == db.rows[x]
    requires db'.rows[|db.rows|].kind == Debit && db'.rows[|db.rows|].transferId.None? && db'.rows[|db.rows|].reversalOf.None?
    requires db'.rows[|db.rows|].status == TxStatus.Successful && db'.rows[|db.rows|].origin == Origin.WithdrawalDebit(|db.withdrawals|)
    requires db'.withdrawals == db.withdrawals +
               [Withdrawal(db'.rows[|db.rows|].user, db'.rows[|db.rows|].amount, WithdrawalStatus.Processing, |db.rows|, None, db.clock)]
    ensures WithdrawalsLinked(db'.rows, db'.withdrawals)
  {
    forall w | 0 <= w < |db'.withdrawals| ensures WithdrawalOk(db'.rows, db'.withdrawals, w) {
      if w < |db.withdrawals| {
        assert WithdrawalOk(db.rows, db.withdrawals, w);
      }
    }
    forall w | 0 <= w < |db.withdrawals| ensures db.withdrawals[w].debitTransactionId < |db.rows| {
      assert WithdrawalOk(db.rows, db.withdrawals, w);
    }
    forall w, r | 0 <= w < |db'.withdrawals| && LiveReversal(db'.rows, r, db'.withdrawals[w].debitTransactionId)
      ensures db'.withdrawals[w].refundTransactionId == Some(r)
    {
      assert RowOk(db.rows, r, db.transfers, db.ledgerStart, db.clock);
      assert LiveReversal(db.rows, r, db'.withdrawals[w].debitTransactionId);
    }
  }

  lemma MarkSuccessfulKeepsLinks(db: Db, w: nat)
    requires Linked(db) && w < |db.withdrawals|
    ensures Linked(MarkSuccessful(db, w))
  {
    var db' := MarkSuccessful(db, w);
    forall v | 0 <= v < |db'.withdrawals| ensures WithdrawalOk(db'.rows, db'.withdrawals, v) {
      assert WithdrawalOk(db.rows, db.withdrawals, v);
    }
    forall v, r | 0 <= v < |db'.withdrawals| && LiveReversal(db'.rows, r, db'.withdrawals[v].debitTransactionId)
      ensures db'.withdrawals[v].refundTransactionId == Some(r)
    {
      assert LiveReversal(db.rows, r, db.withdrawals[v].debitTransactionId);
    }
  }

  lemma RefundKeepsLinks(db: Db, w: nat, outcome: WithdrawalStatus)
    requires RowsOk(db) && Linked(db) && w < |db.withdrawals| && Refunded(outcome)
    requires db.withdrawals[w].debitTransactionId < |db.rows|
    ensures Linked(RefundWithdrawal(db, w, outcome))
  {
    var db' := RefundWithdrawal(db, w, outcome);
    if db' != db {
      var o, r := db.withdrawals[w].debitTransactionId, |db.rows|;
      assert WithdrawalOk(db.rows, db.withdrawals, w);
      forall i | 0 <= i < |db.rows| && i != o ensures db'.rows[i] == db.rows[i] {
      }
      forall e | 0 <= e < |db.deposits| ensures DepositOk(db'.rows, db'.deposits, e) {
        assert DepositOk(db.rows, db.deposits, e);
      }
      forall p, e | 0 <= p < |db'.rows| && 0 <= e < |db.deposits| && db'.rows[p].reversalOf.Some? && db'.rows[p].status != TxStatus.Failed
        ensures db'.rows[p].reversalOf != db.deposits[e].transactionId
      {
        assert DepositOk(db.rows, db.deposits, e);
      }
      RefundKeepsWithdrawals(db, w, outcome);
      forall a | 0 <= a < |db.adjustments| ensures AdjustmentOk(db'.rows, db'.adjustments, a) {
        assert AdjustmentOk(db.rows, db.adjustments, a);
      }
    }
  }

  lemma RefundChanges(db: Db, w: nat, outcome: WithdrawalStatus)
    requires w < |db.withdrawals| && db.withdrawals[w].debitTransactionId < |db.rows|
    requires Claimable(db.withdrawals[w].status, outcome) && db.withdrawals[w].user in db.wallets
    ensures var db', wd, o, r := RefundWithdrawal(db, w, outcome), db.withdrawals[w], db.withdrawals[w].debitTransactionId, |db.rows|;
      && |db'.rows| == r + 1
      && (forall i :: 0 <= i < r && i != o ==> db'.rows[i] == db.rows[i])
      && db'.rows[o] == db.rows[o].(status := TxStatus.Reversed)
      && db'.rows[r].user == wd.user && db'.rows[r].kind == Credit && db'.rows[r].amount == wd.amount
      && db'.rows[r].reversalOf == Some(o) && db'.rows[r].status == TxStatus.Successful && db'.rows[r].origin == RefundCredit(w)
      && db'.withdrawals == db.withdrawals[w := wd.(status := outcome, refundTransactionId := Some(r))]
  {
  }

  lemma RefundKeepsWithdrawals(db: Db, w: nat, outcome: WithdrawalStatus)
    requires RowsOk(db) && WithdrawalsLinked(db.rows, db.withdrawals) && w < |db.withdrawals| && Refunded(outcome)
    requires db.withdrawals[w].debitTransactionId < |db.rows|
    requires Claimable(db.withdrawals[w].status, outcome) && db.withdrawals[w].user in db.wallets
    ensures var db' := RefundWithdrawal(db, w, outcome); WithdrawalsLinked(db'.rows, db'.withdrawals)
  {
    var db' := RefundWithdrawal(db, w, outcome);
    var o, r := db.withdrawals[w].debitTransactionId, |db.rows|;
    assert WithdrawalOk(db.rows, db.withdrawals, w);
    RefundChanges(db, w, outcome);
    hide RefundWithdrawal, RowsOk;
    forall v | 0 <= v < |db'.withdrawals| ensures WithdrawalOk(db'.rows, db'.withdrawals, v) {
      assert WithdrawalOk(db.rows, db.withdrawals, v);
    }
    forall v, p | 0 <= v < |db'.withdrawals| && LiveReversal(db'.rows, p, db'.withdrawals[v].debitTransactionId)
      ensures db'.withdrawals[v].refundTransactionId == Some(p)
    {
      assert WithdrawalOk(db.rows, db.withdrawals, v);
      if p < |db.rows| {
        assert p != o;
        assert LiveReversal(db.rows, p, db.withdrawals[v].debitTransactionId);
      }
    }
  }

  // ---------- Adjustments ----------

  lemma RequestAdjustmentKeepsLinks(db: Db, admin: UserId, u: UserId, direction: TxType, kind: AdjustmentKind, amount: int)
    requires Linked(db)
    ensures Linked(RequestAdjustment(db, admin, u, direction, kind, amount))
  {
    var db' := RequestAdjustment(db, admin, u, direction, kind, amount);
    forall a | 0 <= a < |db'.adjustments| ensures AdjustmentOk(db'.rows, db'.adjustments, a) {
      if a < |db.adjustments| {
        assert AdjustmentOk(db.rows, db.adjustments, a);
      }
    }
  }

  lemma RejectAdjustmentKeepsLinks(db: Db, a: nat, admin: UserId)
    requires Linked(db) && a < |db.adjustments|
    ensures Linked(RejectAdjustment(db, a, admin))
  {
    var db' := RejectAdjustment(db, a, admin);
    forall b | 0 <= b < |db'.adjustments| ensures AdjustmentOk(db'.rows, db'.adjustments, b) {
      assert AdjustmentOk(db.rows, db.adjustments, b);
    }
  }

  lemma ApplyAdjustmentKeepsLinks(db: Db, a: nat, approver: UserId)
    requires RowsOk(db) && Linked(db) && a < |db.adjustments|
    ensures Linked(ApplyAdjustment(db, a, approver))
  {
    var db' := ApplyAdjustment(db, a, approver);
    if db' != db {
      var i := |db.rows|;
      forall e | 0 <= e < |db.deposits| ensures DepositOk(db'.rows, db'.deposits, e) {
        assert DepositOk(db.rows, db.deposits, e);
      }
      forall p, e | 0 <= p < |db'.rows| && 0 <= e < |db.deposits| && db'.rows[p].reversalOf.Some? && db'.rows[p].status != TxStatus.Failed
        ensures db'.rows[p].reversalOf != db.deposits[e].transactionId
      {
        assert p < |db.rows| && db'.rows[p] == db.rows[p];
      }
      forall w | 0 <= w < |db.withdrawals| ensures WithdrawalOk(db'.rows, db'.withdrawals, w) {
        assert WithdrawalOk(db.rows, db.withdrawals, w);
      }
      forall w, r | 0 <= w < |db.withdrawals| && LiveReversal(db'.rows, r, db.withdrawals[w].debitTransactionId)
        ensures db.withdrawals[w].refundTransactionId == Some(r)
      {
        assert LiveReversal(db.rows, r, db.withdrawals[w].debitTransactionId);
      }
      forall b | 0 <= b < |db'.adjustments| ensures AdjustmentOk(db'.rows, db'.adjustments, b) {
        assert AdjustmentOk(db.rows, db.adjustments, b);
      }
      forall x | 0 <= x < |db'.rows| && db'.rows[x].origin.AdjustmentRow?
        ensures db'.rows[x].origin.adjustment < |db'.adjustments| && db'.adjustments[db'.rows[x].origin.adjustment].transactionId == Some(x)
      {
        if x < i {
          assert db'.rows[x] == db.rows[x] && AdjustmentOk(db.rows, db.adjustments, a);
        }
      }
    }
  }
}
