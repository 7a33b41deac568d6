/**
 * Every step keeps each row well formed, each row undone at most once, and the two legs of a transfer
 * paired and in the same status. Most of it is about one row changing its status, or two changing it
 * together.
 */
module RowProofs {
  import opened Basics
  import opened Tables
  import opened Steps
  import opened Invariants

  /** Rows stay well formed as long as they evolve and the added ones are well formed. */
  lemma RowsStayOk(db: Db, db': Db)
    requires RowsOk(db)
    requires RowsEvolve(db.rows, db'.rows)
    requires db'.ledgerStart == db.ledgerStart && db'.clock >= db.clock && db'.transfers >= db.transfers
    requires forall i :: |db.rows| <= i < |db'.rows| ==> RowOk(db'.rows, i, db'.transfers, db'.ledgerStart, db'.clock)
    ensures RowsOk(db')
  {
    forall i | 0 <= i < |db.rows| ensures RowOk(db'.rows, i, db'.transfers, db'.ledgerStart, db'.clock) {
      assert RowOk(db.rows, i, db.transfers, db.ledgerStart, db.clock);
      assert RowStep(db.rows[i], db'.rows[i]);
      if db.rows[i].reversalOf.Some? {
        assert RowStep(db.rows[db.rows[i].reversalOf.value], db'.rows[db.rows[i].reversalOf.value]);
      }
    }
  }

  // ---------- Adding a pending row ----------

  /** A new row that is pending, and mirrors a SUCCESSFUL row nothing undoes yet if it is a reversal. */
  predicate FreshRow(db: Db, row: Transaction) {
    && row.status == TxStatus.Pending
    && row.timestamp == db.clock
    && (row.transferId.Some? ==> row.transferId.value < db.transfers)
    && (row.origin.Direct? || row.origin.TransferLeg? || row.origin.ReversalRow?)
    && OriginShape(row)
    && (row.reversalOf.Some? ==>
          && row.reversalOf.value < |db.rows|
          && Mirrors(row, db.rows[row.reversalOf.value])
          && row.origin == UndoOf(db.rows[row.reversalOf.value])
          && db.rows[row.reversalOf.value].status == TxStatus.Successful
          && forall p :: 0 <= p < |db.rows| ==> !LiveReversal(db.rows, p, row.reversalOf.value))
  }

  lemma AddRowKeepsRows(db: Db, row: Transaction)
    requires RowsOk(db) && ReversedOnce(db.rows) && FreshRow(db, row)
    ensures RowsOk(AddRow(db, row)) && ReversedOnce(AddRow(db, row).rows)
    ensures RowsEvolve(db.rows, AddRow(db, row).rows)
  {
    var db' := AddRow(db, row);
    forall i | |db.rows| <= i < |db'.rows| ensures RowOk(db'.rows, i, db'.transfers, db'.ledgerStart, db'.clock) {
    }
    RowsStayOk(db, db');
    forall p, q | 0 <= p < q < |db'.rows| && db'.rows[p].reversalOf.Some? && db'.rows[p].reversalOf == db'.rows[q].reversalOf
      ensures db'.rows[p].status == TxStatus.Failed || db'.rows[q].status == TxStatus.Failed
    {
      if q == |db.rows| {
        assert !LiveReversal(db.rows, p, row.reversalOf.value);
      }
    }
  }

  lemma AddRowKeepsTransfers(rows: seq<Transaction>, row: Transaction)
    requires TransfersPaired(rows)
    requires !Leg(row)
    ensures TransfersPaired(rows + [row])
  {
  }

  lemma BeginTransferKeepsRows(db: Db, sender: UserId, receiver: UserId, amount: Amount)
    requires RowsOk(db) && ReversedOnce(db.rows) && TransfersPaired(db.rows)
    ensures var db' := BeginTransfer(db, sender, receiver, amount);
      RowsOk(db') && ReversedOnce(db'.rows) && TransfersPaired(db'.rows) && RowsEvolve(db.rows, db'.rows)
  {
    var db' := BeginTransfer(db, sender, receiver, amount);
    if db' != db {
      var wider := db.(transfers := db.transfers + 1);
      RowsStayOk(db, wider);
      var t := Some(db.transfers);
      var debit := NewRow(db, sender, Debit, amount, t, None, Origin.TransferLeg);
      var credit := NewRow(db, receiver, Credit, amount, t, None, Origin.TransferLeg);
      AddRowKeepsRows(wider, debit);
      AddRowKeepsRows(AddRow(wider, debit), credit);
      assert db' == AddRow(AddRow(wider, debit), credit);
      forall i | 0 <= i < |db.rows| ensures db.rows[i].transferId != t {
        assert RowOk(db.rows, i, db.transfers, db.ledgerStart, db.clock);
      }
    }
  }

  // ---------- Status changes ----------

  lemma FailKeepsRows(db: Db, i: TxId)
    requires RowsOk(db) && ReversedOnce(db.rows) && TransfersPaired(db.rows)
    requires i < |db.rows| && db.rows[i].status == TxStatus.Pending
    ensures var db' := SetStatus(db, i, TxStatus.Failed);
      RowsOk(db') && ReversedOnce(db'.rows) && TransfersPaired(db'.rows) && RowsEvolve(db.rows, db'.rows)
  {
    var db' := SetStatus(db, i, TxStatus.Failed);
    assert OriginShape(db.rows[i]) by { assert RowOk(db.rows, i, db.transfers, db.ledgerStart, db.clock); }
    RowsStayOk(db, db');
  }

  lemma SettleDirectKeepsRows(db: Db, i: TxId)
    requires RowsOk(db) && ReversedOnce(db.rows) && TransfersPaired(db.rows) && PendingDirect(db.rows, i)
    ensures var db' := SettleDirect(db, i);
      RowsOk(db') && ReversedOnce(db'.rows) && TransfersPaired(db'.rows) && RowsEvolve(db.rows, db'.rows)
  {
    if CanBook(db, db.rows[i]) {
      RowsStayOk(db, SettleDirect(db, i));
    } else {
      FailKeepsRows(db, i);
    }
  }

  /** `rows'` is `rows` with the statuses (and balances) of `i` and `j` moved to `status`. */
  ghost predicate BothMoved(rows: seq<Transaction>, rows': seq<Transaction>, i: TxId, j: TxId, status: TxStatus) {
    && |rows'| == |rows| && i < |rows| && j < |rows|
    && (forall x :: 0 <= x < |rows| && x != i && x != j ==> rows'[x] == rows[x])
    && SameIdentity(rows[i], rows'[i]) && rows'[i].status == status
    && SameIdentity(rows[j], rows'[j]) && rows'[j].status == status
  }

  lemma PairSettles(rows: seq<Transaction>, rows': seq<Transaction>, i: TxId, j: TxId)
    requires ReversedOnce(rows) && TransfersPaired(rows) && PendingTransfer(rows, i, j)
    requires BothMoved(rows, rows', i, j, TxStatus.Successful)
    ensures ReversedOnce(rows') && TransfersPaired(rows') && RowsEvolve(rows, rows')
  {
    forall x, y | 0 <= x < y < |rows'| && Leg(rows'[x]) && Leg(rows'[y]) && rows'[x].transferId == rows'[y].transferId
      ensures Paired(rows'[x], rows'[y])
    {
      assert Leg(rows[x]) && Leg(rows[y]) && Paired(rows[x], rows[y]);
    }
  }

  /** A transfer has one receiving leg. */
  lemma OneCreditLeg(rows: seq<Transaction>, x: TxId, y: TxId)
    requires TransfersPaired(rows) && x < |rows| && y < |rows|
    requires Leg(rows[x]) && Leg(rows[y]) && rows[x].transferId == rows[y].transferId && rows[x].kind == rows[y].kind
    ensures x == y
  {
    if x < y {
      assert false;
    } else if y < x {
      assert false;
    }
  }

  /** The two legs of a transfer settle, and are reversed, together. */
  lemma LegsShareStatus(rows: seq<Transaction>, x: TxId, y: TxId)
    requires TransfersPaired(rows) && x < |rows| && y < |rows| && x != y
    requires Leg(rows[x]) && Leg(rows[y]) && rows[x].transferId == rows[y].transferId && Settled(rows[y])
    ensures rows[x].status == rows[y].status
  {
    if x < y {
      assert Paired(rows[x], rows[y]);
    } else {
      assert Paired(rows[y], rows[x]);
    }
  }

  lemma BothBooked(db: Db, i: TxId, j: TxId)
    requires i < |db.rows| && j < |db.rows| && i != j
    requires db.rows[i].user in db.wallets && db.rows[j].user in db.wallets
    ensures BothMoved(db.rows, BookRow(BookRow(db, i), j).rows, i, j, TxStatus.Successful)
  {
  }

  lemma SettleTransferKeepsRows(db: Db, i: TxId, j: TxId)
    requires RowsOk(db) && ReversedOnce(db.rows) && TransfersPaired(db.rows) && PendingTransfer(db.rows, i, j)
    ensures var db' := SettleTransfer(db, i, j);
      RowsOk(db') && ReversedOnce(db'.rows) && TransfersPaired(db'.rows) && RowsEvolve(db.rows, db'.rows)
  {
    if CanTransfer(db, db.rows[i], db.rows[j]) {
      var db' := SettleTransfer(db, i, j);
      BothBooked(db, i, j);
      PairSettles(db.rows, db'.rows, i, j);
      RowsStayOk(db, db');
    } else {
      FailKeepsRows(db, i);
      FailKeepsRows(SetStatus(db, i, TxStatus.Failed), j);
    }
  }

  lemma UndoneRow(db: Db, p: TxId)
    requires RowsOk(db) && PendingReversal(db.rows, p) && db.rows[p].transferId.None?
    ensures db.rows[p].reversalOf.value < p && Mirrors(db.rows[p], db.rows[db.rows[p].reversalOf.value])
  {
    assert RowOk(db.rows, p, db.transfers, db.ledgerStart, db.clock);
  }

  /** `rows'` is `rows` with the reversal `p` settled and the row `o` it takes back REVERSED. */
  ghost predicate UndoneBy(rows: seq<Transaction>, rows': seq<Transaction>, p: TxId, o: TxId) {
    && |rows'| == |rows| && p < |rows| && o < |rows| && p != o
    && (forall x :: 0 <= x < |rows| && x != p && x != o ==> rows'[x] == rows[x])
    && SameIdentity(rows[p], rows'[p]) && rows'[p].status == TxStatus.Successful
    && SameIdentity(rows[o], rows'[o]) && rows'[o].status == TxStatus.Reversed
  }

  lemma SingleUndoes(db: Db, p: TxId)
    requires PendingReversal(db.rows, p) && CanBook(db, db.rows[p]) && db.rows[p].reversalOf.value < p
    ensures var db' := SettleSingleReversal(db, p);
      && UndoneBy(db.rows, db'.rows, p, db.rows[p].reversalOf.value)
      && db'.ledgerStart == db.ledgerStart && db'.clock == db.clock && db'.transfers == db.transfers
  {
    hide SingleReversalEntry;
  }

  lemma UndoneOnce(rows: seq<Transaction>, rows': seq<Transaction>, p: TxId, o: TxId)
    requires ReversedOnce(rows) && PendingReversal(rows, p) && rows[p].reversalOf == Some(o) && o < p && UndoneBy(rows, rows', p, o)
    ensures ReversedOnce(rows') && RowsEvolve(rows, rows')
  {
  }

  lemma UndoneKeepsPairs(rows: seq<Transaction>, rows': seq<Transaction>, p: TxId, o: TxId)
    requires TransfersPaired(rows) && UndoneBy(rows, rows', p, o)
    requires rows[p].transferId.None? && rows[o].transferId.None?
    ensures TransfersPaired(rows')
  {
    forall i, j | 0 <= i < j < |rows'| && Leg(rows'[i]) && Leg(rows'[j]) && rows'[i].transferId == rows'[j].transferId
      ensures Paired(rows'[i], rows'[j])
    {
      assert rows'[i] == rows[i] && rows'[j] == rows[j];
    }
  }

  lemma SingleReversalEvolves(db: Db, p: TxId)
    requires ReversedOnce(db.rows) && TransfersPaired(db.rows) && PendingReversal(db.rows, p) && CanBook(db, db.rows[p])
    requires db.rows[p].transferId.None? && db.rows[p].reversalOf.value < p && Mirrors(db.rows[p], db.rows[db.rows[p].reversalOf.value])
    ensures var db' := SettleSingleReversal(db, p);
      && ReversedOnce(db'.rows) && TransfersPaired(db'.rows) && RowsEvolve(db.rows, db'.rows)
      && |db'.rows| == |db.rows| && db'.ledgerStart == db.ledgerStart && db'.clock == db.clock && db'.transfers == db.transfers
  {
    hide SettleSingleReversal, ReversedOnce, TransfersPaired, RowsEvolve;
    var rows', o := SettleSingleReversal(db, p).rows, db.rows[p].reversalOf.value;
    SingleUndoes(db, p);
    UndoneOnce(db.rows, rows', p, o);
    UndoneKeepsPairs(db.rows, rows', p, o);
  }

  lemma SettleSingleReversalKeepsRows(db: Db, p: TxId)
    requires RowsOk(db) && ReversedOnce(db.rows) && TransfersPaired(db.rows) && PendingReversal(db.rows, p)
    requires db.rows[p].transferId.None?
    ensures var db' := SettleSingleReversal(db, p);
      RowsOk(db') && ReversedOnce(db'.rows) && TransfersPaired(db'.rows) && RowsEvolve(db.rows, db'.rows)
  {
    if CanBook(db, db.rows[p]) {
      UndoneRow(db, p);
      SingleReversalEvolves(db, p);
      hide SettleSingleReversal, ReversedOnce, TransfersPaired;
      RowsStayOk(db, SettleSingleReversal(db, p));
    } else {
      FailKeepsRows(db, p);
    }
  }

  /** The four rows of a transfer's undoing: its legs are different rows, and nothing else undoes them. */
  lemma UndoneLegs(db: Db, p: TxId, q: TxId)
    requires RowsOk(db) && ReversedOnce(db.rows) && TransfersPaired(db.rows) && PendingTransferReversal(db.rows, p, q)
    ensures var i, j := db.rows[p].reversalOf.value, db.rows[q].reversalOf.value;
      && i < p && j < q && i != j
      && Leg(db.rows[i]) && Leg(db.rows[j]) && Paired(db.rows[i], db.rows[j])
      && Mirrors(db.rows[p], db.rows[i]) && Mirrors(db.rows[q], db.rows[j])
      && db.rows[i].status == TxStatus.Successful && db.rows[j].status == TxStatus.Successful
  {
    assert RowOk(db.rows, p, db.transfers, db.ledgerStart, db.clock);
    assert RowOk(db.rows, q, db.transfers, db.ledgerStart, db.clock);
    var i, j := db.rows[p].reversalOf.value, db.rows[q].reversalOf.value;
    assert Leg(db.rows[i]) && Leg(db.rows[j]);
    if i < j {
      assert Paired(db.rows[i], db.rows[j]);
    } else {
      assert Paired(db.rows[j], db.rows[i]);
    }
  }

  /** A settled transfer reversal first settles its own pair and then marks the two legs it takes back. */
  lemma ReversalMoves(db: Db, p: TxId, q: TxId)
    requires RowsOk(db) && ReversedOnce(db.rows) && TransfersPaired(db.rows) && PendingTransferReversal(db.rows, p, q)
    requires db.rows[p].user in db.wallets && CanBook(db, db.rows[q])
    ensures var i, j, mid := db.rows[p].reversalOf.value, db.rows[q].reversalOf.value, BookRow(BookRow(db, p), q);
      && BothMoved(db.rows, mid.rows, p, q, TxStatus.Successful)
      && BothMoved(mid.rows, SettleTransferReversal(db, p, q).rows, i, j, TxStatus.Reversed)
      && mid.rows[i] == db.rows[i] && mid.rows[j] == db.rows[j]
  {
    UndoneLegs(db, p, q);
    hide RowsOk, ReversedOnce, TransfersPaired;
    BothBooked(db, p, q);
  }

  lemma PairUndone(rows: seq<Transaction>, mid: seq<Transaction>, rows': seq<Transaction>, p: TxId, q: TxId, i: TxId, j: TxId)
    requires ReversedOnce(rows) && TransfersPaired(rows)
    requires p < |rows| && q < |rows| && i < p && j < q && i != j
    requires rows[p].status == TxStatus.Pending && rows[q].status == TxStatus.Pending
    requires rows[p].reversalOf == Some(i) && rows[q].reversalOf == Some(j)
    requires rows[i].status == TxStatus.Successful && rows[j].status == TxStatus.Successful
    requires Leg(rows[i]) && Leg(rows[j]) && rows[i].transferId == rows[j].transferId
    requires BothMoved(rows, mid, p, q, TxStatus.Successful)
    requires BothMoved(mid, rows', i, j, TxStatus.Reversed)
    ensures ReversedOnce(rows') && TransfersPaired(rows') && RowsEvolve(rows, rows')
  {
    assert rows'[i].status == TxStatus.Reversed && rows'[j].status == TxStatus.Reversed;
    forall x | 0 <= x < |rows| ensures SameIdentity(rows[x], rows'[x]) && StatusStep(rows[x].status, rows'[x].status) {
    }
    forall x, y | 0 <= x < y < |rows'| && rows'[x].reversalOf.Some? && rows'[x].reversalOf == rows'[y].reversalOf
      ensures rows'[x].status == TxStatus.Failed || rows'[y].status == TxStatus.Failed
    {
      assert rows[x].reversalOf == rows[y].reversalOf;
    }
    UndoneStatuses(rows, mid, rows', p, q, i, j);
    forall x, y | 0 <= x < y < |rows'| && Leg(rows'[x]) && Leg(rows'[y]) && rows'[x].transferId == rows'[y].transferId
      ensures Paired(rows'[x], rows'[y])
    {
      assert Leg(rows[x]) && Leg(rows[y]) && Paired(rows[x], rows[y]);
      if x == i || x == j || y == i || y == j {
        OnlyTwoLegs(rows, i, j, x, y);
      }
    }
  }

  /** A transfer has at most two legs. */
  lemma OnlyTwoLegs(rows: seq<Transaction>, i: TxId, j: TxId, x: TxId, y: TxId)
    requires TransfersPaired(rows)
    requires i < |rows| && j < |rows| && i != j && x < y < |rows|
    requires Leg(rows[i]) && Leg(rows[j]) && Leg(rows[x]) && Leg(rows[y])
    requires rows[i].transferId == rows[j].transferId == rows[x].transferId == rows[y].transferId
    ensures {x, y} == {i, j}
  {
    forall a, b | a in {i, j, x, y} && b in {i, j, x, y} && a != b ensures rows[a].kind != rows[b].kind {
      if a < b {
        assert Paired(rows[a], rows[b]);
      } else {
        assert Paired(rows[b], rows[a]);
      }
    }
  }

  lemma UndoneStatuses(rows: seq<Transaction>, mid: seq<Transaction>, rows': seq<Transaction>, p: TxId, q: TxId, i: TxId, j: TxId)
    requires ReversedOnce(rows)
    requires p < |rows| && q < |rows| && i < p && j < q && i != j
    requires rows[p].status == TxStatus.Pending && rows[q].status == TxStatus.Pending
    requires rows[p].reversalOf == Some(i) && rows[q].reversalOf == Some(j)
    requires Leg(rows[i]) && Leg(rows[j])
    requires BothMoved(rows, mid, p, q, TxStatus.Successful)
    requires BothMoved(mid, rows', i, j, TxStatus.Reversed)
    ensures forall x :: 0 <= x < |rows'| && rows'[x].reversalOf.Some? && rows'[x].reversalOf.value < x ==>
              && (rows'[x].status == TxStatus.Pending ==> rows'[rows'[x].reversalOf.value].status == TxStatus.Successful)
              && (Settled(rows'[x]) ==> rows'[rows'[x].reversalOf.value].status == TxStatus.Reversed)
  {
    forall x | 0 <= x < |rows'| && rows'[x].reversalOf.Some? && rows'[x].reversalOf.value < x
      ensures rows'[x].status == TxStatus.Pending ==> rows'[rows'[x].reversalOf.value].status == TxStatus.Successful
      ensures Settled(rows'[x]) ==> rows'[rows'[x].reversalOf.value].status == TxStatus.Reversed
    {
      assert rows[x].reversalOf == rows'[x].reversalOf;
      var o := rows[x].reversalOf.value;
      assert x != i && x != j;
      if x != p && x != q {
        assert rows'[x] == rows[x];
        assert o == i || o == j ==> rows[x].status == TxStatus.Failed;
      }
    }
  }

  lemma SettleTransferReversalKeepsRows(db: Db, p: TxId, q: TxId)
    requires RowsOk(db) && ReversedOnce(db.rows) && TransfersPaired(db.rows) && PendingTransferReversal(db.rows, p, q)
    ensures var db' := SettleTransferReversal(db, p, q);
      RowsOk(db') && ReversedOnce(db'.rows) && TransfersPaired(db'.rows) && RowsEvolve(db.rows, db'.rows)
  {
    if db.rows[p].user in db.wallets && CanBook(db, db.rows[q]) {
      UndoneLegs(db, p, q);
      var i, j := db.rows[p].reversalOf.value, db.rows[q].reversalOf.value;
      var mid := BookRow(BookRow(db, p), q);
      var db' := SettleTransferReversal(db, p, q);
      BothBooked(db, p, q);
      assert BothMoved(mid.rows, db'.rows, i, j, TxStatus.Reversed);
      PairUndone(db.rows, mid.rows, db'.rows, p, q, i, j);
      RowsStayOk(db, db');
    } else {
      FailKeepsRows(db, p);
      FailKeepsRows(SetStatus(db, p, TxStatus.Failed), q);
    }
  }

  // ---------- Adding a settled row ----------

  /** A row written SUCCESSFUL in one go, undoing nothing: a deposit, a withdrawal or an adjustment. */
  predicate FreshMovement(db: Db, row: Transaction) {
    && row.status == TxStatus.Pending
    && row.timestamp == db.clock
    && row.transferId.None? && row.reversalOf.None?
    && (row.origin.DepositCredit? || row.origin.WithdrawalDebit? || row.origin.AdjustmentRow?)
  }

  lemma AddMovementKeepsRows(db: Db, row: Transaction)
    requires RowsOk(db) && ReversedOnce(db.rows) && TransfersPaired(db.rows)
    requires FreshMovement(db, row) && row.user in db.wallets
    ensures var db' := BookRow(AddRow(db, row), |db.rows|);
      && RowsOk(db') && ReversedOnce(db'.rows) && TransfersPaired(db'.rows) && RowsEvolve(db.rows, db'.rows)
      && (forall i :: 0 <= i < |db.rows| ==> db'.rows[i] == db.rows[i])
  {
    RowsStayOk(db, BookRow(AddRow(db, row), |db.rows|));
  }

  /** Only a withdrawal's refund ever undoes its debit. */
  lemma LiveIsRefund(db: Db, w: nat, p: TxId)
    requires WithdrawalsLinked(db.rows, db.withdrawals) && w < |db.withdrawals|
    requires LiveReversal(db.rows, p, db.withdrawals[w].debitTransactionId)
    ensures db.withdrawals[w].refundTransactionId == Some(p)
  {
  }

  /** Nothing has undone the debit of a withdrawal that is still standing. */
  lemma DebitStands(db: Db, w: nat)
    requires RowsOk(db) && WithdrawalsLinked(db.rows, db.withdrawals) && w < |db.withdrawals|
    requires !Refunded(db.withdrawals[w].status)
    ensures WithdrawalOk(db.rows, db.withdrawals, w)
    ensures db.withdrawals[w].refundTransactionId.None?
    ensures forall p :: 0 <= p < |db.rows| ==> !LiveReversal(db.rows, p, db.withdrawals[w].debitTransactionId)
  {
    assert WithdrawalOk(db.rows, db.withdrawals, w);
    assert db.withdrawals[w].refundTransactionId.None?;
    forall p: nat | p < |db.rows| ensures !LiveReversal(db.rows, p, db.withdrawals[w].debitTransactionId) {
      if LiveReversal(db.rows, p, db.withdrawals[w].debitTransactionId) {
        LiveIsRefund(db, w, p);
      }
    }
  }

  /** Marking `o` REVERSED together with the row that undoes it. */
  lemma UndoneByNewRow(rows: seq<Transaction>, undone: Transaction, r: Transaction, o: TxId)
    requires ReversedOnce(rows) && TransfersPaired(rows)
    requires o < |rows| && rows[o].status == TxStatus.Successful && rows[o].transferId.None?
    requires RowStep(rows[o], undone) && undone.status == TxStatus.Reversed
    requires r.reversalOf == Some(o) && r.status == TxStatus.Successful && r.transferId.None?
    requires rows[o].reversalOf.None?
    requires forall p :: 0 <= p < |rows| ==> !LiveReversal(rows, p, o)
    ensures var rows' := rows[o := undone] + [r]; ReversedOnce(rows') && TransfersPaired(rows') && RowsEvolve(rows, rows')
  {
    var rows' := rows[o := undone] + [r];
    forall p, q | 0 <= p < q < |rows'| && rows'[p].reversalOf.Some? && rows'[p].reversalOf == rows'[q].reversalOf
      ensures rows'[p].status == TxStatus.Failed || rows'[q].status == TxStatus.Failed
    {
      if q == |rows| {
        assert !LiveReversal(rows, p, o);
      }
    }
    forall p | 0 <= p < |rows'| && rows'[p].reversalOf.Some? && rows'[p].reversalOf.value < p
      ensures rows'[p].status == TxStatus.Pending ==> rows'[rows'[p].reversalOf.value].status == TxStatus.Successful
      ensures Settled(rows'[p]) ==> rows'[rows'[p].reversalOf.value].status == TxStatus.Reversed
    {
      if p < |rows| {
        assert !LiveReversal(rows, p, o);
      }
    }
  }

  lemma RefundKeepsRows(db: Db, w: nat, outcome: WithdrawalStatus)
    requires RowsOk(db) && ReversedOnce(db.rows) && TransfersPaired(db.rows)
    requires WithdrawalsLinked(db.rows, db.withdrawals) && w < |db.withdrawals|
    requires db.withdrawals[w].debitTransactionId < |db.rows|
    requires Refunded(outcome)
    ensures var db' := RefundWithdrawal(db, w, outcome);
      RowsOk(db') && ReversedOnce(db'.rows) && TransfersPaired(db'.rows) && RowsEvolve(db.rows, db'.rows)
  {
    var db' := RefundWithdrawal(db, w, outcome);
    if db' != db {
      DebitStands(db, w);
      var o, r := db.withdrawals[w].debitTransactionId, |db.rows|;
      var undone := db.rows[o].(status := TxStatus.Reversed);
      assert db'.rows == db.rows[o := undone] + [db'.rows[r]];
      UndoneByNewRow(db.rows, undone, db'.rows[r], o);
      RefundRowOk(db, w, outcome);
      RowsStayOk(db, db');
    }
  }

  lemma RefundRowOk(db: Db, w: nat, outcome: WithdrawalStatus)
    requires RowsOk(db) && w < |db.withdrawals| && WithdrawalOk(db.rows, db.withdrawals, w)
    requires Claimable(db.withdrawals[w].status, outcome) && db.withdrawals[w].user in db.wallets
    ensures var db' := RefundWithdrawal(db, w, outcome);
      |db'.rows| == |db.rows| + 1 && RowOk(db'.rows, |db.rows|, db'.transfers, db'.ledgerStart, db'.clock)
  {
  }
}
