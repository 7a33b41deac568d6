/** A reversal takes back what its original did; from the CREDIT leg it cannot. */
module Reversals {
  import opened Basics
  import opened Tables
  import opened Ledger
  import opened Steps
  import opened Invariants
  import opened RowProofs
  import opened AccountProofs
  import opened ReversalAccounts
  import opened Runs

  // ---------- Exactly undone ----------

  /** After a single reversal, every account and every wallet has lost exactly the original's effect. */
  lemma SingleReversalIsExact(db: Db, p: TxId)
    requires Inv(db) && PendingReversal(db.rows, p) && db.rows[p].transferId.None? && CanBook(db, db.rows[p])
    ensures var db' := SettleSingleReversal(db, p);
      var i := db.rows[p].reversalOf.value;
      var o := db.rows[i];
      && db'.rows[i].status == TxStatus.Reversed && db'.rows[p].status == TxStatus.Successful
      && (forall a: Account :: AccountBalance(db'.journal, a) == AccountBalance(db.journal, a) - SideOn(o, a))
      && (forall u: UserId :: Stored(db'.wallets, u) == Stored(db.wallets, u) + SideOn(o, Wallet(u)))
  {
    var o := db.rows[db.rows[p].reversalOf.value];
    OriginalOfSingle(db, p);
    assert RowOk(db.rows, p, db.transfers, db.ledgerStart, db.clock);
    hide RowsOk, ReversedOnce, TransfersPaired, ReversalsPaired, Linked, Posted, Balances, BalancedByLedger;
    hide SideOn, EntryOn, SingleReversalEntry;
    forall a: Account ensures EntryOn(a)(SingleReversalEntry(db.journal, db.rows[p], p, db.clock)) == -SideOn(o, a) {
      SingleReversalUndoes(db, p, a);
    }
    SingleReversalEffect(db, p);
  }

  lemma SingleReversalEffect(db: Db, p: TxId)
    requires PendingReversal(db.rows, p) && CanBook(db, db.rows[p]) && db.rows[p].reversalOf.value < p
    requires Mirrors(db.rows[p], db.rows[db.rows[p].reversalOf.value])
    requires forall a: Account :: EntryOn(a)(SingleReversalEntry(db.journal, db.rows[p], p, db.clock)) == -SideOn(db.rows[db.rows[p].reversalOf.value], a)
    ensures var db' := SettleSingleReversal(db, p);
      var i := db.rows[p].reversalOf.value;
      var o := db.rows[i];
      && db'.rows[i].status == TxStatus.Reversed && db'.rows[p].status == TxStatus.Successful
      && (forall a: Account :: AccountBalance(db'.journal, a) == AccountBalance(db.journal, a) - SideOn(o, a))
      && (forall u: UserId :: Stored(db'.wallets, u) == Stored(db.wallets, u) + SideOn(o, Wallet(u)))
  {
    var db', e := SettleSingleReversal(db, p), SingleReversalEntry(db.journal, db.rows[p], p, db.clock);
    hide SingleReversalEntry, AccountBalance, EntryOn;
    forall a: Account ensures AccountBalance(db'.journal, a) == AccountBalance(db.journal, a) - SideOn(db.rows[db.rows[p].reversalOf.value], a) {
      PostMoves(db.journal, e, a);
    }
  }

  /** After a transfer's reversal the amount is back with the sender, in the wallets and in the ledger. */
  lemma TransferReversalIsExact(db: Db, p: TxId)
    requires Inv(db) && PendingTransferReversal(db.rows, p, p + 1)
    requires db.rows[p].user in db.wallets && CanBook(db, db.rows[p + 1])
    ensures var db' := SettleTransferReversal(db, p, p + 1);
      var debit, credit := db.rows[db.rows[p].reversalOf.value], db.rows[db.rows[p + 1].reversalOf.value];
      && debit.kind == Debit && credit.kind == Credit && debit.transferId == credit.transferId && debit.user != credit.user
      && (forall a: Account :: AccountBalance(db'.journal, a) ==
            AccountBalance(db.journal, a) - (if a == Wallet(debit.user) then debit.amount else 0) + (if a == Wallet(credit.user) then debit.amount else 0))
      && (forall u: UserId :: Stored(db'.wallets, u) ==
            Stored(db.wallets, u) + (if u == debit.user then debit.amount else 0) - (if u == credit.user then debit.amount else 0))
  {
    hide RowsOk, ReversedOnce, TransfersPaired, ReversalsPaired, Linked, Posted, Balances, BalancedByLedger;
    var q := p + 1;
    var db' := SettleTransferReversal(db, p, q);
    UndoneLegs(db, p, q);
    var debit, credit := db.rows[db.rows[p].reversalOf.value], db.rows[db.rows[q].reversalOf.value];
    assert db'.wallets == BookRow(BookRow(db, p), q).wallets;
    forall a: Account ensures AccountBalance(db'.journal, a) ==
      AccountBalance(db.journal, a) - (if a == Wallet(debit.user) then debit.amount else 0) + (if a == Wallet(credit.user) then debit.amount else 0)
    {
      TransferReversalUndoes(db, p, q, a);
      PostMoves(db.journal, TransferReversalEntry(db.journal, db.rows[p], db.rows[q], p, db.clock), a);
    }
  }

  lemma DirectEntryOn(row: Transaction, i: TxId, at: int, a: Account)
    requires row.origin.Direct?
    ensures EntryOn(a)(DirectEntry(row, i, at)) == SideOn(row, a)
  {
    hide EntryOn;
    var e := DirectEntry(row, i, at);
    TwoLines(e, e.lines[0].account, e.lines[1].account, row.amount, a);
  }

  /** What settling a direct movement does to each account and wallet. */
  lemma DirectEffect(db: Db, i: TxId)
    requires PendingDirect(db.rows, i) && CanBook(db, db.rows[i]) && db.rows[i].origin.Direct?
    ensures var settled := SettleDirect(db, i);
      && (forall u: UserId :: Stored(settled.wallets, u) == Stored(db.wallets, u) - SideOn(db.rows[i], Wallet(u)))
      && (forall a: Account :: AccountBalance(settled.journal, a) == AccountBalance(db.journal, a) + SideOn(db.rows[i], a))
  {
    var e := DirectEntry(db.rows[i], i, db.clock);
    assert SettleDirect(db, i).journal == db.journal + [e];
    forall a: Account ensures AccountBalance(db.journal + [e], a) == AccountBalance(db.journal, a) + SideOn(db.rows[i], a) {
      DirectEntryOn(db.rows[i], i, db.clock, a);
      hide AccountBalance, EntryOn, DirectEntry, SideOn;
      PostMoves(db.journal, e, a);
    }
    hide AccountBalance;
  }

  /** A settled direct movement can be taken back by its owner. */
  lemma DirectThenBegun(db: Db, i: TxId)
    requires Inv(db) && PendingDirect(db.rows, i) && CanBook(db, db.rows[i])
    ensures db.rows[i].origin.Direct?
    ensures var settled := SettleDirect(db, i);
      var begun := BeginSingleReversal(settled, i);
      && Inv(begun) && ApplyWallet(settled, ReversalBegun(i, db.rows[i].user, i)) == begun
      && |settled.rows| == |db.rows| && settled.rows[i].user == db.rows[i].user && settled.rows[i].amount == db.rows[i].amount
      && settled.rows[i].kind == db.rows[i].kind && settled.rows[i].origin == db.rows[i].origin
      && settled.rows[i].transferId.None?
  {
    hide RowsEvolve, SameGaps;
    hide RowsOk, ReversedOnce, TransfersPaired, ReversalsPaired, Linked, Posted, Balances, BalancedByLedger;
    PendingOrigin(db, i);
    SettleDirectStep(db, i);
    DirectIsReversible(db, i);
    BeginSingleReversalStep(SettleDirect(db, i), i, db.rows[i].user);
  }

  lemma BegunUndo(db: Db, i: TxId, row: Transaction)
    requires i < |db.rows| && db.rows[i].transferId.None?
    requires db.rows[i].user == row.user && db.rows[i].kind == row.kind && db.rows[i].amount == row.amount && db.rows[i].origin == row.origin
    ensures var begun := BeginSingleReversal(db, i);
      && begun.wallets == db.wallets && begun.journal == db.journal && begun.rows[i] == db.rows[i]
      && |begun.rows| == |db.rows| + 1
      && begun.rows[|db.rows|] == NewRow(db, row.user, Opposite(row.kind), row.amount, None, Some(i), UndoOf(row))
      && PendingReversal(begun.rows, |db.rows|)
      && ApplyWallet(begun, ReversalSettled(|db.rows|)) == SettleSingleReversal(begun, |db.rows|)
      && (CanBook(begun, begun.rows[|db.rows|]) <==> CanBook(db, db.rows[i].(kind := Opposite(row.kind))))
  {
    hide SettleSingleReversal;
  }

  /** A direct movement that is settled, then reversed: every wallet and account is back where it was. */
  lemma DirectRoundTrip(db: Db, i: TxId)
    requires Inv(db) && PendingDirect(db.rows, i) && CanBook(db, db.rows[i])
    requires CanBook(SettleDirect(db, i), SettleDirect(db, i).rows[i].(kind := Opposite(db.rows[i].kind)))
    ensures var settled := SettleDirect(db, i);
      var begun := ApplyWallet(settled, ReversalBegun(i, db.rows[i].user, i));
      var undone := ApplyWallet(begun, ReversalSettled(|db.rows|));
      && (forall u: UserId :: Stored(undone.wallets, u) == Stored(db.wallets, u))
      && (forall a: Account :: AccountBalance(undone.journal, a) == AccountBalance(db.journal, a))
      && undone.rows[i].status == TxStatus.Reversed
  {
    hide Inv, SettleSingleReversal, SettleDirect, AccountBalance, CanBook, UndoOf;
    var row, settled, p := db.rows[i], SettleDirect(db, i), |db.rows|;
    DirectThenBegun(db, i);
    var begun := BeginSingleReversal(settled, i);
    DirectEffect(db, i);
    BegunUndo(settled, i, row);
    hide BeginSingleReversal;
    SingleReversalIsExact(begun, p);
    EffectsCancel(db, settled, begun, SettleSingleReversal(begun, p), row, begun.rows[i]);
  }

  lemma EffectsCancel(db: Db, settled: Db, begun: Db, undone: Db, row: Transaction, o: Transaction)
    requires o.user == row.user && o.kind == row.kind && o.amount == row.amount && o.origin == row.origin
    requires forall u: UserId :: Stored(settled.wallets, u) == Stored(db.wallets, u) - SideOn(row, Wallet(u))
    requires forall a: Account :: AccountBalance(settled.journal, a) == AccountBalance(db.journal, a) + SideOn(row, a)
    requires begun.wallets == settled.wallets && begun.journal == settled.journal
    requires forall u: UserId :: Stored(undone.wallets, u) == Stored(begun.wallets, u) + SideOn(o, Wallet(u))
    requires forall a: Account :: AccountBalance(undone.journal, a) == AccountBalance(begun.journal, a) - SideOn(o, a)
    ensures forall u: UserId :: Stored(undone.wallets, u) == Stored(db.wallets, u)
    ensures forall a: Account :: AccountBalance(undone.journal, a) == AccountBalance(db.journal, a)
  {
    assert forall a: Account :: SideOn(o, a) == SideOn(row, a);
  }

  lemma DirectIsReversible(db: Db, i: TxId)
    requires Inv(db) && PendingDirect(db.rows, i) && CanBook(db, db.rows[i]) && db.rows[i].origin.Direct?
    ensures Reversible(SettleDirect(db, i), i, db.rows[i].user)
  {
    var settled := SettleDirect(db, i);
    forall p: nat | p < |db.rows| ensures !LiveReversal(settled.rows, p, i) {
      assert RowOk(db.rows, p, db.transfers, db.ledgerStart, db.clock);
    }
    forall d | 0 <= d < |db.deposits| ensures db.deposits[d].transactionId != Some(i) {
      assert DepositOk(db.rows, db.deposits, d);
    }
    forall w | 0 <= w < |db.withdrawals| ensures db.withdrawals[w].debitTransactionId != i {
      assert WithdrawalOk(db.rows, db.withdrawals, w);
    }
  }

  // ---------- From which leg ----------

  /**
   * The settling transaction as the code runs it: both wallet writes are computed from the balances
   * read first and sent together, so when both wallets are one, the write that lands last wins.
   */
  function RawMoves(db: Db, p: TxId, q: TxId, backLast: bool): Db
    requires PendingTransferReversal(db.rows, p, q)
    requires db.rows[p].user in db.wallets && db.rows[q].user in db.wallets
  {
    var back, out := db.rows[p], db.rows[q];
    var backAfter, outAfter := db.wallets[back.user] + back.amount, db.wallets[out.user] - out.amount;
    var wallets := if backLast
                   then db.wallets[out.user := outAfter][back.user := backAfter]
                   else db.wallets[back.user := backAfter][out.user := outAfter];
    var done := db.rows[p := back.(status := TxStatus.Successful, balanceBefore := db.wallets[back.user], balanceAfter := backAfter)]
                       [q := out.(status := TxStatus.Successful, balanceBefore := db.wallets[out.user], balanceAfter := outAfter)];
    var i, j := back.reversalOf.value, out.reversalOf.value;
    var marked := done[i := done[i].(status := TxStatus.Reversed)];
    db.(wallets := wallets,
        rows := marked[j := marked[j].(status := TxStatus.Reversed)],
        commits := db.commits + [p] + [q])
  }

  function RawTransferReversal(db: Db, p: TxId, q: TxId, backLast: bool): Db
    requires PendingTransferReversal(db.rows, p, q)
    requires db.rows[p].user in db.wallets && db.rows[q].user in db.wallets
  {
    PostEntry(RawMoves(db, p, q, backLast), TransferReversalEntry(db.journal, db.rows[p], db.rows[q], p, db.clock))
  }

  /** With two different wallets the order of the two writes does not matter. */
  lemma RawAgrees(db: Db, p: TxId, q: TxId, backLast: bool)
    requires PendingTransferReversal(db.rows, p, q) && db.rows[p].user != db.rows[q].user
    requires db.rows[p].user in db.wallets && CanBook(db, db.rows[q])
    ensures RawTransferReversal(db, p, q, backLast) == SettleTransferReversal(db, p, q)
  {
    var raw, step := RawTransferReversal(db, p, q, backLast), SettleTransferReversal(db, p, q);
    assert raw.wallets == step.wallets;
    assert raw.rows == step.rows;
  }

  /** Looking for the receiving leg while standing on it finds the leg itself. */
  lemma CreditLegFindsItself(db: Db, i: TxId, j: TxId)
    requires RowsOk(db) && ReversedOnce(db.rows) && TransfersPaired(db.rows)
    requires i < |db.rows| && Leg(db.rows[i]) && db.rows[i].kind == Credit && db.rows[i].status == TxStatus.Successful
    requires PairedLeg(db.rows, i, j) && db.rows[j].status == TxStatus.Successful
    ensures j == i
  {
    if db.rows[j].reversalOf.None? {
      OneCreditLeg(db.rows, i, j);
    } else {
      assert RowOk(db.rows, j, db.transfers, db.ledgerStart, db.clock);
      var o := db.rows[j].reversalOf.value;
      LegsShareStatus(db.rows, o, i);
    }
  }

  /**
   * A transfer's reversal keeps the wallets in step with their history exactly when it starts from
   * the DEBIT leg. From the CREDIT leg the lookup of the receiving leg returns the very same row, so
   * both rows and both writes fall on the receiver's wallet and one write is lost.
   */
  lemma TransferReversalNeedsDebitLeg(db: Db, i: TxId, j: TxId, u: UserId, backLast: bool)
    requires Inv(db) && Reversible(db, i, u) && db.rows[i].transferId.Some?
    requires PairedLeg(db.rows, i, j) && db.rows[j].status == TxStatus.Successful
    requires u in db.wallets && db.rows[j].user in db.wallets && db.rows[j].amount <= db.wallets[db.rows[j].user]
    ensures var begun, p := BeginTransferReversal(db, i, j), |db.rows|;
      && PendingTransferReversal(begun.rows, p, p + 1)
      && (BalancedByRows(RawTransferReversal(begun, p, p + 1, backLast)) <==> db.rows[i].kind == Debit)
  {
    hide RowsEvolve, SameGaps, ReversedOnce, ReversalsPaired, Linked, Posted, CommitsComplete, BalancesChained, BalancedByRows, BalancedByLedger;
    hide RawTransferReversal;
    var begun, p := BeginTransferReversal(db, i, j), |db.rows|;
    assert RowOk(db.rows, i, db.transfers, db.ledgerStart, db.clock);
    if db.rows[i].kind == Debit {
      BeginTransferReversalStep(db, i, j, u);
      UndoneLegs(begun, p, p + 1);
      RawAgrees(begun, p, p + 1, backLast);
      SettleTransferReversalStep(begun, p);
    } else {
      CreditLegFindsItself(db, i, j);
      CreditLegLosesAWrite(db, i, u, backLast);
    }
  }

  /** Two opposite settled rows add nothing to the history, so a wallet that moved no longer matches it. */
  lemma UnbalancedAfter(db: Db, after: Db, i: TxId, u: UserId)
    requires BalancedByRows(db) && i < |db.rows| && |after.rows| == |db.rows| + 2 && u in db.wallets && u in after.wallets
    requires after.rows == db.rows[i := after.rows[i]] + [after.rows[|db.rows|]] + [after.rows[|db.rows| + 1]]
    requires SettledMove(after.rows[|db.rows|], u, Credit, db.rows[i].amount, db.clock)
    requires SettledMove(after.rows[|db.rows| + 1], u, Debit, db.rows[i].amount, db.clock)
    requires db.rows[i].status == TxStatus.Successful && after.rows[i] == db.rows[i].(status := TxStatus.Reversed)
    requires OpeningAmount(after.journal, u) == OpeningAmount(db.journal, u) && Since(after.journal, u) == Since(db.journal, u)
    requires Since(db.journal, u).Some? ==> Since(db.journal, u).value < db.clock
    requires after.wallets[u] != db.wallets[u]
    ensures !BalancedByRows(after)
  {
    hide OpeningAmount, Since;
    var f, back, out := NetOf(u, Since(db.journal, u)), after.rows[|db.rows|], after.rows[|db.rows| + 1];
    assert f(back) == back.amount && f(out) == -(out.amount as int) && f(after.rows[i]) == f(db.rows[i]);
    TwoMore(db.rows, i, after.rows[i], back, out, f);
    hide NetOf, SumBy;
    assert Stored(after.wallets, u) != OpeningAmount(after.journal, u) + SumBy(after.rows, NetOf(u, Since(after.journal, u)));
  }

  lemma CreditLegLosesAWrite(db: Db, i: TxId, u: UserId, backLast: bool)
    requires Balances(db) && Posted(db) && db.ledgerStart < db.clock
    requires i < |db.rows| && db.rows[i].user == u && u in db.wallets && db.rows[i].status == TxStatus.Successful
    requires Leg(db.rows[i]) && db.rows[i].kind == Credit
    ensures var begun, p := BeginTransferReversal(db, i, i), |db.rows|;
      PendingTransferReversal(begun.rows, p, p + 1) && !BalancedByRows(RawTransferReversal(begun, p, p + 1, backLast))
  {
    var begun, p := BeginTransferReversal(db, i, i), |db.rows|;
    var after := RawTransferReversal(begun, p, p + 1, backLast);
    CreditLegWrites(db, i, u, backLast);
    hide CommitsComplete, BalancesChained, RawTransferReversal;
    var e := TransferReversalEntry(begun.journal, begun.rows[p], begun.rows[p + 1], p, db.clock);
    OpeningKept(db, e, u);
    hide Posted, TransferReversalEntry, OpeningAmount, BeginTransferReversal;
    UnbalancedAfter(db, after, i, u);
  }

  /** Both rows are the receiver's, and its wallet ends with one of the two writes. */
  lemma CreditLegWrites(db: Db, i: TxId, u: UserId, backLast: bool)
    requires i < |db.rows| && db.rows[i].user == u && u in db.wallets && db.rows[i].status == TxStatus.Successful
    requires Leg(db.rows[i]) && db.rows[i].kind == Credit
    ensures var begun, p := BeginTransferReversal(db, i, i), |db.rows|;
      && PendingTransferReversal(begun.rows, p, p + 1) && begun.journal == db.journal && begun.clock == db.clock && begun.wallets == db.wallets
      && begun.rows[p].user == u && begun.rows[p + 1].user == u
      && var after := RawTransferReversal(begun, p, p + 1, backLast);
         && |after.rows| == p + 2
         && after.rows == db.rows[i := after.rows[i]] + [after.rows[p]] + [after.rows[p + 1]]
         && after.rows[i] == db.rows[i].(status := TxStatus.Reversed)
         && SettledMove(after.rows[p], u, Credit, db.rows[i].amount, db.clock)
         && SettledMove(after.rows[p + 1], u, Debit, db.rows[i].amount, db.clock)
         && u in after.wallets && after.wallets[u] == db.wallets[u] + (if backLast then db.rows[i].amount else -(db.rows[i].amount as int))
         && after.journal == db.journal + [TransferReversalEntry(db.journal, begun.rows[p], begun.rows[p + 1], p, db.clock)]
  {
    hide TransferReversalEntry;
  }

  predicate SettledMove(t: Transaction, u: UserId, kind: TxType, amount: int, at: int) {
    t.user == u && t.kind == kind && t.status == TxStatus.Successful && t.amount == amount && t.timestamp == at
  }

  lemma TwoMore(rows: seq<Transaction>, i: TxId, undone: Transaction, back: Transaction, out: Transaction, f: Transaction -> int)
    requires i < |rows| && f(undone) == f(rows[i])
    ensures SumBy(rows[i := undone] + [back] + [out], f) == SumBy(rows, f) + f(back) + f(out)
  {
    SumAppend(rows[i := undone] + [back], out, f);
    SumAppend(rows[i := undone], back, f);
    SumUpdate(rows, i, undone, f);
  }

  lemma OpeningKept(db: Db, e: Entry, u: UserId)
    requires Posted(db) && e.kind != OpeningBalance
    ensures OpeningAmount(db.journal + [e], u) == OpeningAmount(db.journal, u)
    ensures Since(db.journal + [e], u) == Since(db.journal, u)
    ensures Since(db.journal, u).Some? ==> Since(db.journal, u).value <= db.ledgerStart
  {
    FindEntryAppend(db.journal, e, Opens(u));
    var k := FindOpening(db.journal, u);
    if k.Some? {
      assert EntryOk(db.rows, db.journal[k.value], db.ledgerStart);
    }
  }
}
