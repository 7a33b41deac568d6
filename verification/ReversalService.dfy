/** Reversals of single movements and of transfers, request by request. */
module ReversalService {
  import opened Basics
  import opened Tables
  import opened Ledger
  import opened Steps
  import opened Invariants
  import opened Runs
  import opened Reversals
  import opened Database
  import opened WalletService

  function PendingUndo(db: Store, o: TxId, kind: TxType): Transaction
    requires o < |db.rows|
    reads db
  {
    var row := db.rows[o];
    Transaction(row.user, kind, TxStatus.Pending, row.amount, 0, 0, row.transferId, Some(o), db.clock, UndoOf(row))
  }

  /** Why a reversal is refused before anything is written. */
  function CheckFailure(db: Db, i: TxId, u: UserId): (r: Option<Failure>)
    ensures r.None? <==> Reversible(db, i, u)
  {
    if |db.rows| <= i || db.rows[i].user != u then Some(TransactionNotFound)
    else if db.rows[i].reversalOf.Some? || db.rows[i].status != TxStatus.Successful then Some(NotReversible)
    else if HasDeposit(db.deposits, i) || HasWithdrawal(db.withdrawals, i) then Some(NotReversible)
    else if exists p :: 0 <= p < |db.rows| && LiveReversal(db.rows, p, i) then Some(AlreadyReversed)
    else None
  }

  /** Which refusal it is, in the order the code finds out. */
  lemma RefusalTells(db: Db, i: TxId, u: UserId)
    ensures CheckFailure(db, i, u) == Some(TransactionNotFound) <==> |db.rows| <= i || db.rows[i].user != u
    ensures i < |db.rows| && db.rows[i].user == u ==>
              var row := db.rows[i];
              var attached := (exists d :: 0 <= d < |db.deposits| && db.deposits[d].transactionId == Some(i))
                              || (exists w :: 0 <= w < |db.withdrawals| && db.withdrawals[w].debitTransactionId == i);
              && (CheckFailure(db, i, u) == Some(NotReversible) <==> row.reversalOf.Some? || row.status != TxStatus.Successful || attached)
              && (CheckFailure(db, i, u) == Some(AlreadyReversed) <==>
                    row.reversalOf.None? && row.status == TxStatus.Successful && !attached
                    && exists p :: 0 <= p < |db.rows| && db.rows[p].reversalOf == Some(i) && db.rows[p].status != TxStatus.Failed)
  {
    if p :| 0 <= p < |db.rows| && db.rows[p].reversalOf == Some(i) && db.rows[p].status != TxStatus.Failed {
      assert LiveReversal(db.rows, p, i);
    }
  }

  /** And which failure of a pair. */
  lemma PairFailureTells(db: Db, back: UserId, out: UserId, amount: int, busy: bool)
    ensures PairFailure(db, back, out, amount, busy) ==
            if busy then Some(LockBusy)
            else if back !in db.wallets || out !in db.wallets then Some(WalletNotFound)
            else if db.wallets[out] < amount then Some(InsufficientFunds)
            else None
  {
  }

  /** Why giving `amount` to `to` and taking it from `from`, either of which may be nobody, fails. */
  function MoveFailure(db: Db, to: Option<UserId>, from: Option<UserId>, amount: int): Option<Failure> {
    if (to.Some? && to.value !in db.wallets) || (from.Some? && from.value !in db.wallets) then Some(WalletNotFound)
    else if from.Some? && db.wallets[from.value] < amount then Some(InsufficientFunds)
    else None
  }

  function SingleFailure(db: Db, i: TxId, busy: bool): Option<Failure>
    requires i < |db.rows|
  {
    var row := db.rows[i];
    if busy then Some(LockBusy)
    else if row.kind == Debit then MoveFailure(db, Some(row.user), None, row.amount)
    else MoveFailure(db, None, Some(row.user), row.amount)
  }

  function PairFailure(db: Db, back: UserId, out: UserId, amount: int, busy: bool): Option<Failure> {
    if busy then Some(LockBusy) else MoveFailure(db, Some(back), Some(out), amount)
  }

  function ResultOf(failed: Option<Failure>, p: TxId): Result<TxId, Failure> {
    if failed.Some? then Err(failed.value) else Ok(p)
  }

  /** How the pending row ends: without the lock it fails. */
  function SingleEnd(begun: Db, p: TxId, busy: bool): Db
    requires PendingReversal(begun.rows, p)
  {
    if busy then SetStatus(begun, p, TxStatus.Failed) else SettleSingleReversal(begun, p)
  }

  method ReverseSingle(db: Store, i: TxId, busy: bool) returns (r: Result<TxId, Failure>)
    requires i < |db.rows| && db.rows[i].transferId.None?
    modifies db
    ensures var begun := BeginSingleReversal(old(db.State()), i);
      && PendingReversal(begun.rows, |old(db.rows)|)
      && db.State() == SingleEnd(begun, |old(db.rows)|, busy)
    ensures r == ResultOf(SingleFailure(old(db.State()), i, busy), |old(db.rows)|)
    ensures r.Ok? <==> db.wallets != old(db.wallets)
    ensures r == Err(LockBusy) <==> busy
    ensures r == Err(WalletNotFound) <==> !busy && old(db.rows)[i].user !in old(db.wallets)
    ensures r == Err(InsufficientFunds) <==>
            var row := old(db.rows)[i];
            !busy && row.user in old(db.wallets) && row.kind == Credit && old(db.wallets)[row.user] < row.amount
    ensures r.Ok? ==>
              var row := old(db.rows)[i];
              db.wallets == old(db.wallets)[row.user := old(db.wallets)[row.user] + if row.kind == Debit then row.amount else -(row.amount as int)]
  {
    var original := db.rows[i];
    var p := db.CreateRow(PendingUndo(db, i, Opposite(original.kind)));
    ghost var begun := db.State();
    if busy {
      db.MarkRow(p, TxStatus.Failed);
      return Err(LockBusy);
    }
    if original.user !in db.wallets {
      db.MarkRow(p, TxStatus.Failed);
      return Err(WalletNotFound);
    }
    if original.kind == Credit && db.wallets[original.user] < original.amount {
      db.MarkRow(p, TxStatus.Failed);
      return Err(InsufficientFunds);
    }
    db.Book(p);
    db.MarkRow(i, TxStatus.Reversed);
    var mirrored := db.PostMirror(e => ForTransaction(e, i), p);
    if !mirrored {
      if original.kind == Debit {
        db.Post(ReversalEntry, original.amount, OpeningBalances, Wallet(original.user), None, Some(p));
      } else {
        db.Post(ReversalEntry, original.amount, Wallet(original.user), OpeningBalances, None, Some(p));
      }
    }
    r := Ok(p);
  }

  function Marked(rows: seq<Transaction>, i: TxId): seq<Transaction>
    requires i < |rows|
  {
    rows[i := rows[i].(status := TxStatus.Reversed)]
  }

  lemma WritesCommute(rows: seq<Transaction>, p: TxId, q: TxId, i: TxId, j: TxId, backDone: Transaction, outDone: Transaction)
    requires p < |rows| && q < |rows| && i < p && i < q && j < p && j < q
    ensures Marked(Marked(rows, i), j)[p := backDone][q := outDone] == Marked(Marked(rows[p := backDone][q := outDone], i), j)
  {
  }

  lemma RawMovesWrite(db: Db, p: TxId, q: TxId, i: TxId, j: TxId, backDone: Transaction, outDone: Transaction)
    requires PendingTransferReversal(db.rows, p, q) && db.rows[p].user in db.wallets && db.rows[q].user in db.wallets
    requires db.rows[p].reversalOf == Some(i) && db.rows[q].reversalOf == Some(j) && p != q && i < p && i < q && j < p && j < q
    requires backDone == db.rows[p].(status := TxStatus.Successful, balanceBefore := db.wallets[db.rows[p].user],
                                     balanceAfter := db.wallets[db.rows[p].user] + db.rows[p].amount)
    requires outDone == db.rows[q].(status := TxStatus.Successful, balanceBefore := db.wallets[db.rows[q].user],
                                    balanceAfter := db.wallets[db.rows[q].user] - db.rows[q].amount)
    ensures RawMoves(db, p, q, false) ==
            db.(wallets := db.wallets[db.rows[p].user := backDone.balanceAfter][db.rows[q].user := outDone.balanceAfter],
                rows := Marked(Marked(db.rows[p := backDone][q := outDone], i), j),
                commits := db.commits + [p] + [q])
  {
  }

  /** Both balances are read, and then both wallets and all four rows are written. */
  method MoveBack(db: Store, p: TxId, q: TxId, i: TxId, j: TxId)
    requires PendingTransferReversal(db.rows, p, q) && p != q
    requires db.rows[p].reversalOf == Some(i) && db.rows[q].reversalOf == Some(j)
    requires i < p && i < q && j < p && j < q
    requires db.rows[p].user in db.wallets && db.rows[q].user in db.wallets
    modifies db
    ensures db.State() == RawMoves(old(db.State()), p, q, false)
  {
    var back, out := db.rows[p], db.rows[q];
    var backBefore, outBefore := db.wallets[back.user], db.wallets[out.user];
    var backAfter, outAfter := backBefore + back.amount, outBefore - out.amount;
    db.wallets := db.wallets[back.user := backAfter];
    db.wallets := db.wallets[out.user := outAfter];
    db.MarkRow(i, TxStatus.Reversed);
    db.MarkRow(j, TxStatus.Reversed);
    var backDone := back.(status := TxStatus.Successful, balanceBefore := backBefore, balanceAfter := backAfter);
    var outDone := out.(status := TxStatus.Successful, balanceBefore := outBefore, balanceAfter := outAfter);
    db.rows := db.rows[p := backDone];
    db.rows := db.rows[q := outDone];
    db.commits := db.commits + [p] + [q];
    WritesCommute(old(db.rows), p, q, i, j, backDone, outDone);
    RawMovesWrite(old(db.State()), p, q, i, j, backDone, outDone);
    hide RawMoves;
  }

  /** The transaction of a transfer's reversal, and its failure path. */
  method SettleReversal(db: Store, p: TxId, q: TxId, i: TxId, j: TxId, transfer: nat, busy: bool) returns (failed: Option<Failure>)
    requires PendingTransferReversal(db.rows, p, q) && p != q
    requires db.rows[p].reversalOf == Some(i) && db.rows[q].reversalOf == Some(j) && db.rows[p].transferId == Some(transfer)
    requires i < p && i < q && j < p && j < q
    modifies db
    ensures failed == PairFailure(old(db.State()), old(db.rows)[p].user, old(db.rows)[q].user, old(db.rows)[q].amount, busy)
    ensures failed.None? ==> db.State() == RawTransferReversal(old(db.State()), p, q, false)
    ensures failed.Some? ==> db.State() == FailBoth(old(db.State()), p, q)
  {
    failed := None;
    var back, out := db.rows[p], db.rows[q];
    if busy {
      failed := Some(LockBusy);
    } else if back.user !in db.wallets || out.user !in db.wallets {
      failed := Some(WalletNotFound);
    } else if db.wallets[out.user] < out.amount {
      failed := Some(InsufficientFunds);
    }
    if failed.Some? {
      db.MarkRow(p, TxStatus.Failed);
      db.MarkRow(q, TxStatus.Failed);
      return;
    }
    MoveBack(db, p, q, i, j);
    PostBack(db, back, out, p, transfer);
    hide RawMoves;
  }

  /** The mirror of the transfer's entry, or one of its own when the transfer predates the ledger. */
  method PostBack(db: Store, back: Transaction, out: Transaction, p: TxId, transfer: nat)
    requires back.transferId == Some(transfer)
    modifies db`journal
    ensures db.State() == PostEntry(old(db.State()), TransferReversalEntry(old(db.journal), back, out, p, db.clock))
  {
    var mirrored := db.PostMirror(e => ForTransfer(e, transfer), p);
    if !mirrored {
      db.Post(ReversalEntry, back.amount, Wallet(out.user), Wallet(back.user), Some(TransferRef(transfer)), Some(p));
    }
  }

  /** The database after taking back the transfer of row `i`, with `j` the row found as its other side. */
  function TransferReversalOutcome(db: Db, i: TxId, j: TxId, busy: bool): (Db, Result<TxId, Failure>)
    requires i < |db.rows| && PairedLeg(db.rows, i, j) && db.rows[i].transferId.Some?
  {
    var begun, p := BeginTransferReversal(db, i, j), |db.rows|;
    if db.rows[j].status != TxStatus.Successful then (db, Err(NotReversible))
    else
      var failure := PairFailure(db, db.rows[i].user, db.rows[j].user, db.rows[j].amount, busy);
      (if failure.None? then RawTransferReversal(begun, p, p + 1, false) else FailBoth(begun, p, p + 1), ResultOf(failure, p))
  }

  /** `j` is a CREDIT row of the transfer, whichever the lookup returns. */
  method ReverseTransfer(db: Store, i: TxId, busy: bool) returns (r: Result<TxId, Failure>, ghost j: TxId)
    requires i < |db.rows| && db.rows[i].transferId.Some?
    modifies db
    ensures if PairedLeg(old(db.rows), i, j) then (db.State(), r) == TransferReversalOutcome(old(db.State()), i, j, busy)
            else r == Err(PairNotFound) && db.State() == old(db.State()) && forall k: TxId :: !PairedLeg(old(db.rows), i, k)
  {
    j := 0;
    if !(exists k | 0 <= k < |db.rows| :: PairedLeg(db.rows, i, k)) {
      return Err(PairNotFound), |db.rows|;
    }
    var found: TxId :| found < |db.rows| && PairedLeg(db.rows, i, found);
    j := found;
    var mine, theirs := db.rows[i], db.rows[found];
    if theirs.status != TxStatus.Successful {
      return Err(NotReversible), j;
    }
    var p := db.CreateRow(PendingUndo(db, i, Credit));
    var q := db.CreateRow(PendingUndo(db, found, Debit));
    hide RawTransferReversal;
    var failed := SettleReversal(db, p, q, i, found, mine.transferId.value, busy);
    r := ResultOf(failed, p);
  }

  /** The database after a reversal request and what its caller gets; `j` is the row found as a transfer's other side. */
  function ReversalOutcome(db: Db, i: TxId, u: UserId, j: TxId, busy: bool): (Db, Result<TxId, Failure>) {
    var refused := CheckFailure(db, i, u);
    if refused.Some? then (db, Err(refused.value))
    else if db.rows[i].transferId.None? then
      (SingleEnd(BeginSingleReversal(db, i), |db.rows|, busy), ResultOf(SingleFailure(db, i, busy), |db.rows|))
    else if PairedLeg(db.rows, i, j) then TransferReversalOutcome(db, i, j, busy)
    else (db, Err(PairNotFound))
  }

  /** The checks, and then the reversal of the one row or of both. */
  method ReverseTransaction(db: Store, i: TxId, u: UserId, busy: bool) returns (r: Result<TxId, Failure>, ghost j: TxId)
    modifies db
    ensures (db.State(), r) == ReversalOutcome(old(db.State()), i, u, j, busy)
    ensures r == Err(PairNotFound) ==> forall k: TxId :: !PairedLeg(old(db.rows), i, k)
  {
    j := 0;
    if |db.rows| <= i || db.rows[i].user != u {
      return Err(TransactionNotFound), j;
    }
    var original := db.rows[i];
    if original.reversalOf.Some? || original.status != TxStatus.Successful {
      return Err(NotReversible), j;
    }
    if HasDeposit(db.deposits, i) || HasWithdrawal(db.withdrawals, i) {
      return Err(NotReversible), j;
    }
    if exists p | 0 <= p < |db.rows| :: LiveReversal(db.rows, p, i) {
      return Err(AlreadyReversed), j;
    }
    hide Reversible, SettleSingleReversal, SingleFailure, MoveFailure, RawTransferReversal;
    if original.transferId.Some? {
      r, j := ReverseTransfer(db, i, busy);
    } else {
      r := ReverseSingle(db, i, busy);
    }
  }

  /** A single reversal is a two-step run of the engine, and fails exactly when no wallet changed. */
  lemma SingleReversalIsARun(db: Db, i: TxId, u: UserId, j: TxId, busy: bool)
    requires Reversible(db, i, u) && db.rows[i].transferId.None?
    ensures var (after, r) := ReversalOutcome(db, i, u, j, busy);
      && after == Both(db, OfWallet(ReversalBegun(i, u, j)), OfWallet(if busy then RequestGivenUp(|db.rows|) else ReversalSettled(|db.rows|)))
      && (r.Err? <==> after.wallets == db.wallets)
  {
    var begun, p := BeginSingleReversal(db, i), |db.rows|;
    hide Reversible, SingleReversalEntry;
    assert PendingReversal(begun.rows, p) && begun.rows[p].transferId.None?;
    assert CanBook(begun, begun.rows[p]) ==> SettleSingleReversal(begun, p).wallets[db.rows[i].user] != db.wallets[db.rows[i].user];
  }

  /** Whichever way it goes, the pending pair ends as the engine's step leaves it. */
  lemma PairEndsAlike(begun: Db, p: TxId, q: TxId)
    requires PendingTransferReversal(begun.rows, p, q) && begun.rows[p].user != begun.rows[q].user
    ensures (if begun.rows[p].user in begun.wallets && CanBook(begun, begun.rows[q]) then RawTransferReversal(begun, p, q, false) else FailBoth(begun, p, q))
            == SettleTransferReversal(begun, p, q)
  {
    hide SettleTransferReversal, RawTransferReversal, CanBook;
    if begun.rows[p].user in begun.wallets && CanBook(begun, begun.rows[q]) {
      RawAgrees(begun, p, q, false);
    } else {
      FailedIsSettled(begun, p, q);
    }
  }

  lemma MoveFailsUnlessBookable(begun: Db, db: Db, i: TxId, j: TxId)
    requires i < |db.rows| && j < |db.rows| && begun == BeginTransferReversal(db, i, j) && db.rows[j].status == TxStatus.Successful
    requires db.rows[i].transferId.Some? && PairedLeg(db.rows, i, j)
    ensures MoveFailure(db, Some(db.rows[i].user), Some(db.rows[j].user), db.rows[j].amount).None? <==>
            begun.rows[|db.rows|].user in begun.wallets && CanBook(begun, begun.rows[|db.rows| + 1])
    ensures begun.rows[|db.rows|].user == db.rows[i].user && begun.rows[|db.rows| + 1].user == db.rows[j].user
  {
  }

  /** From the DEBIT leg the request is a two-step run of the engine. */
  lemma DebitLegReversalIsARun(db: Db, i: TxId, j: TxId, u: UserId, busy: bool)
    requires Inv(db) && Reversible(db, i, u) && db.rows[i].transferId.Some? && db.rows[i].kind == Debit && PairedLeg(db.rows, i, j)
    ensures TransferReversalOutcome(db, i, j, busy).0 ==
            Both(db, OfWallet(ReversalBegun(i, u, j)), OfWallet(if busy then TransferReversalGivenUp(|db.rows|) else TransferReversalSettled(|db.rows|)))
  {
    hide Inv, Reversible, RawTransferReversal, SettleTransferReversal, FailBoth, CanBook, MoveFailure, PendingTransferReversal;
    var begun, p := BeginTransferReversal(db, i, j), |db.rows|;
    BegunByRun(db, i, j, u);
    if db.rows[j].status == TxStatus.Successful {
      DifferentUsers(db, i, j, u);
      MoveFailsUnlessBookable(begun, db, i, j);
      hide BeginTransferReversal, Apply;
      PairEndsAlike(begun, p, p + 1);
    }
  }

  lemma BegunByRun(db: Db, i: TxId, j: TxId, u: UserId)
    requires Reversible(db, i, u) && db.rows[i].transferId.Some? && db.rows[i].kind == Debit && PairedLeg(db.rows, i, j)
    ensures var begun := BeginTransferReversal(db, i, j);
      && Apply(db, OfWallet(ReversalBegun(i, u, j))) == begun
      && (begun != db ==> PendingTransferReversal(begun.rows, |db.rows|, |db.rows| + 1))
      && (begun == db <==> db.rows[j].status != TxStatus.Successful)
      && Apply(begun, OfWallet(TransferReversalSettled(|db.rows|))) ==
         (if begun == db then db else SettleTransferReversal(begun, |db.rows|, |db.rows| + 1))
      && Apply(begun, OfWallet(TransferReversalGivenUp(|db.rows|))) ==
         (if begun == db then db else FailBoth(begun, |db.rows|, |db.rows| + 1))
  {
    hide Reversible, SettleTransferReversal;
    assert |BeginTransferReversal(db, i, j).rows| == |db.rows| <==> db.rows[j].status != TxStatus.Successful;
  }

  lemma FailedIsSettled(db: Db, p: TxId, q: TxId)
    requires PendingTransferReversal(db.rows, p, q) && !(db.rows[p].user in db.wallets && CanBook(db, db.rows[q]))
    ensures SettleTransferReversal(db, p, q) == FailBoth(db, p, q)
  {
  }

  lemma DifferentUsers(db: Db, i: TxId, j: TxId, u: UserId)
    requires Inv(db) && Reversible(db, i, u) && db.rows[i].transferId.Some? && db.rows[i].kind == Debit
    requires PairedLeg(db.rows, i, j) && db.rows[j].status == TxStatus.Successful
    ensures db.rows[i].user != db.rows[j].user && db.rows[i].user == u
  {
    hide GoodStep;
    FoundLeg(db, i, j, u);
    assert TransfersPaired(db.rows);
    assert Leg(db.rows[i]) && Leg(db.rows[j]);
    hide Inv;
    if i < j { assert Paired(db.rows[i], db.rows[j]); } else { assert Paired(db.rows[j], db.rows[i]); }
  }
}
