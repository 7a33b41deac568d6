/** What a reversal's journal lookup finds, and what reversals do to each and every ledger account. */
module ReversalAccounts {
  import opened Basics
  import opened Tables
  import opened Ledger
  import opened Steps
  import opened Invariants
  import opened RowProofs
  import opened AccountProofs

  /** The account on the other side of a reversible single movement. */
  function SystemSide(t: Transaction): Account {
    match t.origin
    case Direct => DevFunding
    case AdjustmentRow(_) => Adjustments
    case _ => OpeningBalances
  }

  /** What a one-sided movement `t` does to account `a`. */
  function SideOn(t: Transaction, a: Account): int {
    if a == Wallet(t.user) then -Signed(t) else if a == SystemSide(t) then Signed(t) else 0
  }

  /** What can be undone by hand: a direct movement, an adjustment, or something older than the ledger. */
  lemma OriginalOfSingle(db: Db, p: TxId)
    requires RowsOk(db) && ReversedOnce(db.rows) && Linked(db)
    requires PendingReversal(db.rows, p) && db.rows[p].transferId.None?
    ensures var o := db.rows[db.rows[p].reversalOf.value];
      && Undoable(o) && Mirrors(db.rows[p], o)
  {
    assert RowOk(db.rows, p, db.transfers, db.ledgerStart, db.clock);
    var i := db.rows[p].reversalOf.value;
    assert RowOk(db.rows, i, db.transfers, db.ledgerStart, db.clock);
    var o := db.rows[i];
    if o.origin.WithdrawalDebit? {
      var w := o.origin.withdrawal;
      assert WithdrawalOk(db.rows, db.withdrawals, w);
      LiveIsRefund(db, w, p);
    }
  }

  /** A row whose entry a reversal looks up has one entry. */
  lemma EntryOnce(db: Db, k: nat, m: nat, i: TxId)
    requires PostedOnce(db.rows, db.journal) && k < |db.journal| && m < |db.journal|
    requires db.journal[k].transactionId == Some(i) && db.journal[m].transactionId == Some(i)
    requires i < |db.rows| && !db.rows[i].origin.WithdrawalDebit?
    ensures k == m
  {
    if k < m {
      assert false;
    } else if m < k {
      assert false;
    }
  }

  /**
   * The journal lookup of a single reversal: it finds the one entry the original was posted with,
   * whichever entry of the table it looks at, or nothing when the original predates the ledger.
   */
  lemma {:induction false} LookupFindsOriginal(db: Db, p: TxId)
    requires RowsOk(db) && ReversedOnce(db.rows) && Linked(db) && Posted(db)
    requires PendingReversal(db.rows, p) && db.rows[p].transferId.None?
    ensures var i := db.rows[p].reversalOf.value;
      var found := FindByTransaction(db.journal, i);
      && (found.None? <==> db.rows[i].origin.BeforeLedger?)
      && (found.Some? ==> db.journal[found.value].lines == SideLines(db.rows[i], SystemSide(db.rows[i])))
      && (forall k :: 0 <= k < |db.journal| && ForTransaction(db.journal[k], i) ==> found == Some(k))
  {
    OriginalOfSingle(db, p);
    var i := db.rows[p].reversalOf.value;
    assert NeedsEntry(db.rows[i]) ==> HasEntry(db.journal, i);
    var found := FindByTransaction(db.journal, i);
    forall k | 0 <= k < |db.journal| && ForTransaction(db.journal[k], i) ensures found == Some(k) {
      EntryOnce(db, found.value, k, i);
    }
    if found.Some? {
      assert EntryOk(db.rows, db.journal[found.value], db.ledgerStart);
    }
  }

  lemma SideLinesOn(e: Entry, t: Transaction, system: Account, a: Account)
    requires e.lines == SideLines(t, system) && !system.Wallet?
    ensures EntryOn(a)(e) == if a == Wallet(t.user) then -Signed(t) else if a == system then Signed(t) else 0
  {
    TwoLines(e, e.lines[0].account, e.lines[1].account, t.amount, a);
  }

  /** What an entry against opening balances does when it stands in for the mirror of `o`. */
  lemma FallbackUndoes(e: Entry, row: Transaction, o: Transaction, a: Account)
    requires Mirrors(row, o) && SystemSide(o) == OpeningBalances && e.lines == SideLines(row, OpeningBalances)
    ensures EntryOn(a)(e) == -SideOn(o, a)
  {
    SideLinesOn(e, row, OpeningBalances, a);
  }

  lemma MirrorUndoesSides(e: Entry, o: Transaction, p: TxId, at: int, a: Account)
    requires e.lines == SideLines(o, SystemSide(o))
    ensures EntryOn(a)(Mirror(e, Some(p), at)) == -SideOn(o, a)
  {
    SideLinesOn(e, o, SystemSide(o), a);
    MirrorUndoes(e, Some(p), at, a);
  }

  /** A single reversal takes back exactly what its original did, on every account. */
  lemma SingleReversalUndoes(db: Db, p: TxId, a: Account)
    requires RowsOk(db) && ReversedOnce(db.rows) && Linked(db) && Posted(db)
    requires PendingReversal(db.rows, p) && db.rows[p].transferId.None?
    ensures EntryOn(a)(SingleReversalEntry(db.journal, db.rows[p], p, db.clock)) == -SideOn(db.rows[db.rows[p].reversalOf.value], a)
  {
    OriginalOfSingle(db, p);
    LookupFindsOriginal(db, p);
    hide RowsOk, ReversedOnce, Linked, Posted, SideOn, Mirror, EntryOn;
    var row := db.rows[p];
    var o := db.rows[row.reversalOf.value];
    var found := FindByTransaction(db.journal, row.reversalOf.value);
    if found.Some? {
      MirrorUndoesSides(db.journal[found.value], o, p, db.clock, a);
    } else {
      FallbackUndoes(SingleReversalEntry(db.journal, row, p, db.clock), row, o, a);
    }
  }

  /** A standing movement of a kind that can be undone by hand. */
  predicate Undoable(o: Transaction) {
    (o.origin.Direct? || o.origin.AdjustmentRow? || o.origin.BeforeLedger?) && o.status == TxStatus.Successful
  }

  lemma SettledSingle(db: Db, p: TxId, a: Account)
    requires PendingReversal(db.rows, p) && CanBook(db, db.rows[p])
    ensures var settled := SettleSingleReversal(db, p);
      && settled.journal == db.journal + [SingleReversalEntry(db.journal, db.rows[p], p, db.clock)]
      && Expected(settled, a) == Expected(SetStatus(BookRow(db, p), db.rows[p].reversalOf.value, TxStatus.Reversed), a)
  {
    hide SingleReversalEntry;
  }

  lemma SettleSingleReversalGap(db: Db, p: TxId, a: Account)
    requires PendingReversal(db.rows, p) && db.rows[p].transferId.None? && db.rows[p].origin.ReversalRow? && CanBook(db, db.rows[p])
    requires Undoable(db.rows[db.rows[p].reversalOf.value]) && Mirrors(db.rows[p], db.rows[db.rows[p].reversalOf.value])
    requires db.rows[p].origin == UndoOf(db.rows[db.rows[p].reversalOf.value])
    requires EntryOn(a)(SingleReversalEntry(db.journal, db.rows[p], p, db.clock)) == -SideOn(db.rows[db.rows[p].reversalOf.value], a)
    ensures Gap(SettleSingleReversal(db, p), a) == Gap(db, a)
  {
    var row := db.rows[p];
    hide SingleReversalEntry, AccountBalance, Expected, SettleSingleReversal, EntryOn;
    SettledSingle(db, p, a);
    BookRowExpected(db, p, a);
    SetStatusExpected(BookRow(db, p), row.reversalOf.value, TxStatus.Reversed, a);
    PostMoves(db.journal, SingleReversalEntry(db.journal, row, p, db.clock), a);
  }

  lemma SettleSingleReversalAccounts(db: Db, p: TxId)
    requires RowsOk(db) && ReversedOnce(db.rows) && Linked(db) && Posted(db)
    requires PendingReversal(db.rows, p) && db.rows[p].transferId.None? && db.rows[p].origin.ReversalRow?
    ensures SameGaps(db, SettleSingleReversal(db, p))
  {
    var row, db' := db.rows[p], SettleSingleReversal(db, p);
    OriginalOfSingle(db, p);
    assert RowOk(db.rows, p, db.transfers, db.ledgerStart, db.clock);
    hide RowsOk, ReversedOnce, Linked, Posted, Gap, SideOn, EntryOn, SingleReversalEntry;
    forall a: Account ensures Gap(db', a) == Gap(db, a) {
      if CanBook(db, row) {
        SingleReversalUndoes(db, p, a);
        SettleSingleReversalGap(db, p, a);
      } else {
        FailedReversalGap(db, p, a);
      }
    }
  }

  lemma FailedReversalGap(db: Db, p: TxId, a: Account)
    requires PendingReversal(db.rows, p)
    ensures Gap(SetStatus(db, p, TxStatus.Failed), a) == Gap(db, a)
  {
    SetStatusExpected(db, p, TxStatus.Failed, a);
  }

  /** The lookup by transfer id finds the one entry of the transfer, or nothing before the ledger. */
  lemma {:induction false} LookupFindsTransfer(db: Db, p: TxId, q: TxId)
    requires RowsOk(db) && ReversedOnce(db.rows) && TransfersPaired(db.rows) && Posted(db)
    requires PendingTransferReversal(db.rows, p, q)
    ensures var i, j, t := db.rows[p].reversalOf.value, db.rows[q].reversalOf.value, db.rows[p].transferId.value;
      var found := FindByTransfer(db.journal, t);
      && (found.None? <==> !db.rows[i].origin.TransferLeg?)
      && (found.Some? ==> TransferLines(db.journal[found.value], db.rows[i], db.rows[j]))
      && (forall k :: 0 <= k < |db.journal| && ForTransfer(db.journal[k], t) ==> found == Some(k))
  {
    UndoneLegs(db, p, q);
    var i, j, t := db.rows[p].reversalOf.value, db.rows[q].reversalOf.value, db.rows[p].transferId.value;
    var found := FindByTransfer(db.journal, t);
    forall k | 0 <= k < |db.journal| && ForTransfer(db.journal[k], t)
      ensures db.journal[k].transactionId == Some(i) && db.rows[i].origin.TransferLeg? && TransferLines(db.journal[k], db.rows[i], db.rows[j])
    {
      TransferEntryOf(db, k, i, t);
      assert ReceivesFrom(db.rows, db.journal[k], db.rows[j]);
    }
    forall k | 0 <= k < |db.journal| && ForTransfer(db.journal[k], t) ensures found == Some(k) {
      EntryOnce(db, found.value, k, i);
    }
    assert RowOk(db.rows, i, db.transfers, db.ledgerStart, db.clock);
    if NeedsEntry(db.rows[i]) {
      assert HasEntry(db.journal, i);
      var k :| 0 <= k < |db.journal| && db.journal[k].transactionId == Some(i);
      assert EntryOk(db.rows, db.journal[k], db.ledgerStart);
      assert ForTransfer(db.journal[k], t);
    }
  }

  lemma TransferEntryOf(db: Db, k: nat, i: TxId, t: nat)
    requires TransfersPaired(db.rows) && JournalOk(db.rows, db.journal, db.ledgerStart)
    requires k < |db.journal| && ForTransfer(db.journal[k], t) && RowsOk(db)
    requires i < |db.rows| && Leg(db.rows[i]) && db.rows[i].kind == Debit && db.rows[i].transferId == Some(t)
    ensures db.journal[k].transactionId == Some(i) && db.journal[k].kind == TransferEntry && db.rows[i].origin.TransferLeg?
  {
    assert EntryOk(db.rows, db.journal[k], db.ledgerStart);
    var x := db.journal[k].transactionId.value;
    assert RowOk(db.rows, x, db.transfers, db.ledgerStart, db.clock);
    OneCreditLeg(db.rows, x, i);
  }

  /** A transfer's reversal moves its amount from the receiver's wallet back to the sender's. */
  lemma FoundTransferLines(db: Db, p: TxId, q: TxId)
    requires RowsOk(db) && ReversedOnce(db.rows) && TransfersPaired(db.rows) && Posted(db)
    requires PendingTransferReversal(db.rows, p, q)
    ensures var back, out := db.rows[p], db.rows[q];
      var found := FindByTransfer(db.journal, back.transferId.value);
      && back.amount == out.amount
      && (found.Some? ==> db.journal[found.value].lines == [Line(Wallet(back.user), back.amount), Line(Wallet(out.user), -(back.amount as int))])
  {
    hide RowsOk, ReversedOnce, TransfersPaired, Posted, ForTransfer, FindByTransfer;
    UndoneLegs(db, p, q);
    LookupFindsTransfer(db, p, q);
  }

  /** What the lookup by transfer id finds, if anything, are the sender's and the receiver's line. */
  predicate LinesOfTransfer(journal: seq<Entry>, back: Transaction, out: Transaction)
    requires back.transferId.Some?
  {
    var found := FindByTransfer(journal, back.transferId.value);
    found.Some? ==> journal[found.value].lines == [Line(Wallet(back.user), back.amount), Line(Wallet(out.user), -(back.amount as int))]
  }

  lemma UndoesByEntry(db: Db, p: TxId, q: TxId, a: Account)
    requires PendingTransferReversal(db.rows, p, q) && db.rows[p].amount == db.rows[q].amount
    requires LinesOfTransfer(db.journal, db.rows[p], db.rows[q])
    ensures EntryOn(a)(TransferReversalEntry(db.journal, db.rows[p], db.rows[q], p, db.clock)) ==
            (if a == Wallet(db.rows[q].user) then db.rows[q].amount else 0) - (if a == Wallet(db.rows[p].user) then db.rows[p].amount else 0)
  {
    hide EntryOn, Mirror;
    var back, out := db.rows[p], db.rows[q];
    var found := FindByTransfer(db.journal, back.transferId.value);
    if found.Some? {
      MirrorUndoesTransfer(db.journal[found.value], back.user, out.user, back.amount, p, db.clock, a);
    } else {
      TwoLines(TransferReversalEntry(db.journal, back, out, p, db.clock), Wallet(out.user), Wallet(back.user), back.amount, a);
    }
  }

  lemma TransferReversalUndoes(db: Db, p: TxId, q: TxId, a: Account)
    requires RowsOk(db) && ReversedOnce(db.rows) && TransfersPaired(db.rows) && Posted(db)
    requires PendingTransferReversal(db.rows, p, q)
    ensures EntryOn(a)(TransferReversalEntry(db.journal, db.rows[p], db.rows[q], p, db.clock)) ==
            (if a == Wallet(db.rows[q].user) then db.rows[q].amount else 0) - (if a == Wallet(db.rows[p].user) then db.rows[p].amount else 0)
  {
    hide RowsOk, ReversedOnce, TransfersPaired, Posted, FindByTransfer, EntryOn, Mirror;
    FoundTransferLines(db, p, q);
    UndoesByEntry(db, p, q, a);
  }

  lemma MirrorUndoesTransfer(e: Entry, sender: UserId, receiver: UserId, amount: Amount, p: TxId, at: int, a: Account)
    requires e.lines == [Line(Wallet(sender), amount), Line(Wallet(receiver), -(amount as int))]
    ensures EntryOn(a)(Mirror(e, Some(p), at)) == (if a == Wallet(receiver) then amount else 0) - (if a == Wallet(sender) then amount else 0)
  {
    TwoLines(e, Wallet(sender), Wallet(receiver), amount, a);
    MirrorUndoes(e, Some(p), at, a);
  }

  lemma TransferUndoneExpected(db: Db, p: TxId, q: TxId, i: TxId, j: TxId, a: Account)
    requires p < |db.rows| && q < |db.rows| && i < |db.rows| && j < |db.rows| && p != q
    requires db.rows[p].status == TxStatus.Pending && db.rows[q].status == TxStatus.Pending
    requires db.rows[p].user in db.wallets && db.rows[q].user in db.wallets
    requires forall x | x in {p, q, i, j} :: RowWeight(db.rows[x], a) == 0
    ensures var booked := BookRow(BookRow(db, p), q);
      Expected(SetStatus(SetStatus(booked, i, TxStatus.Reversed), j, TxStatus.Reversed), a) ==
      Expected(db, a) - (if a == Wallet(db.rows[p].user) then Signed(db.rows[p]) else 0)
                      - (if a == Wallet(db.rows[q].user) then Signed(db.rows[q]) else 0)
  {
    var booked := BookRow(BookRow(db, p), q);
    BookRowExpected(db, p, a);
    BookRowExpected(BookRow(db, p), q, a);
    SetStatusExpected(booked, i, TxStatus.Reversed, a);
    SetStatusExpected(SetStatus(booked, i, TxStatus.Reversed), j, TxStatus.Reversed, a);
  }

  lemma TransferUndoneGap(db: Db, p: TxId, q: TxId, a: Account)
    requires PendingTransferReversal(db.rows, p, q) && db.rows[p].user in db.wallets && CanBook(db, db.rows[q])
    requires p != q && db.rows[p].amount == db.rows[q].amount
    requires forall x | x in {p, q, db.rows[p].reversalOf.value, db.rows[q].reversalOf.value} :: RowWeight(db.rows[x], a) == 0
    requires EntryOn(a)(TransferReversalEntry(db.journal, db.rows[p], db.rows[q], p, db.clock)) ==
             (if a == Wallet(db.rows[q].user) then db.rows[q].amount else 0) - (if a == Wallet(db.rows[p].user) then db.rows[p].amount else 0)
    ensures Gap(SettleTransferReversal(db, p, q), a) == Gap(db, a)
  {
    TransferUndoneExpected(db, p, q, db.rows[p].reversalOf.value, db.rows[q].reversalOf.value, a);
    PostMoves(db.journal, TransferReversalEntry(db.journal, db.rows[p], db.rows[q], p, db.clock), a);
    hide AccountBalance;
    assert Expected(SettleTransferReversal(db, p, q), a) ==
           Expected(SetStatus(SetStatus(BookRow(BookRow(db, p), q), db.rows[p].reversalOf.value, TxStatus.Reversed), db.rows[q].reversalOf.value, TxStatus.Reversed), a);
  }

  lemma SettleTransferReversalAccounts(db: Db, p: TxId, q: TxId)
    requires RowsOk(db) && ReversedOnce(db.rows) && TransfersPaired(db.rows) && Posted(db)
    requires PendingTransferReversal(db.rows, p, q) && db.rows[p].origin.ReversalRow? && db.rows[q].origin.ReversalRow?
    ensures SameGaps(db, SettleTransferReversal(db, p, q))
  {
    var back, out := db.rows[p], db.rows[q];
    UndoneLegs(db, p, q);
    assert RowOk(db.rows, back.reversalOf.value, db.transfers, db.ledgerStart, db.clock);
    assert RowOk(db.rows, out.reversalOf.value, db.transfers, db.ledgerStart, db.clock);
    hide RowsOk, ReversedOnce, TransfersPaired, Posted, Gap;
    forall a: Account ensures Gap(SettleTransferReversal(db, p, q), a) == Gap(db, a) {
      if back.user in db.wallets && CanBook(db, out) {
        TransferReversalUndoes(db, p, q, a);
        TransferUndoneGap(db, p, q, a);
      } else {
        FailTwoAccounts(db, p, q, a);
      }
    }
  }
}
