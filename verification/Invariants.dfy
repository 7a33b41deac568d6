/** What every reachable state of the money engine satisfies, one predicate per concern. */
module Invariants {
  import opened Basics
  import opened Tables
  import opened Ledger
  import opened Steps

  // ---------- Rows ----------

  /** The fields of a row that no step ever changes. */
  predicate SameIdentity(a: Transaction, b: Transaction) {
    && a.user == b.user && a.kind == b.kind && a.amount == b.amount
    && a.transferId == b.transferId && a.reversalOf == b.reversalOf
    && a.timestamp == b.timestamp && a.origin == b.origin
  }

  /** PENDING settles or fails, SUCCESSFUL may become REVERSED, and nothing else moves. */
  predicate StatusStep(a: TxStatus, b: TxStatus) {
    || a == b
    || (a == TxStatus.Pending && (b == TxStatus.Successful || b == TxStatus.Failed))
    || (a == TxStatus.Successful && b == TxStatus.Reversed)
  }

  predicate RowStep(a: Transaction, b: Transaction) {
    SameIdentity(a, b) && StatusStep(a.status, b.status)
  }

  ghost predicate RowsEvolve(rows: seq<Transaction>, rows': seq<Transaction>) {
    |rows| <= |rows'| && forall i :: 0 <= i < |rows| ==> RowStep(rows[i], rows'[i])
  }

  predicate OriginShape(t: Transaction) {
    match t.origin
    case BeforeLedger => t.status != TxStatus.Pending
    case Direct => t.transferId.None? && t.reversalOf.None?
    case TransferLeg => t.transferId.Some? && t.reversalOf.None?
    case ReversalRow(_) => t.reversalOf.Some?
    case DepositCredit(_) => t.transferId.None? && t.reversalOf.None? && Settled(t)
    case WithdrawalDebit(_) => t.transferId.None? && t.reversalOf.None? && Settled(t)
    case RefundCredit(_) => t.transferId.None? && t.reversalOf.Some? && Settled(t)
    case AdjustmentRow(_) => t.transferId.None? && t.reversalOf.None? && Settled(t)
  }

  /** `t` moves the same money as `o` the other way. */
  predicate Mirrors(t: Transaction, o: Transaction) {
    t.user == o.user && t.amount == o.amount && t.kind == Opposite(o.kind) && t.transferId == o.transferId && o.reversalOf.None?
  }

  predicate RowOk(rows: seq<Transaction>, i: nat, transfers: nat, ledgerStart: int, clock: int)
    requires i < |rows|
  {
    var t := rows[i];
    && t.timestamp <= clock
    && (t.origin.BeforeLedger? <==> t.timestamp <= ledgerStart)
    && (t.transferId.Some? ==> t.transferId.value < transfers)
    && OriginShape(t)
    && (t.reversalOf.Some? ==>
          && t.reversalOf.value < i
          && Mirrors(t, rows[t.reversalOf.value])
          && (t.origin.ReversalRow? ==> t.origin == UndoOf(rows[t.reversalOf.value])))
  }

  ghost predicate RowsOk(db: Db) {
    && db.ledgerStart < db.clock
    && forall i :: 0 <= i < |db.rows| ==> RowOk(db.rows, i, db.transfers, db.ledgerStart, db.clock)
  }

  /** Every row is undone at most once, and is REVERSED once its undoing has settled. */
  ghost predicate ReversedOnce(rows: seq<Transaction>) {
    && (forall p, q :: 0 <= p < q < |rows| && rows[p].reversalOf.Some? && rows[p].reversalOf == rows[q].reversalOf ==>
          rows[p].status == TxStatus.Failed || rows[q].status == TxStatus.Failed)
    && (forall p :: 0 <= p < |rows| && rows[p].reversalOf.Some? && rows[p].reversalOf.value < p ==>
          && (rows[p].status == TxStatus.Pending ==> rows[rows[p].reversalOf.value].status == TxStatus.Successful)
          && (Settled(rows[p]) ==> rows[rows[p].reversalOf.value].status == TxStatus.Reversed))
  }

  predicate Leg(t: Transaction) {
    t.transferId.Some? && t.reversalOf.None?
  }

  /** Two different legs of one transfer are its two sides. */
  predicate Paired(a: Transaction, b: Transaction) {
    && a.kind != b.kind && a.user != b.user && a.amount == b.amount && a.origin == b.origin
    && (Settled(a) || Settled(b) ==> a.status == b.status)
  }

  ghost predicate TransfersPaired(rows: seq<Transaction>) {
    forall i, j :: 0 <= i < j < |rows| && Leg(rows[i]) && Leg(rows[j]) && rows[i].transferId == rows[j].transferId ==>
      Paired(rows[i], rows[j])
  }

  /** A row of a transfer's reversal. */
  predicate PairRow(t: Transaction) {
    t.origin.ReversalRow? && t.transferId.Some?
  }

  predicate Partners(back: Transaction, out: Transaction) {
    && PairRow(back) && PairRow(out) && back.kind == Credit && out.kind == Debit
    && back.transferId == out.transferId && back.status == out.status
  }

  /** The two rows of a transfer's reversal are written one after the other and share their fate. */
  ghost predicate ReversalsPaired(rows: seq<Transaction>) {
    && (forall p :: 0 <= p < |rows| && PairRow(rows[p]) && rows[p].kind == Credit ==> p + 1 < |rows| && Partners(rows[p], rows[p + 1]))
    && (forall q :: 0 <= q < |rows| && PairRow(rows[q]) && rows[q].kind == Debit ==> 1 <= q && Partners(rows[q - 1], rows[q]))
  }

  // ---------- Payments and adjustments against their rows ----------

  predicate LinkedRow(rows: seq<Transaction>, i: TxId, u: UserId, kind: TxType, amount: int) {
    i < |rows| && rows[i].user == u && rows[i].kind == kind && rows[i].amount == amount
  }

  /** A deposit has its credit exactly when it is SUCCESSFUL, and nobody undoes that credit. */
  predicate DepositOk(rows: seq<Transaction>, deposits: seq<Deposit>, d: nat)
    requires d < |deposits|
  {
    var dep := deposits[d];
    && (dep.status == DepositStatus.Successful <==> dep.transactionId.Some?)
    && (dep.transactionId.Some? ==>
          var i := dep.transactionId.value;
          && LinkedRow(rows, i, dep.user, Credit, dep.amount)
          && rows[i].status == TxStatus.Successful
          && rows[i].transferId.None?
          && (rows[i].origin == Origin.DepositCredit(d) || rows[i].origin.BeforeLedger?))
  }

  ghost predicate DepositsLinked(rows: seq<Transaction>, deposits: seq<Deposit>) {
    && (forall d :: 0 <= d < |deposits| ==> DepositOk(rows, deposits, d))
    && (forall i :: 0 <= i < |rows| && rows[i].origin.DepositCredit? ==>
          rows[i].origin.deposit < |deposits| && deposits[rows[i].origin.deposit].transactionId == Some(i))
    && (forall p, d :: 0 <= p < |rows| && 0 <= d < |deposits| && rows[p].reversalOf.Some? && rows[p].status != TxStatus.Failed ==>
          rows[p].reversalOf != deposits[d].transactionId)
  }

  predicate Refunded(status: WithdrawalStatus) {
    status == WithdrawalStatus.Failed || status == WithdrawalStatus.Reversed
  }

  /** A withdrawal has a refund exactly when it is FAILED or REVERSED. */
  predicate WithdrawalOk(rows: seq<Transaction>, withdrawals: seq<Withdrawal>, w: nat)
    requires w < |withdrawals|
  {
    var wd := withdrawals[w];
    && LinkedRow(rows, wd.debitTransactionId, wd.user, Debit, wd.amount)
    && rows[wd.debitTransactionId].transferId.None?
    && rows[wd.debitTransactionId].reversalOf.None?
    && Settled(rows[wd.debitTransactionId])
    && (rows[wd.debitTransactionId].origin == Origin.WithdrawalDebit(w) || rows[wd.debitTransactionId].origin.BeforeLedger?)
    && (wd.status == WithdrawalStatus.Processing ==> !rows[wd.debitTransactionId].origin.BeforeLedger?)
    && (rows[wd.debitTransactionId].status == TxStatus.Reversed <==> Refunded(wd.status))
    && (Refunded(wd.status) <==> wd.refundTransactionId.Some?)
    && (wd.refundTransactionId.Some? ==>
          var r := wd.refundTransactionId.value;
          && LinkedRow(rows, r, wd.user, Credit, wd.amount)
          && rows[r].reversalOf == Some(wd.debitTransactionId)
          && rows[r].status == TxStatus.Successful)
  }

  ghost predicate WithdrawalsLinked(rows: seq<Transaction>, withdrawals: seq<Withdrawal>) {
    && (forall w :: 0 <= w < |withdrawals| ==> WithdrawalOk(rows, withdrawals, w))
    && (forall w, v :: 0 <= w < v < |withdrawals| ==> withdrawals[w].debitTransactionId != withdrawals[v].debitTransactionId)
    && (forall i :: 0 <= i < |rows| && rows[i].origin.WithdrawalDebit? ==>
          rows[i].origin.withdrawal < |withdrawals| && withdrawals[rows[i].origin.withdrawal].debitTransactionId == i)
    && (forall i :: 0 <= i < |rows| && rows[i].origin.RefundCredit? ==>
          rows[i].origin.withdrawal < |withdrawals| && withdrawals[rows[i].origin.withdrawal].refundTransactionId == Some(i))
    && (forall w, r :: 0 <= w < |withdrawals| && LiveReversal(rows, r, withdrawals[w].debitTransactionId) ==>
          withdrawals[w].refundTransactionId == Some(r))
  }

  /** An adjustment has its row exactly when it is APPROVED. */
  predicate AdjustmentOk(rows: seq<Transaction>, adjustments: seq<Adjustment>, a: nat)
    requires a < |adjustments|
  {
    var adj := adjustments[a];
    && (adj.status == AdjustmentStatus.Approved <==> adj.transactionId.Some?)
    && (adj.status == AdjustmentStatus.Pending <==> adj.decidedBy.None?)
    && (adj.transactionId.Some? ==>
          var i := adj.transactionId.value;
          && LinkedRow(rows, i, adj.user, adj.direction, adj.amount)
          && rows[i].origin == Origin.AdjustmentRow(a))
  }

  ghost predicate AdjustmentsLinked(rows: seq<Transaction>, adjustments: seq<Adjustment>) {
    && (forall a :: 0 <= a < |adjustments| ==> AdjustmentOk(rows, adjustments, a))
    && (forall i :: 0 <= i < |rows| && rows[i].origin.AdjustmentRow? ==>
          rows[i].origin.adjustment < |adjustments| && adjustments[rows[i].origin.adjustment].transactionId == Some(i))
  }

  // ---------- The journal against the rows ----------

  /** The kind of entry a row of this origin is posted with. */
  predicate PostedAs(kind: EntryType, origin: Origin) {
    match origin
    case BeforeLedger => false
    case Direct => kind == DirectFunding
    case TransferLeg => kind == TransferEntry
    case ReversalRow(_) => kind == ReversalEntry
    case DepositCredit(_) => kind == DepositEntry
    case WithdrawalDebit(_) => kind == WithdrawalEntry || kind == WithdrawalPaid
    case RefundCredit(_) => kind == WithdrawalRefund
    case AdjustmentRow(_) => kind == AdjustmentEntry
  }

  /** The two lines of a one-sided movement against `system`. */
  function SideLines(t: Transaction, system: Account): seq<Line> {
    if t.kind == Credit
    then [Line(system, t.amount), Line(Wallet(t.user), -(t.amount as int))]
    else [Line(Wallet(t.user), t.amount), Line(system, -(t.amount as int))]
  }

  /** `other` is the receiving side of the transfer that `e` posts. */
  predicate ReceivesFrom(rows: seq<Transaction>, e: Entry, other: Transaction) {
    && e.kind == TransferEntry
    && e.transactionId.Some? && e.transactionId.value < |rows|
    && Leg(other) && other.kind == Credit
    && rows[e.transactionId.value].transferId == other.transferId
  }

  predicate TransferLines(e: Entry, t: Transaction, other: Transaction) {
    e.lines == [Line(Wallet(t.user), t.amount), Line(Wallet(other.user), -(t.amount as int))]
  }

  predicate EntryOk(rows: seq<Transaction>, e: Entry, ledgerStart: int) {
    && Balanced(e)
    && (e.kind == OpeningBalance <==> e.transactionId.None?)
    && (e.kind == OpeningBalance ==> e.reference.None? && e.createdAt <= ledgerStart)
    && (e.reference.Some? && e.reference.value.TransferRef? ==> e.kind == TransferEntry || e.kind == ReversalEntry)
    && (e.transactionId.Some? ==>
          && e.transactionId.value < |rows|
          && var t := rows[e.transactionId.value];
             && Settled(t)
             && PostedAs(e.kind, t.origin)
             && (t.origin.Direct? ==> e.lines == SideLines(t, DevFunding))
             && (t.origin.AdjustmentRow? ==> e.lines == SideLines(t, Adjustments))
             && (t.origin.TransferLeg? ==> t.kind == Debit && t.transferId.Some? && e.reference == Some(TransferRef(t.transferId.value))))
  }

  ghost predicate JournalOk(rows: seq<Transaction>, journal: seq<Entry>, ledgerStart: int) {
    forall k :: 0 <= k < |journal| ==> EntryOk(rows, journal[k], ledgerStart)
  }

  /** A transfer's entry debits its sender's wallet and credits its receiver's. */
  ghost predicate TransfersPosted(rows: seq<Transaction>, journal: seq<Entry>) {
    forall k, j :: 0 <= k < |journal| && 0 <= j < |rows| && ReceivesFrom(rows, journal[k], rows[j]) ==>
      TransferLines(journal[k], rows[journal[k].transactionId.value], rows[j])
  }

  /** A row has one entry; only a paid withdrawal's debit has two. */
  ghost predicate PostedOnce(rows: seq<Transaction>, journal: seq<Entry>) {
    forall k, m :: 0 <= k < m < |journal| && journal[k].transactionId.Some? && journal[k].transactionId == journal[m].transactionId ==>
      journal[k].transactionId.value < |rows| && rows[journal[k].transactionId.value].origin.WithdrawalDebit?
  }

  /** Rows whose entry a later reversal has to find. */
  predicate NeedsEntry(t: Transaction) {
    Settled(t) && (t.origin.Direct? || t.origin.AdjustmentRow? || (t.origin.TransferLeg? && t.kind == Debit))
  }

  predicate HasEntry(journal: seq<Entry>, i: TxId) {
    exists k :: 0 <= k < |journal| && journal[k].transactionId == Some(i)
  }

  ghost predicate AllPosted(rows: seq<Transaction>, journal: seq<Entry>) {
    forall i :: 0 <= i < |rows| && NeedsEntry(rows[i]) ==> HasEntry(journal, i)
  }

  // ---------- Balances ----------

  function Stored(wallets: map<UserId, int>, u: UserId): int {
    if u in wallets then wallets[u] else 0
  }

  function OpeningAmount(journal: seq<Entry>, u: UserId): int {
    var k := FindOpening(journal, u);
    if k.Some? then -EntryOn(Wallet(u))(journal[k.value]) else 0
  }

  /** Where counting starts: after the opening entry, if the wallet has one. */
  function Since(journal: seq<Entry>, u: UserId): Option<int> {
    var k := FindOpening(journal, u);
    if k.Some? then Some(journal[k.value].createdAt) else None
  }

  predicate Counted(t: Transaction, u: UserId, since: Option<int>) {
    t.user == u && Settled(t) && (since.Some? ==> since.value < t.timestamp)
  }

  function NetOf(u: UserId, since: Option<int>): Transaction -> int {
    (t: Transaction) => if Counted(t, u, since) then Signed(t) else 0
  }

  ghost predicate BalancedByRows(db: Db) {
    && (forall u: UserId :: Stored(db.wallets, u) == OpeningAmount(db.journal, u) + SumBy(db.rows, NetOf(u, Since(db.journal, u))))
    && (forall u :: u in db.wallets ==> 0 <= db.wallets[u])
  }

  ghost predicate BalancedByLedger(db: Db) {
    forall u: UserId :: Stored(db.wallets, u) == WalletLedgerBalance(db.journal, u)
  }

  // ---------- The order in which rows were settled ----------

  /** The balance wallet `u` has after the commits so far, starting from `start`. */
  function ChainEnd(rows: seq<Transaction>, commits: seq<TxId>, u: UserId, start: int): int
    requires forall c :: 0 <= c < |commits| ==> commits[c] < |rows|
  {
    if commits == [] then start
    else
      var last := rows[commits[|commits| - 1]];
      if last.user == u then last.balanceAfter else ChainEnd(rows, commits[..|commits| - 1], u, start)
  }

  /** Each settled row of `u` starts where the one before it ended. */
  predicate Chained(rows: seq<Transaction>, commits: seq<TxId>, u: UserId, start: int)
    requires forall c :: 0 <= c < |commits| ==> commits[c] < |rows|
  {
    commits == [] ||
    var n := |commits| - 1;
    var last := rows[commits[n]];
    && Chained(rows, commits[..n], u, start)
    && (last.user == u ==> last.balanceBefore == ChainEnd(rows, commits[..n], u, start) && last.balanceAfter == last.balanceBefore + Signed(last))
  }

  predicate CommitsInRange(rows: seq<Transaction>, commits: seq<TxId>) {
    forall c :: 0 <= c < |commits| ==> commits[c] < |rows|
  }

  /** `commits` lists each row settled since the ledger started exactly once. */
  ghost predicate CommitsComplete(rows: seq<Transaction>, commits: seq<TxId>) {
    && CommitsInRange(rows, commits)
    && (forall c, e :: 0 <= c < e < |commits| ==> commits[c] != commits[e])
    && (forall i :: 0 <= i < |rows| ==> (i in commits <==> Settled(rows[i]) && !rows[i].origin.BeforeLedger?))
  }

  ghost predicate BalancesChained(db: Db) {
    && CommitsInRange(db.rows, db.commits)
    && forall u: UserId ::
         && Chained(db.rows, db.commits, u, OpeningAmount(db.journal, u))
         && ChainEnd(db.rows, db.commits, u, OpeningAmount(db.journal, u)) == Stored(db.wallets, u)
  }

  // ---------- Together ----------

  ghost predicate Linked(db: Db) {
    && DepositsLinked(db.rows, db.deposits)
    && WithdrawalsLinked(db.rows, db.withdrawals)
    && AdjustmentsLinked(db.rows, db.adjustments)
  }

  ghost predicate Posted(db: Db) {
    && JournalOk(db.rows, db.journal, db.ledgerStart)
    && TransfersPosted(db.rows, db.journal)
    && PostedOnce(db.rows, db.journal)
    && AllPosted(db.rows, db.journal)
  }

  ghost predicate Balances(db: Db) {
    BalancedByRows(db) && CommitsComplete(db.rows, db.commits) && BalancesChained(db)
  }

  ghost predicate Inv(db: Db) {
    && RowsOk(db)
    && ReversedOnce(db.rows)
    && TransfersPaired(db.rows)
    && ReversalsPaired(db.rows)
    && Linked(db)
    && Posted(db)
    && Balances(db)
    && BalancedByLedger(db)
  }
}
