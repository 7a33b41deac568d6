/**
 * What each request does to the database. Every function here is one atomic step: either one
 * database transaction or one single-row write outside a transaction; the two writes of a failed
 * pair count as one. A transaction that throws changes nothing, so its step returns the state it
 * was given.
 */
module Steps {
  import opened Basics
  import opened Tables
  import opened Ledger
  import opened Limits

  // ---------- The writes steps are made of ----------

  function NewRow(db: Db, u: UserId, kind: TxType, amount: Amount, transferId: Option<nat>,
                  reversalOf: Option<TxId>, origin: Origin): Transaction {
    Transaction(u, kind, TxStatus.Pending, amount, 0, 0, transferId, reversalOf, db.clock, origin)
  }

  function AddRow(db: Db, row: Transaction): Db {
    db.(rows := db.rows + [row])
  }

  function SetStatus(db: Db, i: TxId, status: TxStatus): Db
    requires i < |db.rows|
  {
    db.(rows := db.rows[i := db.rows[i].(status := status)])
  }

  /** Applies row `i` to its wallet and settles it with the balances around it. */
  function BookRow(db: Db, i: TxId): Db
    requires i < |db.rows| && db.rows[i].user in db.wallets
  {
    var row := db.rows[i];
    var before := db.wallets[row.user];
    var after := before + Signed(row);
    db.(wallets := db.wallets[row.user := after],
        rows := db.rows[i := row.(status := TxStatus.Successful, balanceBefore := before, balanceAfter := after)],
        commits := db.commits + [i])
  }

  /** The catch block of a request that wrote two pending rows. */
  function FailBoth(db: Db, i: TxId, j: TxId): Db
    requires i < |db.rows| && j < |db.rows|
  {
    SetStatus(SetStatus(db, i, TxStatus.Failed), j, TxStatus.Failed)
  }

  function PostEntry(db: Db, e: Entry): Db {
    db.(journal := db.journal + [e])
  }

  /** A missing wallet or a debit above its balance stops a transaction. */
  predicate CanBook(db: Db, row: Transaction) {
    row.user in db.wallets && (row.kind == Debit ==> row.amount <= db.wallets[row.user])
  }

  // ---------- Accounts ----------

  function OpenAccount(db: Db, u: UserId): Db {
    if u in db.tiers || u in db.wallets then db
    else db.(tiers := db.tiers[u := Tier1], wallets := db.wallets[u := 0])
  }

  // ---------- Direct credits and debits ----------

  function BeginDirect(db: Db, u: UserId, kind: TxType, amount: Amount): Db {
    AddRow(db, NewRow(db, u, kind, amount, None, None, Origin.Direct))
  }

  predicate PendingDirect(rows: seq<Transaction>, i: TxId) {
    i < |rows| && rows[i].status == TxStatus.Pending && rows[i].transferId.None? && rows[i].reversalOf.None?
  }

  function DirectEntry(row: Transaction, i: TxId, at: int): Entry {
    if row.kind == Credit
    then Movement(DirectFunding, row.amount, DevFunding, Wallet(row.user), None, Some(i), at)
    else Movement(DirectFunding, row.amount, Wallet(row.user), DevFunding, None, Some(i), at)
  }

  function SettleDirect(db: Db, i: TxId): Db
    requires PendingDirect(db.rows, i)
  {
    var row := db.rows[i];
    if CanBook(db, row) then PostEntry(BookRow(db, i), DirectEntry(row, i, db.clock))
    else SetStatus(db, i, TxStatus.Failed)
  }

  // ---------- Transfers ----------

  function BeginTransfer(db: Db, sender: UserId, receiver: UserId, amount: Amount): Db {
    if receiver !in db.wallets || receiver == sender then db
    else
      var t := Some(db.transfers);
      var one := AddRow(db, NewRow(db, sender, Debit, amount, t, None, Origin.TransferLeg));
      AddRow(one, NewRow(db, receiver, Credit, amount, t, None, Origin.TransferLeg)).(transfers := db.transfers + 1)
  }

  predicate PendingTransfer(rows: seq<Transaction>, i: TxId, j: TxId) {
    && i < |rows| && j < |rows|
    && rows[i].status == TxStatus.Pending && rows[j].status == TxStatus.Pending
    && rows[i].kind == Debit && rows[j].kind == Credit
    && rows[i].reversalOf.None? && rows[j].reversalOf.None?
    && rows[i].transferId.Some? && rows[i].transferId == rows[j].transferId
  }

  function TransferMovement(debit: Transaction, credit: Transaction, i: TxId, at: int): Entry
    requires debit.transferId.Some?
  {
    Movement(TransferEntry, debit.amount, Wallet(debit.user), Wallet(credit.user),
             Some(TransferRef(debit.transferId.value)), Some(i), at)
  }

  predicate CanTransfer(db: Db, debit: Transaction, credit: Transaction) {
    CanBook(db, debit) && CanSend(db, debit.user, debit.amount) && credit.user in db.wallets
  }

  function SettleTransfer(db: Db, i: TxId, j: TxId): Db
    requires PendingTransfer(db.rows, i, j)
  {
    var debit, credit := db.rows[i], db.rows[j];
    if CanTransfer(db, debit, credit)
    then PostEntry(BookRow(BookRow(db, i), j), TransferMovement(debit, credit, i, db.clock))
    else FailBoth(db, i, j)
  }

  // ---------- Reversals ----------

  predicate HasDeposit(deposits: seq<Deposit>, i: TxId) {
    exists d :: 0 <= d < |deposits| && deposits[d].transactionId == Some(i)
  }

  predicate HasWithdrawal(withdrawals: seq<Withdrawal>, i: TxId) {
    exists w :: 0 <= w < |withdrawals| && withdrawals[w].debitTransactionId == i
  }

  predicate LiveReversal(rows: seq<Transaction>, p: int, i: TxId) {
    0 <= p < |rows| && rows[p].reversalOf == Some(i) && rows[p].status != TxStatus.Failed
  }

  /** The checks of reverseTransaction. */
  predicate Reversible(db: Db, i: TxId, u: UserId) {
    && i < |db.rows|
    && db.rows[i].user == u
    && db.rows[i].reversalOf.None?
    && db.rows[i].status == TxStatus.Successful
    && !HasDeposit(db.deposits, i)
    && !HasWithdrawal(db.withdrawals, i)
    && !exists p :: 0 <= p < |db.rows| && LiveReversal(db.rows, p, i)
  }

  function UndoOf(row: Transaction): Origin {
    Origin.ReversalRow(row.origin.BeforeLedger?)
  }

  function BeginSingleReversal(db: Db, i: TxId): Db
    requires i < |db.rows|
  {
    var row := db.rows[i];
    AddRow(db, NewRow(db, row.user, Opposite(row.kind), row.amount, None, Some(i), UndoOf(row)))
  }

  /** `j` is the row the unordered lookup of a CREDIT with the same transfer id returned. */
  function BeginTransferReversal(db: Db, i: TxId, j: TxId): Db
    requires i < |db.rows| && j < |db.rows|
  {
    var mine, theirs := db.rows[i], db.rows[j];
    if theirs.status != TxStatus.Successful then db
    else
      var one := AddRow(db, NewRow(db, mine.user, Credit, mine.amount, mine.transferId, Some(i), UndoOf(mine)));
      AddRow(one, NewRow(db, theirs.user, Debit, theirs.amount, theirs.transferId, Some(j), UndoOf(theirs)))
  }

  predicate PairedLeg(rows: seq<Transaction>, i: TxId, j: TxId) {
    i < |rows| && j < |rows| && rows[j].transferId == rows[i].transferId && rows[j].kind == Credit
  }

  predicate PendingReversal(rows: seq<Transaction>, p: TxId) {
    && p < |rows|
    && rows[p].status == TxStatus.Pending
    && rows[p].reversalOf.Some?
    && rows[p].reversalOf.value < |rows|
  }

  /** Undoes the original's entry, or posts against opening balances when it predates the ledger. */
  function SingleReversalEntry(journal: seq<Entry>, row: Transaction, p: TxId, at: int): Entry
    requires row.reversalOf.Some?
  {
    var found := FindByTransaction(journal, row.reversalOf.value);
    if found.Some? then Mirror(journal[found.value], Some(p), at)
    else if row.kind == Credit
    then Movement(ReversalEntry, row.amount, OpeningBalances, Wallet(row.user), None, Some(p), at)
    else Movement(ReversalEntry, row.amount, Wallet(row.user), OpeningBalances, None, Some(p), at)
  }

  function SettleSingleReversal(db: Db, p: TxId): Db
    requires PendingReversal(db.rows, p)
  {
    var row := db.rows[p];
    if CanBook(db, row)
    then
      PostEntry(SetStatus(BookRow(db, p), row.reversalOf.value, TxStatus.Reversed),
                SingleReversalEntry(db.journal, row, p, db.clock))
    else SetStatus(db, p, TxStatus.Failed)
  }

  predicate PendingTransferReversal(rows: seq<Transaction>, p: TxId, q: TxId) {
    && PendingReversal(rows, p) && PendingReversal(rows, q)
    && rows[p].kind == Credit && rows[q].kind == Debit
    && rows[p].transferId.Some? && rows[p].transferId == rows[q].transferId
  }

  function TransferReversalEntry(journal: seq<Entry>, back: Transaction, out: Transaction, p: TxId, at: int): Entry
    requires back.transferId.Some?
  {
    var t := back.transferId.value;
    var found := FindByTransfer(journal, t);
    if found.Some? then Mirror(journal[found.value], Some(p), at)
    else Movement(ReversalEntry, back.amount, Wallet(out.user), Wallet(back.user), Some(TransferRef(t)), Some(p), at)
  }

  /** `p` gives the sender the money back, `q` takes it from the receiver. */
  function SettleTransferReversal(db: Db, p: TxId, q: TxId): Db
    requires PendingTransferReversal(db.rows, p, q)
  {
    var back, out := db.rows[p], db.rows[q];
    if back.user in db.wallets && CanBook(db, out)
    then
      var booked := BookRow(BookRow(db, p), q);
      var marked := SetStatus(SetStatus(booked, back.reversalOf.value, TxStatus.Reversed), out.reversalOf.value, TxStatus.Reversed);
      PostEntry(marked, TransferReversalEntry(db.journal, back, out, p, db.clock))
    else FailBoth(db, p, q)
  }

  // ---------- Deposits ----------

  /** Recorded before Paystack is asked for a checkout link. */
  function CreateDeposit(db: Db, u: UserId, amount: Amount): Db {
    if !CanReceive(db, u, amount) then db
    else db.(deposits := db.deposits + [Deposit(u, amount, DepositStatus.Pending, None, db.clock)])
  }

  /** `PaymentUnreachable`: the call to Paystack failed, and confirming throws. */
  datatype PaymentStatus = PaidUp | PaymentFailed | PaymentReversed | PaymentOpen | PaymentUnreachable

  /** Paystack's Verify answer: status, reference, amount in kobo, and whether the currency is ours. */
  datatype Payment = Payment(status: PaymentStatus, reference: nat, amount: int, inNaira: bool)

  predicate Matches(db: Db, d: nat, payment: Payment)
    requires d < |db.deposits|
  {
    payment.reference == d && payment.amount == db.deposits[d].amount && payment.inNaira
  }

  function SetDeposit(db: Db, d: nat, status: DepositStatus): Db
    requires d < |db.deposits|
  {
    db.(deposits := db.deposits[d := db.deposits[d].(status := status)])
  }

  /** No checkout link: the catch block writes FAILED, whatever the status is by then. */
  function FailStart(db: Db, d: nat): Db
    requires d < |db.deposits|
  {
    SetDeposit(db, d, DepositStatus.Failed)
  }

  function DepositMovement(dep: Deposit, d: nat, i: TxId, at: int): Entry {
    Movement(DepositEntry, dep.amount, PaystackClearing, Wallet(dep.user), Some(DepositRef(d)), Some(i), at)
  }

  /** Claims a PENDING deposit and credits its wallet; anything else is left alone. */
  function SettleDeposit(db: Db, d: nat): Db
    requires d < |db.deposits|
  {
    var dep := db.deposits[d];
    if dep.status != DepositStatus.Pending || dep.user !in db.wallets then db
    else
      var i := |db.rows|;
      var credited := BookRow(AddRow(db, NewRow(db, dep.user, Credit, dep.amount, None, None, Origin.DepositCredit(d))), i);
      var claimed := credited.(deposits := db.deposits[d := dep.(status := DepositStatus.Successful, transactionId := Some(i))]);
      PostEntry(claimed, DepositMovement(dep, d, i, db.clock))
  }

  function FailDeposit(db: Db, d: nat): Db
    requires d < |db.deposits|
  {
    if db.deposits[d].status != DepositStatus.Pending then db else SetDeposit(db, d, DepositStatus.Failed)
  }

  function ConfirmDeposit(db: Db, d: nat, payment: Payment): Db
    requires d < |db.deposits|
  {
    match payment.status
    case PaidUp => if Matches(db, d, payment) then SettleDeposit(db, d) else FailDeposit(db, d)
    case PaymentFailed => FailDeposit(db, d)
    case PaymentReversed => FailDeposit(db, d)
    case PaymentOpen => db
    case PaymentUnreachable => db
  }

  function AbandonDeposit(db: Db, d: nat): Db
    requires d < |db.deposits|
  {
    if db.deposits[d].status != DepositStatus.Pending then db else SetDeposit(db, d, DepositStatus.Abandoned)
  }

  // ---------- Withdrawals ----------

  function WithdrawalMovement(u: UserId, amount: Amount, w: nat, i: TxId, at: int): Entry {
    Movement(WithdrawalEntry, amount, Wallet(u), PayoutsInTransit, Some(WithdrawalRef(w)), Some(i), at)
  }

  predicate CanWithdraw(db: Db, u: UserId, amount: Amount) {
    u in db.wallets && amount <= db.wallets[u] && CanSend(db, u, amount)
  }

  function CreateWithdrawal(db: Db, u: UserId, amount: Amount): Db {
    if !CanWithdraw(db, u, amount) then db
    else
      var i, w := |db.rows|, |db.withdrawals|;
      var debited := BookRow(AddRow(db, NewRow(db, u, Debit, amount, None, None, Origin.WithdrawalDebit(w))), i);
      var created := debited.(withdrawals := db.withdrawals + [Withdrawal(u, amount, WithdrawalStatus.Processing, i, None, db.clock)]);
      PostEntry(created, WithdrawalMovement(u, amount, w, i, db.clock))
  }

  /** The bank has the money. */
  function MarkSuccessful(db: Db, w: nat): Db
    requires w < |db.withdrawals|
  {
    var wd := db.withdrawals[w];
    if wd.status != WithdrawalStatus.Processing then db
    else
      PostEntry(db.(withdrawals := db.withdrawals[w := wd.(status := WithdrawalStatus.Successful)]),
                Movement(WithdrawalPaid, wd.amount, PayoutsInTransit, PaystackClearing,
                         Some(WithdrawalRef(w)), Some(wd.debitTransactionId), db.clock))
  }

  predicate Claimable(status: WithdrawalStatus, outcome: WithdrawalStatus) {
    status == WithdrawalStatus.Processing || (outcome == WithdrawalStatus.Reversed && status == WithdrawalStatus.Successful)
  }

  /** A payout that had been paid comes back through Paystack, any other one is still in transit. */
  function RefundedFrom(read: WithdrawalStatus): Account {
    if read == WithdrawalStatus.Successful then PaystackClearing else PayoutsInTransit
  }

  function RefundMovement(wd: Withdrawal, read: WithdrawalStatus, w: nat, r: TxId, at: int): Entry {
    Movement(WithdrawalRefund, wd.amount, RefundedFrom(read), Wallet(wd.user), Some(WithdrawalRef(w)), Some(r), at)
  }

  /** The refund's claim and everything after it; `read` is the status its transaction read first. */
  function RefundWithRead(db: Db, w: nat, outcome: WithdrawalStatus, read: WithdrawalStatus): Db
    requires w < |db.withdrawals| && db.withdrawals[w].debitTransactionId < |db.rows|
  {
    var wd := db.withdrawals[w];
    if !Claimable(wd.status, outcome) || wd.user !in db.wallets then db
    else
      var r := |db.rows|;
      var marked := SetStatus(db, wd.debitTransactionId, TxStatus.Reversed);
      var row := NewRow(db, wd.user, Credit, wd.amount, None, Some(wd.debitTransactionId), Origin.RefundCredit(w));
      var credited := BookRow(AddRow(marked, row), r);
      var claimed := credited.(withdrawals := db.withdrawals[w := wd.(status := outcome, refundTransactionId := Some(r))]);
      PostEntry(claimed, RefundMovement(wd, read, w, r, db.clock))
  }

  /** A refund in one step: nobody changes the status between its read and its claim. */
  function RefundWithdrawal(db: Db, w: nat, outcome: WithdrawalStatus): Db
    requires w < |db.withdrawals| && db.withdrawals[w].debitTransactionId < |db.rows|
  {
    RefundWithRead(db, w, outcome, db.withdrawals[w].status)
  }

  /** Every status Paystack reports for a transfer. */
  datatype TransferStatus =
    | TransferSuccess
    | TransferReversed
    | TransferFailed
    | TransferAbandoned
    | TransferBlocked
    | TransferRejected
    | TransferOtp
    | TransferUnderway

  function ApplyTransferStatus(db: Db, w: nat, status: TransferStatus): Db
    requires w < |db.withdrawals| && db.withdrawals[w].debitTransactionId < |db.rows|
  {
    match status
    case TransferSuccess => MarkSuccessful(db, w)
    case TransferReversed => RefundWithdrawal(db, w, WithdrawalStatus.Reversed)
    case TransferFailed => RefundWithdrawal(db, w, WithdrawalStatus.Failed)
    case TransferAbandoned => RefundWithdrawal(db, w, WithdrawalStatus.Failed)
    case TransferBlocked => RefundWithdrawal(db, w, WithdrawalStatus.Failed)
    case TransferRejected => RefundWithdrawal(db, w, WithdrawalStatus.Failed)
    case TransferOtp => RefundWithdrawal(db, w, WithdrawalStatus.Failed)
    case TransferUnderway => db
  }

  /** What a call to Paystack about a transfer can tell us. */
  datatype TransferAnswer =
    | Reported(status: TransferStatus)
    | Missing
    | Refused4xx
    | NoAnswer

  /** sendTransfer's reading of Paystack's reply to a new transfer. */
  function SendTransfer(db: Db, w: nat, answer: TransferAnswer): Db
    requires w < |db.withdrawals| && db.withdrawals[w].debitTransactionId < |db.rows|
  {
    match answer
    case Reported(status) => ApplyTransferStatus(db, w, status)
    case Refused4xx => RefundWithdrawal(db, w, WithdrawalStatus.Failed)
    case Missing => db
    case NoAnswer => db
  }

  const MISSING_TRANSFER_GRACE_MS: int := 10 * 60 * 1000

  /** A transfer Paystack does not know is only given up on after this long. */
  predicate PastGrace(db: Db, w: nat)
    requires w < |db.withdrawals|
  {
    MISSING_TRANSFER_GRACE_MS < db.clock - db.withdrawals[w].createdAt
  }

  function ConfirmWithdrawal(db: Db, w: nat, answer: TransferAnswer): Db
    requires w < |db.withdrawals| && db.withdrawals[w].debitTransactionId < |db.rows|
  {
    var status := db.withdrawals[w].status;
    if status != WithdrawalStatus.Processing && status != WithdrawalStatus.Successful then db
    else
      match answer
      case Missing =>
        if status == WithdrawalStatus.Processing && PastGrace(db, w) then RefundWithdrawal(db, w, WithdrawalStatus.Failed) else db
      case Reported(s) =>
        if status == WithdrawalStatus.Processing || s == TransferReversed then ApplyTransferStatus(db, w, s) else db
      case Refused4xx => db
      case NoAnswer => db
  }

  // ---------- Adjustments ----------

  const APPROVAL_THRESHOLD: int := 1_000_000
  const MAX_ADJUSTMENT: int := 1_000_000_000

  predicate ValidRequest(db: Db, admin: UserId, u: UserId, direction: TxType, kind: AdjustmentKind, amount: int) {
    && u != admin
    && (direction == Debit ==> kind == Correction)
    && 0 < amount <= MAX_ADJUSTMENT
    && u in db.tiers
  }

  function RequestAdjustment(db: Db, admin: UserId, u: UserId, direction: TxType, kind: AdjustmentKind, amount: int): Db {
    if !ValidRequest(db, admin, u, direction, kind, amount) then db
    else
      db.(adjustments := db.adjustments +
            [Adjustment(u, direction, kind, amount, AdjustmentStatus.Pending, admin, None, None)])
  }

  function AdjustmentMovement(adj: Adjustment, a: nat, i: TxId, at: int): Entry {
    if adj.direction == Credit
    then Movement(AdjustmentEntry, adj.amount, Adjustments, Wallet(adj.user), Some(AdjustmentRef(a)), Some(i), at)
    else Movement(AdjustmentEntry, adj.amount, Wallet(adj.user), Adjustments, Some(AdjustmentRef(a)), Some(i), at)
  }

  predicate CanApply(db: Db, a: nat) {
    && a < |db.adjustments|
    && var adj := db.adjustments[a];
       && adj.status == AdjustmentStatus.Pending
       && adj.user in db.wallets
       && (adj.direction == Debit ==> adj.amount <= db.wallets[adj.user])
  }

  function ApplyAdjustment(db: Db, a: nat, approver: UserId): Db
    requires a < |db.adjustments|
  {
    if !CanApply(db, a) then db
    else
      var adj, i := db.adjustments[a], |db.rows|;
      var booked := BookRow(AddRow(db, NewRow(db, adj.user, adj.direction, adj.amount, None, None, Origin.AdjustmentRow(a))), i);
      var decided := booked.(adjustments := db.adjustments[a := adj.(status := AdjustmentStatus.Approved,
                                                                     decidedBy := Some(approver), transactionId := Some(i))]);
      PostEntry(decided, AdjustmentMovement(adj, a, i, db.clock))
  }

  function RejectAdjustment(db: Db, a: nat, admin: UserId): Db
    requires a < |db.adjustments|
  {
    if db.adjustments[a].status != AdjustmentStatus.Pending then db
    else
      db.(adjustments := db.adjustments[a := db.adjustments[a].(status := AdjustmentStatus.Rejected, decidedBy := Some(admin))])
  }

  /** A request up to the threshold is applied at once by its requester, or rejected if that fails. */
  function ApplySmallAdjustment(db: Db, a: nat): Db
    requires a < |db.adjustments|
  {
    var adj := db.adjustments[a];
    if APPROVAL_THRESHOLD < adj.amount then db
    else if CanApply(db, a) then ApplyAdjustment(db, a, adj.requestedBy)
    else RejectAdjustment(db, a, adj.requestedBy)
  }

  predicate HasSecondApprover(db: Db, admin: UserId) {
    exists v :: v in db.approvers && v != admin
  }

  function ApproveAdjustment(db: Db, a: nat, admin: UserId): Db
    requires a < |db.adjustments|
  {
    if db.adjustments[a].requestedBy == admin && HasSecondApprover(db, admin) then db
    else ApplyAdjustment(db, a, admin)
  }
}
