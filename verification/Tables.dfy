/**
 * The tables of the money engine. Money is a whole number of kobo. A row's id is its position in
 * its table, so a freshly drawn id is the table's length.
 */
module Tables {
  import opened Basics

  type UserId = nat
  type TxId = nat
  type Amount = n: int | 0 < n witness 1

  datatype TxType = Credit | Debit
  datatype TxStatus = Pending | Successful | Failed | Reversed

  /**
   * Which request wrote a transaction row. A history variable: the invariants speak about it,
   * and no branch of any step reads it.
   */
  datatype Origin =
    | BeforeLedger
    | Direct
    | TransferLeg
    | ReversalRow(ofHistory: bool)
    | DepositCredit(deposit: nat)
    | WithdrawalDebit(withdrawal: nat)
    | RefundCredit(withdrawal: nat)
    | AdjustmentRow(adjustment: nat)

  datatype Transaction = Transaction(
    user: UserId,
    kind: TxType,
    status: TxStatus,
    amount: Amount,
    balanceBefore: int,
    balanceAfter: int,
    transferId: Option<nat>,
    reversalOf: Option<TxId>,
    timestamp: int,
    origin: Origin)

  datatype Account =
    | Wallet(user: UserId)
    | PaystackClearing
    | PayoutsInTransit
    | Adjustments
    | DevFunding
    | OpeningBalances

  /** Signed: a debit is positive, a credit negative. */
  datatype Line = Line(account: Account, amount: int)

  datatype EntryType =
    | OpeningBalance
    | DepositEntry
    | TransferEntry
    | WithdrawalEntry
    | WithdrawalPaid
    | WithdrawalRefund
    | ReversalEntry
    | AdjustmentEntry
    | DirectFunding

  datatype Reference =
    | DepositRef(id: nat)
    | WithdrawalRef(id: nat)
    | TransferRef(id: nat)
    | AdjustmentRef(id: nat)

  datatype Entry = Entry(
    kind: EntryType,
    reference: Option<Reference>,
    transactionId: Option<TxId>,
    lines: seq<Line>,
    createdAt: int)

  datatype DepositStatus = Pending | Successful | Failed | Abandoned

  datatype Deposit = Deposit(
    user: UserId,
    amount: Amount,
    status: DepositStatus,
    transactionId: Option<TxId>,
    createdAt: int)

  datatype WithdrawalStatus = Processing | Successful | Failed | Reversed

  datatype Withdrawal = Withdrawal(
    user: UserId,
    amount: Amount,
    status: WithdrawalStatus,
    debitTransactionId: TxId,
    refundTransactionId: Option<TxId>,
    createdAt: int)

  datatype AdjustmentKind = Refund | Goodwill | Correction
  datatype AdjustmentStatus = Pending | Approved | Rejected

  datatype Adjustment = Adjustment(
    user: UserId,
    direction: TxType,
    kind: AdjustmentKind,
    amount: Amount,
    status: AdjustmentStatus,
    requestedBy: UserId,
    decidedBy: Option<UserId>,
    transactionId: Option<TxId>)

  datatype Tier = Tier1 | Tier2

  /**
   * One database state. `commits` is a history variable: the ids of settled rows in the order they
   * were settled since the ledger started at `ledgerStart`. `approvers` is the set of unfrozen
   * FINANCE and OWNER users, and `transfers` counts the transfer ids drawn so far.
   */
  datatype Db = Db(
    wallets: map<UserId, int>,
    rows: seq<Transaction>,
    journal: seq<Entry>,
    deposits: seq<Deposit>,
    withdrawals: seq<Withdrawal>,
    adjustments: seq<Adjustment>,
    tiers: map<UserId, Tier>,
    approvers: set<UserId>,
    transfers: nat,
    commits: seq<TxId>,
    ledgerStart: int,
    clock: int)

  function Signed(t: Transaction): int {
    if t.kind == Credit then t.amount else -(t.amount as int)
  }

  /** The statuses a balance is computed from. */
  predicate Settled(t: Transaction) {
    t.status == TxStatus.Successful || t.status == TxStatus.Reversed
  }

  function Opposite(k: TxType): TxType {
    if k == Credit then Debit else Credit
  }
}
