/** The money engine as one state machine, and the invariant of all its runs. */
module Runs {
  import opened Basics
  import opened Tables
  import opened Ledger
  import opened Steps
  import opened Invariants
  import opened RowProofs
  import opened LinkProofs
  import opened JournalProofs
  import opened BalanceProofs
  import opened AccountProofs
  import opened ReversalAccounts

  /** Movements between wallets, and their undoing. */
  datatype WalletAction =
    | DirectBegun(u: UserId, kind: TxType, amount: Amount)
    | DirectSettled(i: TxId)
    | RequestGivenUp(i: TxId)
    | TransferBegun(sender: UserId, receiver: UserId, amount: Amount)
    | TransferSettled(i: TxId)
    | TransferGivenUp(i: TxId)
    | ReversalBegun(i: TxId, u: UserId, found: TxId)
    | ReversalSettled(p: TxId)
    | TransferReversalSettled(p: TxId)
    | TransferReversalGivenUp(p: TxId)

  /** Movements through Paystack, with its answers as parameters. */
  datatype PaymentAction =
    | DepositCreated(u: UserId, amount: Amount)
    | DepositConfirmed(d: nat, payment: Payment)
    | DepositAbandoned(d: nat)
    | WithdrawalCreated(u: UserId, amount: Amount)
    | PayoutSent(w: nat, answer: TransferAnswer)
    | WithdrawalConfirmed(w: nat, answer: TransferAnswer)

  /** What staff do, and what goes on around the engine. */
  datatype StaffAction =
    | AdjustmentRequested(admin: UserId, u: UserId, direction: TxType, kind: AdjustmentKind, amount: int)
    | SmallAdjustmentApplied(a: nat)
    | AdjustmentApproved(a: nat, admin: UserId)
    | AdjustmentRejected(a: nat, admin: UserId)
    | AccountOpened(u: UserId)
    | TierSet(u: UserId, tier: Tier)
    | ApproversSet(approvers: set<UserId>)
    | ClockAdvanced(ms: nat)

  /** Everything that can happen to the database. */
  datatype Action = OfWallet(wallet: WalletAction) | OfPayment(payment: PaymentAction) | OfStaff(staff: StaffAction)

  predicate HasPayout(db: Db, w: nat) {
    w < |db.withdrawals| && db.withdrawals[w].debitTransactionId < |db.rows|
  }

  /**
   * A request whose rows do not exist does nothing. The two rows a transfer or its reversal writes
   * are neighbours, and a transfer is reversed from its DEBIT leg.
   */
  function ApplyWallet(db: Db, action: WalletAction): Db {
    match action
    case DirectBegun(u, kind, amount) => BeginDirect(db, u, kind, amount)
    case DirectSettled(i) => if PendingDirect(db.rows, i) then SettleDirect(db, i) else db
    case RequestGivenUp(i) =>
      if i < |db.rows| && db.rows[i].status == TxStatus.Pending && db.rows[i].transferId.None? then SetStatus(db, i, TxStatus.Failed) else db
    case TransferBegun(sender, receiver, amount) => BeginTransfer(db, sender, receiver, amount)
    case TransferSettled(i) => if PendingTransfer(db.rows, i, i + 1) then SettleTransfer(db, i, i + 1) else db
    case TransferGivenUp(i) => if PendingTransfer(db.rows, i, i + 1) then FailBoth(db, i, i + 1) else db
    case ReversalBegun(i, u, found) =>
      if !Reversible(db, i, u) then db
      else if db.rows[i].transferId.None? then BeginSingleReversal(db, i)
      else if db.rows[i].kind == Debit && PairedLeg(db.rows, i, found) then BeginTransferReversal(db, i, found)
      else db
    case ReversalSettled(p) =>
      if PendingReversal(db.rows, p) && db.rows[p].transferId.None? then SettleSingleReversal(db, p) else db
    case TransferReversalSettled(p) =>
      if PendingTransferReversal(db.rows, p, p + 1) then SettleTransferReversal(db, p, p + 1) else db
    case TransferReversalGivenUp(p) =>
      if PendingTransferReversal(db.rows, p, p + 1) then FailBoth(db, p, p + 1) else db
  }

  function ApplyPayment(db: Db, action: PaymentAction): Db {
    match action
    case DepositCreated(u, amount) => CreateDeposit(db, u, amount)
    case DepositConfirmed(d, payment) => if d < |db.deposits| then ConfirmDeposit(db, d, payment) else db
    case DepositAbandoned(d) => if d < |db.deposits| then AbandonDeposit(db, d) else db
    case WithdrawalCreated(u, amount) => CreateWithdrawal(db, u, amount)
    case PayoutSent(w, answer) => if HasPayout(db, w) then SendTransfer(db, w, answer) else db
    case WithdrawalConfirmed(w, answer) => if HasPayout(db, w) then ConfirmWithdrawal(db, w, answer) else db
  }

  function ApplyStaff(db: Db, action: StaffAction): Db {
    match action
    case AdjustmentRequested(admin, u, direction, kind, amount) => RequestAdjustment(db, admin, u, direction, kind, amount)
    case SmallAdjustmentApplied(a) => if a < |db.adjustments| then ApplySmallAdjustment(db, a) else db
    case AdjustmentApproved(a, admin) => if a < |db.adjustments| then ApproveAdjustment(db, a, admin) else db
    case AdjustmentRejected(a, admin) => if a < |db.adjustments| then RejectAdjustment(db, a, admin) else db
    case AccountOpened(u) => OpenAccount(db, u)
    case TierSet(u, tier) => if u in db.tiers then db.(tiers := db.tiers[u := tier]) else db
    case ApproversSet(approvers) => db.(approvers := approvers)
    case ClockAdvanced(ms) => db.(clock := db.clock + ms)
  }

  function Apply(db: Db, action: Action): Db {
    match action
    case OfWallet(w) => ApplyWallet(db, w)
    case OfPayment(p) => ApplyPayment(db, p)
    case OfStaff(s) => ApplyStaff(db, s)
  }

  function Run(db: Db, actions: seq<Action>): Db {
    if actions == [] then db
    else Apply(Run(db, actions[..|actions| - 1]), actions[|actions| - 1])
  }

  /** What one step promises: the invariant, rows that only move forward, and unmoved account gaps. */
  ghost predicate GoodStep(db: Db, db': Db) {
    Inv(db') && RowsEvolve(db.rows, db'.rows) && SameGaps(db, db')
  }

  // ---------- Assembling the invariant ----------

  lemma LedgerFollowsGaps(db: Db, db': Db)
    requires BalancedByLedger(db) && SameGaps(db, db')
    ensures BalancedByLedger(db')
  {
    forall u: UserId ensures Stored(db'.wallets, u) == WalletLedgerBalance(db'.journal, u) {
      assert Stored(db.wallets, u) == WalletLedgerBalance(db.journal, u);
      assert Gap(db', Wallet(u)) == Gap(db, Wallet(u));
    }
  }

  /** The pieces of the invariant other than the ledger's balances, which follow from the gaps. */
  lemma Assemble(db: Db, db': Db)
    requires BalancedByLedger(db) && SameGaps(db, db')
    requires RowsOk(db') && ReversedOnce(db'.rows) && TransfersPaired(db'.rows) && ReversalsPaired(db'.rows)
    requires Linked(db') && Posted(db') && Balances(db')
    requires RowsEvolve(db.rows, db'.rows)
    ensures GoodStep(db, db')
  {
    LedgerFollowsGaps(db, db');
  }

  lemma PairsStand(rows: seq<Transaction>, rows': seq<Transaction>)
    requires ReversalsPaired(rows) && RowsEvolve(rows, rows')
    requires forall i :: 0 <= i < |rows| && PairRow(rows[i]) ==> rows'[i].status == rows[i].status
    requires forall i :: |rows| <= i < |rows'| ==> !PairRow(rows'[i])
    ensures ReversalsPaired(rows')
  {
    forall p | 0 <= p < |rows'| && PairRow(rows'[p]) && rows'[p].kind == Credit
      ensures p + 1 < |rows'| && Partners(rows'[p], rows'[p + 1])
    {
      assert RowStep(rows[p], rows'[p]);
      assert RowStep(rows[p + 1], rows'[p + 1]);
    }
    forall q | 0 <= q < |rows'| && PairRow(rows'[q]) && rows'[q].kind == Debit
      ensures 1 <= q && Partners(rows'[q - 1], rows'[q])
    {
      assert RowStep(rows[q], rows'[q]);
      assert RowStep(rows[q - 1], rows'[q - 1]);
    }
  }

  /** A step that moves no money, writes no row and posts nothing. */
  lemma TablesOnly(db: Db, db': Db)
    requires Inv(db) && Linked(db') && SameGaps(db, db')
    requires db'.rows == db.rows && db'.journal == db.journal && db'.commits == db.commits
    requires db'.ledgerStart == db.ledgerStart && db.clock <= db'.clock && db.transfers <= db'.transfers
    requires forall u: UserId :: Stored(db'.wallets, u) == Stored(db.wallets, u)
    requires forall u :: u in db'.wallets ==> 0 <= db'.wallets[u]
    ensures GoodStep(db, db')
  {
    RowsStayOk(db, db');
    forall u: UserId
      ensures Stored(db'.wallets, u) == OpeningAmount(db'.journal, u) + SumBy(db'.rows, NetOf(u, Since(db'.journal, u)))
    {
      assert Stored(db.wallets, u) == OpeningAmount(db.journal, u) + SumBy(db.rows, NetOf(u, Since(db.journal, u)));
    }
    forall u: UserId
      ensures Chained(db'.rows, db'.commits, u, OpeningAmount(db'.journal, u))
      ensures ChainEnd(db'.rows, db'.commits, u, OpeningAmount(db'.journal, u)) == Stored(db'.wallets, u)
    {
      assert Stored(db.wallets, u) == Stored(db'.wallets, u);
    }
    Assemble(db, db');
  }

  lemma OpenAccountStep(db: Db, u: UserId)
    requires Inv(db)
    ensures GoodStep(db, OpenAccount(db, u))
  {
    hide ReversedOnce, TransfersPaired, ReversalsPaired, Posted, CommitsComplete, BalancesChained, BalancedByLedger;
    var db' := OpenAccount(db, u);
    forall a: Account ensures Gap(db', a) == Gap(db, a) {
    }
    TablesOnly(db, db');
  }

  // ---------- Pending rows ----------

  lemma BeginDirectStep(db: Db, u: UserId, kind: TxType, amount: Amount)
    requires Inv(db)
    ensures GoodStep(db, BeginDirect(db, u, kind, amount))
  {
    hide RowsOk, ReversedOnce, TransfersPaired, ReversalsPaired, Linked, Posted, Balances, BalancedByLedger;
    var db' := BeginDirect(db, u, kind, amount);
    var row := db'.rows[|db.rows|];
    AddRowKeepsRows(db, row);
    AddRowKeepsTransfers(db.rows, row);
    PairsStand(db.rows, db'.rows);
    PaymentsLeft(db, db');
    NothingPosted(db, db');
    AddRowBalances(db, row);
    forall a: Account ensures Gap(db', a) == Gap(db, a) {
      AddRowExpected(db, row, a);
    }
    Assemble(db, db');
  }

  /** Two pending rows written together, whatever they are. */
  lemma AddTwoBalances(db: Db, db': Db, one: Transaction, two: Transaction)
    requires Balances(db) && one.status == TxStatus.Pending && two.status == TxStatus.Pending
    requires db'.rows == db.rows + [one] + [two] && db'.wallets == db.wallets && db'.journal == db.journal && db'.commits == db.commits
    requires db'.deposits == db.deposits && db'.withdrawals == db.withdrawals
    ensures Balances(db') && SameGaps(db, db')
  {
    var mid := AddRow(db, one);
    AddRowBalances(db, one);
    AddRowBalances(mid, two);
    SameBalances(AddRow(mid, two), db');
    forall a: Account ensures Gap(db', a) == Gap(db, a) {
      AddRowExpected(db, one, a);
      AddRowExpected(mid, two, a);
    }
  }

  predicate PendingPair(db: Db, one: Transaction, two: Transaction) {
    && one.status == TxStatus.Pending && two.status == TxStatus.Pending
    && (one.origin.TransferLeg? || one.origin.ReversalRow?) && (two.origin.TransferLeg? || two.origin.ReversalRow?)
    && (one.reversalOf.Some? ==> Unlinked(db, one.reversalOf.value))
    && (two.reversalOf.Some? ==> Unlinked(db, two.reversalOf.value))
    && (Leg(one) ==> one.transferId == Some(db.transfers)) && (Leg(two) ==> two.transferId == Some(db.transfers))
  }

  lemma AddTwoLinks(db: Db, db': Db, one: Transaction, two: Transaction)
    requires RowsOk(db) && Linked(db) && Posted(db) && PendingPair(db, one, two)
    requires db'.rows == db.rows + [one] + [two] && db'.journal == db.journal && db'.ledgerStart == db.ledgerStart
    requires db'.deposits == db.deposits && db'.withdrawals == db.withdrawals && db'.adjustments == db.adjustments
    ensures Linked(db') && Posted(db')
  {
    assert forall i :: 0 <= i < |db.rows| ==> db'.rows[i] == db.rows[i];
    PaymentsLeft(db, db');
    NothingPosted(db, db');
  }

  lemma BeginTransferStep(db: Db, sender: UserId, receiver: UserId, amount: Amount)
    requires Inv(db)
    ensures GoodStep(db, BeginTransfer(db, sender, receiver, amount))
  {
    hide RowsOk, ReversedOnce, TransfersPaired, ReversalsPaired, Linked, Posted, Balances, BalancedByLedger;
    var db' := BeginTransfer(db, sender, receiver, amount);
    if db' != db {
      BeginTransferKeepsRows(db, sender, receiver, amount);
      PairsStand(db.rows, db'.rows);
      AddTwoStep(db, db', db'.rows[|db.rows|], db'.rows[|db.rows| + 1]);
    }
  }

  /** Failing a pending row that belongs to no pair. */
  lemma GiveUpStep(db: Db, i: TxId)
    requires Inv(db) && i < |db.rows| && db.rows[i].status == TxStatus.Pending && db.rows[i].transferId.None?
    ensures GoodStep(db, SetStatus(db, i, TxStatus.Failed))
  {
    hide RowsOk, ReversedOnce, TransfersPaired, ReversalsPaired, Linked, Posted, Balances, BalancedByLedger;
    var db' := SetStatus(db, i, TxStatus.Failed);
    FailKeepsRows(db, i);
    PairsStand(db.rows, db'.rows);
    PaymentsLeft(db, db');
    NothingPosted(db, db');
    SetStatusBalances(db, i, TxStatus.Failed);
    forall a: Account ensures Gap(db', a) == Gap(db, a) {
      SetStatusExpected(db, i, TxStatus.Failed, a);
    }
    Assemble(db, db');
  }

  /** A pending row's shape says which request wrote it. */
  lemma PendingOrigin(db: Db, i: TxId)
    requires RowsOk(db) && i < |db.rows| && db.rows[i].status == TxStatus.Pending
    ensures db.rows[i].reversalOf.Some? <==> db.rows[i].origin.ReversalRow?
    ensures db.rows[i].reversalOf.None? ==> if db.rows[i].transferId.None? then db.rows[i].origin.Direct? else db.rows[i].origin.TransferLeg?
  {
    assert RowOk(db.rows, i, db.transfers, db.ledgerStart, db.clock);
  }

  lemma SettleDirectStep(db: Db, i: TxId)
    requires Inv(db) && PendingDirect(db.rows, i)
    ensures GoodStep(db, SettleDirect(db, i))
  {
    hide RowsOk, ReversedOnce, TransfersPaired, ReversalsPaired, Linked, Posted, Balances, BalancedByLedger;
    var db' := SettleDirect(db, i);
    PendingOrigin(db, i);
    OpeningsAreEarly(db);
    SettleDirectKeepsRows(db, i);
    PairsStand(db.rows, db'.rows);
    PaymentsLeft(db, db');
    SettleDirectPosts(db, i);
    SettleDirectBalances(db, i);
    SettleDirectAccounts(db, i);
    Assemble(db, db');
  }

  lemma SettleTransferStep(db: Db, i: TxId, j: TxId)
    requires Inv(db) && PendingTransfer(db.rows, i, j)
    ensures GoodStep(db, SettleTransfer(db, i, j))
  {
    hide RowsOk, ReversedOnce, ReversalsPaired, Linked, Posted, Balances, BalancedByLedger;
    var db' := SettleTransfer(db, i, j);
    PendingOrigin(db, i);
    PendingOrigin(db, j);
    OpeningsAreEarly(db);
    assert Leg(db.rows[i]) && Leg(db.rows[j]);
    assert Paired(db.rows[i], db.rows[j]) || Paired(db.rows[j], db.rows[i]);
    SettleTransferKeepsRows(db, i, j);
    BothEndSame(db, db', i, j);
    PairsStand(db.rows, db'.rows);
    PaymentsLeft(db, db');
    SettleTransferPosts(db, i, j);
    SettleTransferBalances(db, i, j);
    SettleTransferAccounts(db, i, j);
    Assemble(db, db');
  }

  lemma BothEndSame(db: Db, db': Db, i: TxId, j: TxId)
    requires PendingTransfer(db.rows, i, j) && db' == SettleTransfer(db, i, j)
    ensures |db'.rows| == |db.rows| && forall x :: 0 <= x < |db.rows| && x != i && x != j ==> db'.rows[x] == db.rows[x]
    ensures db'.rows[i].status != TxStatus.Reversed && db'.rows[j].status != TxStatus.Reversed
    ensures db'.deposits == db.deposits && db'.withdrawals == db.withdrawals && db'.adjustments == db.adjustments
  {
    if CanTransfer(db, db.rows[i], db.rows[j]) {
      BothBooked(db, i, j);
    }
  }

  /** A transfer request that gives up, or the undoing of one. */
  lemma FailBothStep(db: Db, i: TxId, j: TxId)
    requires Inv(db) && i < |db.rows| && j < |db.rows| && i != j
    requires PendingTransfer(db.rows, i, j) || (j == i + 1 && PendingTransferReversal(db.rows, i, j))
    ensures GoodStep(db, FailBoth(db, i, j))
  {
    hide RowsOk, ReversedOnce, TransfersPaired, ReversalsPaired, Linked, Posted, Balances, BalancedByLedger;
    var db' := FailBoth(db, i, j);
    PendingOrigin(db, i);
    PendingOrigin(db, j);
    FailKeepsRows(db, i);
    FailKeepsRows(SetStatus(db, i, TxStatus.Failed), j);
    assert BothMoved(db.rows, db'.rows, i, j, TxStatus.Failed);
    assert RowsEvolve(db.rows, db'.rows);
    PairMovesTogether(db.rows, db'.rows, i, j, TxStatus.Failed);
    PaymentsLeft(db, db');
    NothingPosted(db, db');
    FailTwoBalances(db, i, j);
    forall a: Account ensures Gap(db', a) == Gap(db, a) {
      FailTwoAccounts(db, i, j, a);
    }
    Assemble(db, db');
  }

  /** Moving both rows of a pair, or two rows of no pair, keeps pairs together. */
  lemma PairMovesTogether(rows: seq<Transaction>, rows': seq<Transaction>, i: TxId, j: TxId, status: TxStatus)
    requires ReversalsPaired(rows) && BothMoved(rows, rows', i, j, status)
    requires (!PairRow(rows[i]) && !PairRow(rows[j])) || (j == i + 1 && PairRow(rows[i]) && PairRow(rows[j]) && rows[i].kind == Credit && rows[j].kind == Debit)
    ensures ReversalsPaired(rows')
  {
    forall p | 0 <= p < |rows'| && PairRow(rows'[p]) && rows'[p].kind == Credit
      ensures p + 1 < |rows'| && Partners(rows'[p], rows'[p + 1])
    {
      assert PairRow(rows[p]) && Partners(rows[p], rows[p + 1]);
    }
    forall q | 0 <= q < |rows'| && PairRow(rows'[q]) && rows'[q].kind == Debit
      ensures 1 <= q && Partners(rows'[q - 1], rows'[q])
    {
      assert PairRow(rows[q]) && Partners(rows[q - 1], rows[q]);
    }
  }

  // ---------- Reversals ----------

  lemma BeginSingleReversalStep(db: Db, i: TxId, u: UserId)
    requires Inv(db) && Reversible(db, i, u) && db.rows[i].transferId.None?
    ensures GoodStep(db, BeginSingleReversal(db, i))
  {
    hide RowsOk, ReversedOnce, TransfersPaired, ReversalsPaired, Linked, Posted, Balances, BalancedByLedger;
    var db' := BeginSingleReversal(db, i);
    var row := db'.rows[|db.rows|];
    AddRowKeepsRows(db, row);
    AddRowKeepsTransfers(db.rows, row);
    PairsStand(db.rows, db'.rows);
    PaymentsLeft(db, db');
    NothingPosted(db, db');
    AddRowBalances(db, row);
    forall a: Account ensures Gap(db', a) == Gap(db, a) {
      AddRowExpected(db, row, a);
    }
    Assemble(db, db');
  }

  /** The receiving leg the lookup found, while the sending leg is still standing. */
  lemma FoundLeg(db: Db, i: TxId, j: TxId, u: UserId)
    requires Inv(db) && Reversible(db, i, u) && db.rows[i].transferId.Some? && db.rows[i].kind == Debit
    requires PairedLeg(db.rows, i, j) && db.rows[j].status == TxStatus.Successful
    ensures db.rows[j].reversalOf.None? && i != j
    ensures forall q :: 0 <= q < |db.rows| ==> !LiveReversal(db.rows, q, j)
  {
    assert RowOk(db.rows, j, db.transfers, db.ledgerStart, db.clock);
    assert Leg(db.rows[i]);
    if db.rows[j].reversalOf.Some? {
      OneCreditLeg(db.rows, db.rows[j].reversalOf.value, i);
    } else {
      forall q: nat | q < |db.rows| ensures !LiveReversal(db.rows, q, j) {
        if LiveReversal(db.rows, q, j) {
          LegUndoneWithPartner(db, i, j, q);
        }
      }
    }
  }

  /** A live reversal of the receiving leg comes with one of the sending leg. */
  lemma LegUndoneWithPartner(db: Db, i: TxId, j: TxId, q: TxId)
    requires Inv(db) && i < |db.rows| && j < |db.rows| && Leg(db.rows[i]) && Leg(db.rows[j])
    requires db.rows[i].kind == Debit && db.rows[j].kind == Credit && db.rows[i].transferId == db.rows[j].transferId
    requires db.rows[j].status == TxStatus.Successful && LiveReversal(db.rows, q, j)
    ensures 1 <= q && LiveReversal(db.rows, q - 1, i)
  {
    assert RowOk(db.rows, q, db.transfers, db.ledgerStart, db.clock);
    assert db.rows[q].status == TxStatus.Pending;
    PendingOrigin(db, q);
    assert PairRow(db.rows[q]) && Partners(db.rows[q - 1], db.rows[q]);
    PendingOrigin(db, q - 1);
    assert RowOk(db.rows, q - 1, db.transfers, db.ledgerStart, db.clock);
    var o := db.rows[q - 1].reversalOf.value;
    assert Leg(db.rows[o]);
    OneCreditLeg(db.rows, o, i);
  }

  /** The gaps of a run's states are the gaps it started with. */
  lemma RunKeepsGaps(db: Db, actions: seq<Action>)
    requires Inv(db)
    ensures SameGaps(db, Run(db, actions))
  {
    hide Inv;
    RunKeepsInv(db, actions);
  }

  lemma NewPairIsPaired(rows: seq<Transaction>, back: Transaction, out: Transaction)
    requires ReversalsPaired(rows) && Partners(back, out)
    ensures ReversalsPaired(rows + [back] + [out])
  {
    var rows' := rows + [back] + [out];
    forall p | 0 <= p < |rows'| && PairRow(rows'[p]) && rows'[p].kind == Credit
      ensures p + 1 < |rows'| && Partners(rows'[p], rows'[p + 1])
    {
      if p < |rows| { assert Partners(rows[p], rows[p + 1]); }
    }
    forall q | 0 <= q < |rows'| && PairRow(rows'[q]) && rows'[q].kind == Debit
      ensures 1 <= q && Partners(rows'[q - 1], rows'[q])
    {
      if q < |rows| { assert Partners(rows[q - 1], rows[q]); }
    }
  }

  lemma BeginTransferReversalRows(db: Db, i: TxId, j: TxId, u: UserId)
    requires Inv(db) && Reversible(db, i, u) && db.rows[i].transferId.Some? && db.rows[i].kind == Debit
    requires PairedLeg(db.rows, i, j) && db.rows[j].status == TxStatus.Successful
    ensures var db' := BeginTransferReversal(db, i, j);
      && RowsOk(db') && ReversedOnce(db'.rows) && TransfersPaired(db'.rows) && ReversalsPaired(db'.rows)
      && RowsEvolve(db.rows, db'.rows)
  {
    var db' := BeginTransferReversal(db, i, j);
    FoundLeg(db, i, j, u);
    assert RowOk(db.rows, i, db.transfers, db.ledgerStart, db.clock);
    var back, out := db'.rows[|db.rows|], db'.rows[|db.rows| + 1];
    var one := AddRow(db, back);
    AddRowKeepsRows(db, back);
    AddRowKeepsTransfers(db.rows, back);
    forall q | 0 <= q < |one.rows| ensures !LiveReversal(one.rows, q, j) {
      assert q < |db.rows| ==> !LiveReversal(db.rows, q, j);
    }
    AddRowKeepsRows(one, out);
    AddRowKeepsTransfers(one.rows, out);
    NewPairIsPaired(db.rows, back, out);
  }

  lemma ReversalPairIsPending(db: Db, i: TxId, j: TxId)
    requires i < |db.rows| && j < |db.rows| && Unlinked(db, i) && Unlinked(db, j) && db.rows[j].status == TxStatus.Successful
    ensures var db' := BeginTransferReversal(db, i, j);
      && |db'.rows| == |db.rows| + 2
      && db'.rows == db.rows + [db'.rows[|db.rows|]] + [db'.rows[|db.rows| + 1]]
      && PendingPair(db, db'.rows[|db.rows|], db'.rows[|db.rows| + 1])
  {
  }

  lemma BeginTransferReversalStep(db: Db, i: TxId, j: TxId, u: UserId)
    requires Inv(db) && Reversible(db, i, u) && db.rows[i].transferId.Some? && db.rows[i].kind == Debit
    requires PairedLeg(db.rows, i, j)
    ensures GoodStep(db, BeginTransferReversal(db, i, j))
  {
    var db' := BeginTransferReversal(db, i, j);
    if db.rows[j].status != TxStatus.Successful {
      Unchanged(db);
    } else {
      BeginTransferReversalRows(db, i, j, u);
      TransferLegsUnlinked(db, i);
      TransferLegsUnlinked(db, j);
      ReversalPairIsPending(db, i, j);
      AddTwoStep(db, db', db'.rows[|db.rows|], db'.rows[|db.rows| + 1]);
    }
  }

  lemma AddTwoStep(db: Db, db': Db, one: Transaction, two: Transaction)
    requires Inv(db) && PendingPair(db, one, two)
    requires db'.rows == db.rows + [one] + [two] && db'.wallets == db.wallets && db'.journal == db.journal && db'.commits == db.commits
    requires db'.deposits == db.deposits && db'.withdrawals == db.withdrawals && db'.adjustments == db.adjustments
    requires db'.ledgerStart == db.ledgerStart
    requires RowsOk(db') && ReversedOnce(db'.rows) && TransfersPaired(db'.rows) && ReversalsPaired(db'.rows)
    requires RowsEvolve(db.rows, db'.rows)
    ensures GoodStep(db, db')
  {
    hide RowsOk, ReversedOnce, TransfersPaired, ReversalsPaired, Linked, Posted, Balances, BalancedByLedger;
    AddTwoLinks(db, db', one, two);
    AddTwoBalances(db, db', one, two);
    Assemble(db, db');
  }

  /** No payment hangs on a transfer's row. */
  lemma TransferLegsUnlinked(db: Db, i: TxId)
    requires Inv(db) && i < |db.rows| && db.rows[i].transferId.Some?
    ensures Unlinked(db, i)
  {
    assert RowOk(db.rows, i, db.transfers, db.ledgerStart, db.clock);
    forall d | 0 <= d < |db.deposits| ensures db.deposits[d].transactionId != Some(i) {
      assert DepositOk(db.rows, db.deposits, d);
    }
    forall w | 0 <= w < |db.withdrawals| ensures db.withdrawals[w].debitTransactionId != i {
      assert WithdrawalOk(db.rows, db.withdrawals, w);
    }
  }

  /** What a pending reversal undoes is no payment. */
  lemma PendingReversalUnlinked(db: Db, p: TxId)
    requires Inv(db) && PendingReversal(db.rows, p)
    ensures Unlinked(db, db.rows[p].reversalOf.value)
    ensures db.rows[db.rows[p].reversalOf.value].reversalOf.None?
    ensures db.rows[db.rows[p].reversalOf.value].status == TxStatus.Successful
  {
    assert RowOk(db.rows, p, db.transfers, db.ledgerStart, db.clock);
    var o := db.rows[p].reversalOf.value;
    forall w: nat | w < |db.withdrawals| ensures db.withdrawals[w].debitTransactionId != o {
      assert WithdrawalOk(db.rows, db.withdrawals, w);
      if db.withdrawals[w].debitTransactionId == o {
        LiveIsRefund(db, w, p);
      }
    }
  }

  lemma SettleSingleReversalStep(db: Db, p: TxId)
    requires Inv(db) && PendingReversal(db.rows, p) && db.rows[p].transferId.None?
    ensures GoodStep(db, SettleSingleReversal(db, p))
  {
    hide RowsOk, ReversedOnce, TransfersPaired, ReversalsPaired, Linked, Posted, Balances, BalancedByLedger;
    var db' := SettleSingleReversal(db, p);
    PendingOrigin(db, p);
    PendingReversalUnlinked(db, p);
    OpeningsAreEarly(db);
    SettleSingleReversalKeepsRows(db, p);
    SinglePairsStand(db, p);
    SettleSingleReversalLeaves(db, p);
    SettleSingleReversalPosts(db, p);
    SettleSingleReversalBalances(db, p);
    SettleSingleReversalAccounts(db, p);
    Assemble(db, db');
  }

  lemma SinglePairsStand(db: Db, p: TxId)
    requires RowsOk(db) && ReversalsPaired(db.rows)
    requires PendingReversal(db.rows, p) && db.rows[p].transferId.None? && db.rows[db.rows[p].reversalOf.value].reversalOf.None?
    requires RowsEvolve(db.rows, SettleSingleReversal(db, p).rows)
    ensures ReversalsPaired(SettleSingleReversal(db, p).rows)
  {
    assert RowOk(db.rows, db.rows[p].reversalOf.value, db.transfers, db.ledgerStart, db.clock);
    PairsStand(db.rows, SettleSingleReversal(db, p).rows);
  }

  lemma SettleSingleReversalLeaves(db: Db, p: TxId)
    requires Linked(db) && PendingReversal(db.rows, p)
    requires Unlinked(db, db.rows[p].reversalOf.value) && db.rows[db.rows[p].reversalOf.value].reversalOf.None?
    requires RowsEvolve(db.rows, SettleSingleReversal(db, p).rows)
    ensures Linked(SettleSingleReversal(db, p))
  {
    PaymentsLeft(db, SettleSingleReversal(db, p));
  }

  lemma SettleTransferReversalStep(db: Db, p: TxId)
    requires Inv(db) && PendingTransferReversal(db.rows, p, p + 1)
    ensures GoodStep(db, SettleTransferReversal(db, p, p + 1))
  {
    hide RowsOk, ReversedOnce, TransfersPaired, ReversalsPaired, Linked, Posted, Balances, BalancedByLedger;
    var q := p + 1;
    var db' := SettleTransferReversal(db, p, q);
    PendingOrigin(db, p);
    PendingOrigin(db, q);
    PendingReversalUnlinked(db, p);
    PendingReversalUnlinked(db, q);
    UndoneLegs(db, p, q);
    OpeningsAreEarly(db);
    SettleTransferReversalKeepsRows(db, p, q);
    TransferReversalPairs(db, p);
    SettleTransferReversalLeaves(db, p, q);
    SettleTransferReversalPosts(db, p, q);
    SettleTransferReversalBalances(db, p, q);
    SettleTransferReversalAccounts(db, p, q);
    Assemble(db, db');
  }

  lemma LegIsNoPairRow(db: Db, i: TxId)
    requires RowsOk(db) && i < |db.rows| && Leg(db.rows[i])
    ensures !PairRow(db.rows[i])
  {
    assert RowOk(db.rows, i, db.transfers, db.ledgerStart, db.clock);
  }

  lemma SettledReversalPairs(db: Db, p: TxId)
    requires RowsOk(db) && ReversedOnce(db.rows) && TransfersPaired(db.rows) && ReversalsPaired(db.rows)
    requires PendingTransferReversal(db.rows, p, p + 1) && PairRow(db.rows[p]) && PairRow(db.rows[p + 1])
    requires db.rows[p].user in db.wallets && CanBook(db, db.rows[p + 1])
    ensures ReversalsPaired(SettleTransferReversal(db, p, p + 1).rows)
  {
    hide RowsOk, ReversedOnce, TransfersPaired, ReversalsPaired, SettleTransferReversal;
    UndoneLegs(db, p, p + 1);
    LegIsNoPairRow(db, db.rows[p].reversalOf.value);
    LegIsNoPairRow(db, db.rows[p + 1].reversalOf.value);
    ReversalMoves(db, p, p + 1);
    var mid := BookRow(BookRow(db, p), p + 1);
    PairMovesTogether(db.rows, mid.rows, p, p + 1, TxStatus.Successful);
    PairMovesTogether(mid.rows, SettleTransferReversal(db, p, p + 1).rows, db.rows[p].reversalOf.value, db.rows[p + 1].reversalOf.value, TxStatus.Reversed);
  }

  lemma TransferReversalPairs(db: Db, p: TxId)
    requires RowsOk(db) && ReversedOnce(db.rows) && TransfersPaired(db.rows) && ReversalsPaired(db.rows)
    requires PendingTransferReversal(db.rows, p, p + 1) && PairRow(db.rows[p]) && PairRow(db.rows[p + 1])
    ensures ReversalsPaired(SettleTransferReversal(db, p, p + 1).rows)
  {
    var q := p + 1;
    var db' := SettleTransferReversal(db, p, q);
    if db.rows[p].user in db.wallets && CanBook(db, db.rows[q]) {
      SettledReversalPairs(db, p);
    } else {
      assert BothMoved(db.rows, db'.rows, p, q, TxStatus.Failed);
      PairMovesTogether(db.rows, db'.rows, p, q, TxStatus.Failed);
    }
  }

  lemma UndoingLeaves(db: Db, mid: seq<Transaction>, db': Db, p: TxId, q: TxId, i: TxId, j: TxId)
    requires BothMoved(db.rows, mid, p, q, TxStatus.Successful) && BothMoved(mid, db'.rows, i, j, TxStatus.Reversed)
    requires Unlinked(db, i) && db.rows[i].reversalOf.None? && Unlinked(db, j) && db.rows[j].reversalOf.None?
    requires db'.deposits == db.deposits && db'.withdrawals == db.withdrawals && db'.adjustments == db.adjustments
    requires RowsEvolve(db.rows, db'.rows)
    ensures LeavesPayments(db, db')
  {
  }

  lemma SettleTransferReversalLeaves(db: Db, p: TxId, q: TxId)
    requires Linked(db) && PendingTransferReversal(db.rows, p, q) && p != q
    requires Unlinked(db, db.rows[p].reversalOf.value) && db.rows[db.rows[p].reversalOf.value].reversalOf.None?
    requires Unlinked(db, db.rows[q].reversalOf.value) && db.rows[db.rows[q].reversalOf.value].reversalOf.None?
    requires RowsEvolve(db.rows, SettleTransferReversal(db, p, q).rows)
    ensures Linked(SettleTransferReversal(db, p, q))
  {
    hide Linked, RowsEvolve;
    var db' := SettleTransferReversal(db, p, q);
    if db.rows[p].user in db.wallets && CanBook(db, db.rows[q]) {
      var mid := BookRow(BookRow(db, p), q);
      BothBooked(db, p, q);
      assert BothMoved(mid.rows, db'.rows, db.rows[p].reversalOf.value, db.rows[q].reversalOf.value, TxStatus.Reversed);
      UndoingLeaves(db, mid.rows, db', p, q, db.rows[p].reversalOf.value, db.rows[q].reversalOf.value);
    }
    PaymentsLeft(db, db');
  }

  // ---------- Payments and adjustments ----------

  lemma ConfirmDepositStep(db: Db, d: nat, payment: Payment)
    requires Inv(db) && d < |db.deposits|
    ensures GoodStep(db, ConfirmDeposit(db, d, payment))
  {
    if payment.status == PaidUp && Matches(db, d, payment) {
      SettleDepositStep(db, d);
    } else if payment.status != PaymentOpen {
      CloseDepositStep(db, d, DepositStatus.Failed);
    } else {
      Unchanged(db);
    }
  }

  lemma Unchanged(db: Db)
    requires Inv(db)
    ensures GoodStep(db, db)
  {
  }

  lemma CloseDepositStep(db: Db, d: nat, status: DepositStatus)
    requires Inv(db) && d < |db.deposits| && (status == DepositStatus.Failed || status == DepositStatus.Abandoned)
    ensures GoodStep(db, if db.deposits[d].status != DepositStatus.Pending then db else SetDeposit(db, d, status))
  {
    if db.deposits[d].status != DepositStatus.Pending {
      Unchanged(db);
    } else {
      CloseDepositKeepsLinks(db, d, status);
      CloseDepositAccounts(db, d, status);
      TablesOnly(db, SetDeposit(db, d, status));
    }
  }

  lemma SettleDepositStep(db: Db, d: nat)
    requires Inv(db) && d < |db.deposits|
    ensures GoodStep(db, SettleDeposit(db, d))
  {
    hide ReversedOnce, TransfersPaired, ReversalsPaired, Linked, Posted, Balances, BalancedByLedger;
    var dep, db' := db.deposits[d], SettleDeposit(db, d);
    if dep.status != DepositStatus.Pending || dep.user !in db.wallets {
      Unchanged(db);
    } else {
      OpeningsAreEarly(db);
      AddMovementKeepsRows(db, NewRow(db, dep.user, Credit, dep.amount, None, None, Origin.DepositCredit(d)));
      RowsStayOk(db, db');
      PairsStand(db.rows, db'.rows);
      SettleDepositKeepsLinks(db, d);
      SettleDepositPosts(db, d);
      SettleDepositBalances(db, d);
      SettleDepositAccounts(db, d);
      Assemble(db, db');
    }
  }

  lemma CreateWithdrawalStep(db: Db, u: UserId, amount: Amount)
    requires Inv(db)
    ensures GoodStep(db, CreateWithdrawal(db, u, amount))
  {
    hide ReversedOnce, TransfersPaired, ReversalsPaired, Linked, Posted, Balances, BalancedByLedger;
    var db' := CreateWithdrawal(db, u, amount);
    if !CanWithdraw(db, u, amount) {
      Unchanged(db);
    } else {
      OpeningsAreEarly(db);
      AddMovementKeepsRows(db, NewRow(db, u, Debit, amount, None, None, Origin.WithdrawalDebit(|db.withdrawals|)));
      RowsStayOk(db, db');
      PairsStand(db.rows, db'.rows);
      CreateWithdrawalKeepsLinks(db, u, amount);
      CreateWithdrawalPosts(db, u, amount);
      CreateWithdrawalBalances(db, u, amount);
      CreateWithdrawalAccounts(db, u, amount);
      Assemble(db, db');
    }
  }

  lemma ApplyAdjustmentStep(db: Db, a: nat, approver: UserId)
    requires Inv(db) && a < |db.adjustments|
    ensures GoodStep(db, ApplyAdjustment(db, a, approver))
  {
    hide ReversedOnce, TransfersPaired, ReversalsPaired, Linked, Posted, Balances, BalancedByLedger;
    var db' := ApplyAdjustment(db, a, approver);
    if !CanApply(db, a) {
      Unchanged(db);
    } else {
      var adj := db.adjustments[a];
      OpeningsAreEarly(db);
      AddMovementKeepsRows(db, NewRow(db, adj.user, adj.direction, adj.amount, None, None, Origin.AdjustmentRow(a)));
      RowsStayOk(db, db');
      PairsStand(db.rows, db'.rows);
      ApplyAdjustmentKeepsLinks(db, a, approver);
      ApplyAdjustmentPosts(db, a, approver);
      ApplyAdjustmentBalances(db, a, approver);
      ApplyAdjustmentAccounts(db, a, approver);
      Assemble(db, db');
    }
  }

  lemma MarkSuccessfulStep(db: Db, w: nat)
    requires Inv(db) && w < |db.withdrawals|
    ensures GoodStep(db, MarkSuccessful(db, w))
  {
    hide ReversedOnce, TransfersPaired, ReversalsPaired, Linked, Posted, Balances, BalancedByLedger;
    var db' := MarkSuccessful(db, w);
    assert db'.rows == db.rows;
    MarkSuccessfulKeepsLinks(db, w);
    MarkSuccessfulPosts(db, w);
    MarkSuccessfulBalances(db, w);
    MarkSuccessfulAccounts(db, w);
    Assemble(db, db');
  }

  lemma RefundStep(db: Db, w: nat, outcome: WithdrawalStatus)
    requires Inv(db) && HasPayout(db, w) && Refunded(outcome)
    ensures GoodStep(db, RefundWithdrawal(db, w, outcome))
  {
    hide ReversedOnce, TransfersPaired, ReversalsPaired, Posted, Balances, BalancedByLedger;
    var db' := RefundWithdrawal(db, w, outcome);
    assert WithdrawalOk(db.rows, db.withdrawals, w);
    OpeningsAreEarly(db);
    RefundKeepsRows(db, w, outcome);
    assert RowOk(db.rows, db.withdrawals[w].debitTransactionId, db.transfers, db.ledgerStart, db.clock);
    PairsStand(db.rows, db'.rows);
    RefundKeepsLinks(db, w, outcome);
    RefundPosts(db, w, outcome, db.withdrawals[w].status);
    RefundBalances(db, w, outcome, db.withdrawals[w].status);
    RefundAccounts(db, w, outcome);
    Assemble(db, db');
  }

  lemma ApplyTransferStatusStep(db: Db, w: nat, status: TransferStatus)
    requires Inv(db) && HasPayout(db, w)
    ensures GoodStep(db, ApplyTransferStatus(db, w, status))
  {
    match status
    case TransferSuccess => MarkSuccessfulStep(db, w);
    case TransferReversed => RefundStep(db, w, WithdrawalStatus.Reversed);
    case TransferUnderway => Unchanged(db);
    case _ => RefundStep(db, w, WithdrawalStatus.Failed);
  }

  lemma AnswerStep(db: Db, w: nat, answer: TransferAnswer)
    requires Inv(db) && HasPayout(db, w)
    ensures GoodStep(db, SendTransfer(db, w, answer)) && GoodStep(db, ConfirmWithdrawal(db, w, answer))
  {
    hide Inv, GoodStep;
    Unchanged(db);
    RefundStep(db, w, WithdrawalStatus.Failed);
    if answer.Reported? {
      ApplyTransferStatusStep(db, w, answer.status);
    }
  }

  lemma RejectStep(db: Db, a: nat, admin: UserId)
    requires Inv(db) && a < |db.adjustments|
    ensures GoodStep(db, RejectAdjustment(db, a, admin))
  {
    if db.adjustments[a].status != AdjustmentStatus.Pending {
      Unchanged(db);
    } else {
      RejectAdjustmentKeepsLinks(db, a, admin);
      TablesOnly(db, RejectAdjustment(db, a, admin));
    }
  }

  // ---------- Every step, every run ----------

  lemma ReversalBegunStep(db: Db, i: TxId, u: UserId, found: TxId)
    requires Inv(db)
    ensures GoodStep(db, ApplyWallet(db, ReversalBegun(i, u, found)))
  {
    hide Inv, GoodStep;
    Unchanged(db);
    if Reversible(db, i, u) {
      if db.rows[i].transferId.None? {
        BeginSingleReversalStep(db, i, u);
      } else if db.rows[i].kind == Debit && PairedLeg(db.rows, i, found) {
        BeginTransferReversalStep(db, i, found, u);
      }
    }
  }

  lemma WalletStep(db: Db, action: WalletAction)
    requires Inv(db)
    ensures GoodStep(db, ApplyWallet(db, action))
  {
    hide Inv, GoodStep;
    Unchanged(db);
    match action
    case DirectBegun(u, kind, amount) => BeginDirectStep(db, u, kind, amount);
    case DirectSettled(i) => if PendingDirect(db.rows, i) { SettleDirectStep(db, i); }
    case RequestGivenUp(i) =>
      if i < |db.rows| && db.rows[i].status == TxStatus.Pending && db.rows[i].transferId.None? { GiveUpStep(db, i); }
    case TransferBegun(sender, receiver, amount) => BeginTransferStep(db, sender, receiver, amount);
    case TransferSettled(i) => if PendingTransfer(db.rows, i, i + 1) { SettleTransferStep(db, i, i + 1); }
    case TransferGivenUp(i) => if PendingTransfer(db.rows, i, i + 1) { FailBothStep(db, i, i + 1); }
    case ReversalBegun(i, u, found) => ReversalBegunStep(db, i, u, found);
    case ReversalSettled(p) =>
      if PendingReversal(db.rows, p) && db.rows[p].transferId.None? { SettleSingleReversalStep(db, p); }
    case TransferReversalSettled(p) => if PendingTransferReversal(db.rows, p, p + 1) { SettleTransferReversalStep(db, p); }
    case TransferReversalGivenUp(p) => if PendingTransferReversal(db.rows, p, p + 1) { FailBothStep(db, p, p + 1); }
  }

  lemma PaymentStep(db: Db, action: PaymentAction)
    requires Inv(db)
    ensures GoodStep(db, ApplyPayment(db, action))
  {
    hide Inv, GoodStep;
    Unchanged(db);
    match action
    case DepositCreated(u, amount) => CreateDepositStep(db, u, amount);
    case DepositConfirmed(d, payment) => if d < |db.deposits| { ConfirmDepositStep(db, d, payment); }
    case DepositAbandoned(d) => if d < |db.deposits| { CloseDepositStep(db, d, DepositStatus.Abandoned); }
    case WithdrawalCreated(u, amount) => CreateWithdrawalStep(db, u, amount);
    case PayoutSent(w, answer) => if HasPayout(db, w) { AnswerStep(db, w, answer); }
    case WithdrawalConfirmed(w, answer) => if HasPayout(db, w) { AnswerStep(db, w, answer); }
  }

  lemma CreateDepositStep(db: Db, u: UserId, amount: Amount)
    requires Inv(db)
    ensures GoodStep(db, CreateDeposit(db, u, amount))
  {
    CreateDepositKeepsLinks(db, u, amount);
    CreateDepositAccounts(db, u, amount);
    TablesOnly(db, CreateDeposit(db, u, amount));
  }

  lemma RequestStep(db: Db, admin: UserId, u: UserId, direction: TxType, kind: AdjustmentKind, amount: int)
    requires Inv(db)
    ensures GoodStep(db, RequestAdjustment(db, admin, u, direction, kind, amount))
  {
    RequestAdjustmentKeepsLinks(db, admin, u, direction, kind, amount);
    TablesOnly(db, RequestAdjustment(db, admin, u, direction, kind, amount));
  }

  lemma SettingsStep(db: Db, db': Db)
    requires Inv(db)
    requires db' == db.(tiers := db'.tiers, approvers := db'.approvers, clock := db'.clock) && db.clock <= db'.clock
    ensures GoodStep(db, db')
  {
    hide ReversedOnce, TransfersPaired, ReversalsPaired, Posted, BalancedByLedger;
    TablesOnly(db, db');
  }

  lemma StaffStep(db: Db, action: StaffAction)
    requires Inv(db)
    ensures GoodStep(db, ApplyStaff(db, action))
  {
    hide Inv, GoodStep;
    Unchanged(db);
    match action
    case AdjustmentRequested(admin, u, direction, kind, amount) => RequestStep(db, admin, u, direction, kind, amount);
    case SmallAdjustmentApplied(a) =>
      if a < |db.adjustments| {
        ApplyAdjustmentStep(db, a, db.adjustments[a].requestedBy);
        RejectStep(db, a, db.adjustments[a].requestedBy);
      }
    case AdjustmentApproved(a, admin) => if a < |db.adjustments| { ApplyAdjustmentStep(db, a, admin); }
    case AdjustmentRejected(a, admin) => if a < |db.adjustments| { RejectStep(db, a, admin); }
    case AccountOpened(u) => OpenAccountStep(db, u);
    case _ => SettingsStep(db, ApplyStaff(db, action));
  }

  lemma {:induction false} StepKeepsInv(db: Db, action: Action)
    requires Inv(db)
    ensures GoodStep(db, Apply(db, action))
  {
    hide Inv, GoodStep;
    match action
    case OfWallet(w) => WalletStep(db, w);
    case OfPayment(p) => PaymentStep(db, p);
    case OfStaff(s) => StaffStep(db, s);
  }

  /** The invariant holds in every state of every run, and no run moves an account off the tables. */
  lemma {:induction false} RunKeepsInv(db: Db, actions: seq<Action>)
    requires Inv(db)
    ensures Inv(Run(db, actions)) && SameGaps(db, Run(db, actions))
  {
    if actions != [] {
      var before := Run(db, actions[..|actions| - 1]);
      RunKeepsInv(db, actions[..|actions| - 1]);
      StepKeepsInv(before, actions[|actions| - 1]);
      forall a: Account ensures Gap(Run(db, actions), a) == Gap(db, a) {
        assert Gap(before, a) == Gap(db, a);
      }
    }
  }
}
