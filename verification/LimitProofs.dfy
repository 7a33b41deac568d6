/** What the daily limit does and does not promise. */
module LimitProofs {
  import opened Basics
  import opened Tables
  import opened Limits
  import opened Steps
  import opened Invariants
  import opened RowProofs
  import opened Runs

  // ---------- Days ----------

  /** The windows tile time: every instant is in exactly one, and the next starts where it resets. */
  lemma {:induction false} DaysTileTime(now: int, t: int)
    ensures DayStart(now) <= now < ResetsAt(now)
    ensures DayStart(ResetsAt(now)) == ResetsAt(now)
    ensures DayStart(now) <= t < ResetsAt(now) <==> DayStart(t) == DayStart(now)
  {
    var a, b := (now + OFFSET_MS) / DAY_MS, (t + OFFSET_MS) / DAY_MS;
    assert a < b ==> (a + 1) * DAY_MS <= b * DAY_MS;
    assert b < a ==> (b + 1) * DAY_MS <= a * DAY_MS;
    assert (ResetsAt(now) + OFFSET_MS) / DAY_MS == a + 1;
  }

  // ---------- What one day's payments add up to ----------

  function SentOn(u: UserId, day: int): Transaction -> int {
    (t: Transaction) =>
      if t.user == u && t.kind == Debit && t.status == TxStatus.Successful && t.transferId.Some? && DayStart(t.timestamp) == day
      then t.amount else 0
  }

  function WithdrawnOn(u: UserId, day: int): Withdrawal -> int {
    (w: Withdrawal) =>
      if w.user == u && w.status != WithdrawalStatus.Failed && w.status != WithdrawalStatus.Reversed && DayStart(w.createdAt) == day
      then w.amount else 0
  }

  function DaySpent(db: Db, u: UserId, day: int): int {
    SumBy(db.rows, SentOn(u, day)) + SumBy(db.withdrawals, WithdrawnOn(u, day))
  }

  /** Nothing may leave the wallet of someone without an account. */
  function Allowance(db: Db, u: UserId): int {
    if u in db.tiers then DailyOut(db.tiers[u]) else 0
  }

  ghost predicate WithinLimits(db: Db, u: UserId) {
    forall day: int :: DaySpent(db, u, day) <= Allowance(db, u)
  }

  lemma {:induction false} SumBelow<T>(s: seq<T>, t: seq<T>, f: T -> int)
    requires |s| <= |t|
    requires forall i :: 0 <= i < |s| ==> f(t[i]) <= f(s[i])
    requires forall i :: |s| <= i < |t| ==> f(t[i]) == 0
    ensures SumBy(t, f) <= SumBy(s, f)
  {
    if t != [] {
      var n := |t| - 1;
      if |s| == |t| {
        SumBelow(s[..n], t[..n], f);
      } else {
        SumBelow(s, t[..n], f);
      }
    }
  }

  lemma {:induction false} SumMonotone<T>(s: seq<T>, f: T -> int, g: T -> int)
    requires forall i :: 0 <= i < |s| ==> f(s[i]) <= g(s[i])
    ensures SumBy(s, f) <= SumBy(s, g)
  {
    if s != [] {
      var n := |s| - 1;
      assert forall i :: 0 <= i < n ==> f(s[..n][i]) <= g(s[..n][i]);
      SumMonotone(s[..n], f, g);
    }
  }

  /** What the check counts includes everything of its own day. */
  lemma CheckSeesTheDay(db: Db, u: UserId)
    ensures DaySpent(db, u, DayStart(db.clock)) <= SpentToday(db, u)
  {
    var day := DayStart(db.clock);
    forall i | 0 <= i < |db.rows| ensures SentOn(u, day)(db.rows[i]) <= TransferOut(u, day)(db.rows[i]) {
      DaysTileTime(db.rows[i].timestamp, db.clock);
    }
    SumMonotone(db.rows, SentOn(u, day), TransferOut(u, day));
    forall i | 0 <= i < |db.withdrawals| ensures WithdrawnOn(u, day)(db.withdrawals[i]) <= WithdrawnOut(u, day)(db.withdrawals[i]) {
      DaysTileTime(db.withdrawals[i].createdAt, db.clock);
    }
    SumMonotone(db.withdrawals, WithdrawnOn(u, day), WithdrawnOut(u, day));
  }

  /** Nothing is dated later than now. */
  predicate NothingAhead(db: Db) {
    && (forall i :: 0 <= i < |db.rows| ==> db.rows[i].timestamp <= db.clock)
    && (forall w :: 0 <= w < |db.withdrawals| ==> db.withdrawals[w].createdAt <= db.clock)
  }

  /** The windows are whole days from midnight in a timezone one hour ahead of UTC. */
  lemma DayStartsAtMidnight(now: int)
    ensures (DayStart(now) + 3_600_000) % 86_400_000 == 0
    ensures ResetsAt(now) == DayStart(now) + 86_400_000
  {
    var k := (now + OFFSET_MS) / DAY_MS;
    assert DayStart(now) + 3_600_000 == k * 86_400_000;
  }

  /** What the check counts is what was spent on the clock's day: nothing older, and nothing else. */
  lemma CheckCountsTheDay(db: Db, u: UserId)
    requires NothingAhead(db)
    ensures SpentToday(db, u) == DaySpent(db, u, DayStart(db.clock))
  {
    var day := DayStart(db.clock);
    DaysTileTime(db.clock, db.clock);
    forall i | 0 <= i < |db.rows| ensures SentOn(u, day)(db.rows[i]) == TransferOut(u, day)(db.rows[i]) {
      DaysTileTime(db.clock, db.rows[i].timestamp);
    }
    forall i | 0 <= i < |db.withdrawals| ensures WithdrawnOn(u, day)(db.withdrawals[i]) == WithdrawnOut(u, day)(db.withdrawals[i]) {
      DaysTileTime(db.clock, db.withdrawals[i].createdAt);
    }
    hide DayStart;
    SumAgree(db.rows, SentOn(u, day), db.rows, TransferOut(u, day));
    SumAgree(db.withdrawals, WithdrawnOn(u, day), db.withdrawals, WithdrawnOut(u, day));
  }

  /**
   * A payment passes the check exactly when it is within 50,000 or 500,000 naira and what its user has paid
   * on the clock's day comes with it to at most 200,000 or 2,000,000 naira, by tier.
   */
  lemma SendAcceptedIff(db: Db, u: UserId, amount: int)
    requires NothingAhead(db) && 0 < amount
    ensures CheckSend(db, u, amount).None? <==>
            && u in db.tiers
            && amount <= (if db.tiers[u] == Tier1 then 5_000_000 else 50_000_000)
            && DaySpent(db, u, DayStart(db.clock)) + amount <= (if db.tiers[u] == Tier1 then 20_000_000 else 200_000_000)
  {
    CheckCountsTheDay(db, u);
    hide DaySpent, SpentToday;
  }

  /** Money may be added exactly up to 500,000 naira in a first-tier wallet, and without bound in a second-tier one. */
  lemma ReceiveAcceptedIff(db: Db, u: UserId, amount: int)
    requires 0 < amount
    ensures CheckReceive(db, u, amount).None? <==>
            u in db.tiers && (db.tiers[u] == Tier1 ==> u in db.wallets && db.wallets[u] + amount <= 50_000_000)
  {
  }

  lemma WalletDates(db: Db, action: WalletAction)
    requires NothingAhead(db)
    ensures NothingAhead(ApplyWallet(db, action))
  {
    hide SettleDirect, SettleTransfer, SettleSingleReversal, SettleTransferReversal;
    match action
    case DirectSettled(i) => if PendingDirect(db.rows, i) { DirectDates(db, i); }
    case TransferSettled(i) => if PendingTransfer(db.rows, i, i + 1) { TransferDates(db, i); }
    case ReversalBegun(i, u, found) => BegunDates(db, i, u, found);
    case ReversalSettled(p) => if PendingReversal(db.rows, p) { SingleReversalDates(db, p); }
    case TransferReversalSettled(p) => if PendingTransferReversal(db.rows, p, p + 1) { PairDates(db, p); }
    case _ =>
  }

  lemma DirectDates(db: Db, i: TxId)
    requires NothingAhead(db) && PendingDirect(db.rows, i)
    ensures NothingAhead(SettleDirect(db, i))
  {
  }

  lemma TransferDates(db: Db, i: TxId)
    requires NothingAhead(db) && PendingTransfer(db.rows, i, i + 1)
    ensures NothingAhead(SettleTransfer(db, i, i + 1))
  {
  }

  lemma BegunDates(db: Db, i: TxId, u: UserId, found: TxId)
    requires NothingAhead(db)
    ensures NothingAhead(ApplyWallet(db, ReversalBegun(i, u, found)))
  {
  }

  lemma SingleReversalDates(db: Db, p: TxId)
    requires NothingAhead(db) && PendingReversal(db.rows, p)
    ensures NothingAhead(SettleSingleReversal(db, p))
  {
    hide SingleReversalEntry;
  }

  lemma PairDates(db: Db, p: TxId)
    requires NothingAhead(db) && PendingTransferReversal(db.rows, p, p + 1)
    ensures NothingAhead(SettleTransferReversal(db, p, p + 1))
  {
    hide TransferReversalEntry;
  }

  lemma PaymentDates(db: Db, action: PaymentAction)
    requires NothingAhead(db)
    ensures NothingAhead(ApplyPayment(db, action))
  {
    hide CanWithdraw, CanReceive, Matches;
    match action
    case PayoutSent(w, answer) => if HasPayout(db, w) { AnswerDates(db, w, answer); }
    case WithdrawalConfirmed(w, answer) => if HasPayout(db, w) { AnswerDates(db, w, answer); }
    case _ =>
  }

  lemma RefundDates(db: Db, w: nat, outcome: WithdrawalStatus)
    requires NothingAhead(db) && HasPayout(db, w)
    ensures NothingAhead(RefundWithdrawal(db, w, outcome))
  {
  }

  lemma AnswerDates(db: Db, w: nat, answer: TransferAnswer)
    requires NothingAhead(db) && HasPayout(db, w)
    ensures NothingAhead(SendTransfer(db, w, answer)) && NothingAhead(ConfirmWithdrawal(db, w, answer))
  {
    RefundDates(db, w, WithdrawalStatus.Failed);
    RefundDates(db, w, WithdrawalStatus.Reversed);
    assert NothingAhead(MarkSuccessful(db, w));
    hide RefundWithdrawal, MarkSuccessful, NothingAhead;
  }

  lemma StaffDates(db: Db, action: StaffAction)
    requires NothingAhead(db)
    ensures NothingAhead(ApplyStaff(db, action))
  {
  }

  /** So it is in every state of every run: the clock does not go back. */
  lemma {:induction false} NothingIsEverAhead(start: Db, actions: seq<Action>)
    requires NothingAhead(start)
    ensures NothingAhead(Run(start, actions))
  {
    hide NothingAhead, ApplyWallet, ApplyPayment, ApplyStaff;
    if actions != [] {
      var n := |actions| - 1;
      NothingIsEverAhead(start, actions[..n]);
      match actions[n]
      case OfWallet(w) => WalletDates(Run(start, actions[..n]), w);
      case OfPayment(p) => PaymentDates(Run(start, actions[..n]), p);
      case OfStaff(s) => StaffDates(Run(start, actions[..n]), s);
    }
  }

  // ---------- An accepted payment ----------

  /** The rows after a settled transfer, as far as spending goes. */
  lemma SettledTransferRows(db: Db, i: TxId, j: TxId, f: Transaction -> int)
    requires PendingTransfer(db.rows, i, j) && CanTransfer(db, db.rows[i], db.rows[j])
    requires forall t: Transaction :: t.kind == Credit || t.status == TxStatus.Pending ==> f(t) == 0
    ensures SumBy(SettleTransfer(db, i, j).rows, f) == SumBy(db.rows, f) + f(SettleTransfer(db, i, j).rows[i])
  {
    var one := BookRow(db, i);
    var two := BookRow(one, j);
    SumUpdate(db.rows, i, one.rows[i], f);
    SumUpdate(one.rows, j, two.rows[j], f);
    assert SettleTransfer(db, i, j).rows == two.rows;
  }

  /** Every accepted transfer leaves what its sender has spent today within the limit. */
  lemma AcceptedTransferWithinLimit(db: Db, i: TxId, j: TxId)
    requires PendingTransfer(db.rows, i, j) && CanTransfer(db, db.rows[i], db.rows[j])
    ensures var sender := db.rows[i].user;
      && SpentToday(SettleTransfer(db, i, j), sender) <= DailyOut(db.tiers[sender])
      && db.rows[i].amount <= PerTransaction(db.tiers[sender])
  {
    var f := TransferOut(db.rows[i].user, DayStart(db.clock));
    SettledTransferRows(db, i, j, f);
    assert f(SettleTransfer(db, i, j).rows[i]) <= db.rows[i].amount;
  }

  /** Every accepted withdrawal leaves what its user has spent today within the limit. */
  lemma {:induction false} AcceptedWithdrawalWithinLimit(db: Db, u: UserId, amount: Amount)
    requires CanWithdraw(db, u, amount)
    ensures var db' := CreateWithdrawal(db, u, amount);
      && SpentToday(db', u) == SpentToday(db, u) + amount <= DailyOut(db.tiers[u])
      && amount <= PerTransaction(db.tiers[u])
  {
    var db' := CreateWithdrawal(db, u, amount);
    DaysTileTime(db.clock, db.clock);
    WithdrawalRows(db, u, amount, TransferOut(u, DayStart(db.clock)));
    SumAppend(db.withdrawals, db'.withdrawals[|db.withdrawals|], WithdrawnOut(u, DayStart(db.clock)));
  }

  lemma WithdrawalRows(db: Db, u: UserId, amount: Amount, f: Transaction -> int)
    requires CanWithdraw(db, u, amount)
    requires forall t: Transaction :: t.transferId.None? ==> f(t) == 0
    ensures SumBy(CreateWithdrawal(db, u, amount).rows, f) == SumBy(db.rows, f)
  {
    var db' := CreateWithdrawal(db, u, amount);
    assert db'.rows == db.rows + [db'.rows[|db.rows|]];
    SumAppend(db.rows, db'.rows[|db.rows|], f);
  }

  // ---------- Which steps can add to a day ----------

  predicate Spends(t: Transaction) {
    t.kind == Debit && t.status == TxStatus.Successful && t.transferId.Some?
  }

  predicate RowQuiet(a: Transaction, b: Transaction) {
    a.user == b.user && a.kind == b.kind && a.amount == b.amount && a.timestamp == b.timestamp && a.transferId == b.transferId
    && (Spends(b) ==> a.status == TxStatus.Successful)
  }

  predicate Stands(w: Withdrawal) {
    w.status != WithdrawalStatus.Failed && w.status != WithdrawalStatus.Reversed
  }

  predicate WithdrawalQuiet(a: Withdrawal, b: Withdrawal) {
    a.user == b.user && a.amount == b.amount && a.createdAt == b.createdAt && (Stands(b) ==> Stands(a))
  }

  /** Nothing is spent between `db` and `db'`: payments only fail or are undone. */
  ghost predicate Quiet(db: Db, db': Db) {
    && |db.rows| <= |db'.rows| && |db.withdrawals| == |db'.withdrawals|
    && (forall i :: 0 <= i < |db.rows| ==> RowQuiet(db.rows[i], db'.rows[i]))
    && (forall i :: |db.rows| <= i < |db'.rows| ==> !Spends(db'.rows[i]))
    && (forall w :: 0 <= w < |db.withdrawals| ==> WithdrawalQuiet(db.withdrawals[w], db'.withdrawals[w]))
  }

  lemma QuietSpendsNothing(db: Db, db': Db, u: UserId, day: int)
    requires Quiet(db, db')
    ensures DaySpent(db', u, day) <= DaySpent(db, u, day)
  {
    SumBelow(db.rows, db'.rows, SentOn(u, day));
    SumBelow(db.withdrawals, db'.withdrawals, WithdrawnOn(u, day));
  }

  /** The steps that may spend: they settle a transfer or its reversal, or start a withdrawal. */
  predicate MaySpend(action: Action) {
    || (action.OfWallet? && (action.wallet.TransferSettled? || action.wallet.TransferReversalSettled?))
    || (action.OfPayment? && action.payment.WithdrawalCreated?)
  }

  lemma WalletQuiet(db: Db, action: WalletAction)
    requires !action.TransferSettled? && !action.TransferReversalSettled?
    ensures Quiet(db, ApplyWallet(db, action))
  {
    assert Quiet(db, db);
    match action
    case DirectSettled(i) => if PendingDirect(db.rows, i) { DirectQuiet(db, i); }
    case TransferGivenUp(i) => if PendingTransfer(db.rows, i, i + 1) { FailedQuiet(db, i, i + 1); }
    case TransferReversalGivenUp(p) => if PendingTransferReversal(db.rows, p, p + 1) { FailedQuiet(db, p, p + 1); }
    case ReversalSettled(p) => if PendingReversal(db.rows, p) && db.rows[p].transferId.None? { SingleReversalQuiet(db, p); }
    case ReversalBegun(i, u, found) => hide Reversible;
    case _ =>
  }

  lemma FailedQuiet(db: Db, i: TxId, j: TxId)
    requires i < |db.rows| && j < |db.rows|
    ensures Quiet(db, FailBoth(db, i, j))
  {
  }

  lemma DirectQuiet(db: Db, i: TxId)
    requires PendingDirect(db.rows, i)
    ensures Quiet(db, SettleDirect(db, i))
  {
  }

  lemma SingleReversalQuiet(db: Db, p: TxId)
    requires PendingReversal(db.rows, p) && db.rows[p].transferId.None?
    ensures Quiet(db, SettleSingleReversal(db, p))
  {
    hide SingleReversalEntry;
  }

  lemma RefundQuiet(db: Db, w: nat, outcome: WithdrawalStatus)
    requires HasPayout(db, w) && Refunded(outcome)
    ensures Quiet(db, RefundWithdrawal(db, w, outcome))
  {
  }

  lemma PaymentQuiet(db: Db, action: PaymentAction)
    requires !action.WithdrawalCreated?
    ensures Quiet(db, ApplyPayment(db, action))
  {
    assert Quiet(db, db);
    match action
    case PayoutSent(w, answer) => if HasPayout(db, w) { AnswerQuiet(db, w, answer); }
    case WithdrawalConfirmed(w, answer) => if HasPayout(db, w) { AnswerQuiet(db, w, answer); }
    case DepositConfirmed(d, payment) => if d < |db.deposits| { SettledQuiet(db, d); hide Quiet, SettleDeposit; FailedDepositQuiet(db, d); }
    case DepositCreated(_, _) => hide CanReceive;
    case DepositAbandoned(_) =>
  }

  lemma SettledQuiet(db: Db, d: nat)
    requires d < |db.deposits|
    ensures Quiet(db, SettleDeposit(db, d))
  {
  }

  lemma FailedDepositQuiet(db: Db, d: nat)
    requires d < |db.deposits|
    ensures Quiet(db, FailDeposit(db, d))
  {
  }

  lemma AnswerQuiet(db: Db, w: nat, answer: TransferAnswer)
    requires HasPayout(db, w)
    ensures Quiet(db, SendTransfer(db, w, answer)) && Quiet(db, ConfirmWithdrawal(db, w, answer))
  {
    RefundQuiet(db, w, WithdrawalStatus.Failed);
    RefundQuiet(db, w, WithdrawalStatus.Reversed);
    assert Quiet(db, MarkSuccessful(db, w)) && Quiet(db, db);
    hide Quiet, RefundWithdrawal, MarkSuccessful;
  }

  lemma StaffQuiet(db: Db, action: StaffAction)
    ensures Quiet(db, ApplyStaff(db, action))
  {
  }

  lemma OtherStepsAreQuiet(db: Db, action: Action)
    requires !MaySpend(action)
    ensures Quiet(db, Apply(db, action))
  {
    match action
    case OfWallet(w) => WalletQuiet(db, w);
    case OfPayment(p) => PaymentQuiet(db, p);
    case OfStaff(s) => StaffQuiet(db, s);
  }

  // ---------- The steps that spend ----------

  /** A settled transfer adds its amount to the day its request was made, for its sender only. */
  lemma TransferSpends(db: Db, i: TxId, j: TxId, u: UserId, day: int)
    requires PendingTransfer(db.rows, i, j) && CanTransfer(db, db.rows[i], db.rows[j])
    ensures DaySpent(SettleTransfer(db, i, j), u, day) ==
            DaySpent(db, u, day) + if u == db.rows[i].user && DayStart(db.rows[i].timestamp) == day then db.rows[i].amount else 0
  {
    SettledTransferRows(db, i, j, SentOn(u, day));
  }

  lemma WithdrawalSpends(db: Db, v: UserId, amount: Amount, u: UserId, day: int)
    requires CanWithdraw(db, v, amount)
    ensures DaySpent(CreateWithdrawal(db, v, amount), u, day) ==
            DaySpent(db, u, day) + if u == v && DayStart(db.clock) == day then amount else 0
  {
    var db' := CreateWithdrawal(db, v, amount);
    WithdrawalRows(db, v, amount, SentOn(u, day));
    SumAppend(db.withdrawals, db'.withdrawals[|db.withdrawals|], WithdrawnOn(u, day));
  }

  /** A refunded withdrawal gives its day back what it had taken. */
  lemma RefundGivesBackTheDay(db: Db, w: nat, outcome: WithdrawalStatus, u: UserId, day: int)
    requires HasPayout(db, w) && Refunded(outcome) && Claimable(db.withdrawals[w].status, outcome)
    requires db.withdrawals[w].user in db.wallets && db.rows[db.withdrawals[w].debitTransactionId].transferId.None?
    ensures DaySpent(RefundWithdrawal(db, w, outcome), u, day) ==
            DaySpent(db, u, day)
            - if u == db.withdrawals[w].user && DayStart(db.withdrawals[w].createdAt) == day then db.withdrawals[w].amount else 0
  {
    var db', o := RefundWithdrawal(db, w, outcome), db.withdrawals[w].debitTransactionId;
    hide DayStart;
    SumUpdate(db.withdrawals, w, db'.withdrawals[w], WithdrawnOn(u, day));
    var marked := db.rows[o := db.rows[o].(status := TxStatus.Reversed)];
    SumUpdate(db.rows, o, marked[o], SentOn(u, day));
    assert db'.rows == marked + [db'.rows[|db.rows|]];
    SumAppend(marked, db'.rows[|db.rows|], SentOn(u, day));
  }

  /** A transfer that is taken back gives its sender's day back what it had taken. */
  lemma TransferReversalGivesBack(db: Db, p: TxId, day: int)
    requires Inv(db) && PendingTransferReversal(db.rows, p, p + 1) && db.rows[p].user in db.wallets && CanBook(db, db.rows[p + 1])
    ensures var sent := db.rows[db.rows[p].reversalOf.value];
      && sent.user == db.rows[p].user && sent.user != db.rows[p + 1].user
      && DaySpent(SettleTransferReversal(db, p, p + 1), sent.user, day) ==
         DaySpent(db, sent.user, day) - if DayStart(sent.timestamp) == day then sent.amount else 0
  {
    UndoneLegs(db, p, p + 1);
    hide Inv, DayStart;
    SenderRows(db, p, p + 1, SentOn(db.rows[p].user, day));
  }

  lemma SenderRows(db: Db, p: TxId, q: TxId, f: Transaction -> int)
    requires PendingTransferReversal(db.rows, p, q) && db.rows[p].user in db.wallets && CanBook(db, db.rows[q])
    requires db.rows[p].reversalOf.value < p && db.rows[q].reversalOf.value < p && p < q && db.rows[p].reversalOf != db.rows[q].reversalOf
    requires forall t: Transaction :: t.kind == Credit || t.status != TxStatus.Successful || t.user != db.rows[p].user ==> f(t) == 0
    requires db.rows[q].user != db.rows[p].user && db.rows[db.rows[q].reversalOf.value].user != db.rows[p].user
    ensures SumBy(SettleTransferReversal(db, p, q).rows, f) == SumBy(db.rows, f) - f(db.rows[db.rows[p].reversalOf.value])
  {
    var i, j := db.rows[p].reversalOf.value, db.rows[q].reversalOf.value;
    var one := BookRow(db, p);
    var two := BookRow(one, q);
    var three := SetStatus(two, i, TxStatus.Reversed);
    var four := SetStatus(three, j, TxStatus.Reversed);
    SumUpdate(db.rows, p, one.rows[p], f);
    SumUpdate(one.rows, q, two.rows[q], f);
    SumUpdate(two.rows, i, three.rows[i], f);
    SumUpdate(three.rows, j, four.rows[j], f);
    assert SettleTransferReversal(db, p, q).rows == four.rows;
  }

  /** A transfer's reversal counts as spending of the wallet that had received it, unchecked. */
  lemma ReversalSpends(db: Db, p: TxId, u: UserId, day: int)
    requires PendingTransferReversal(db.rows, p, p + 1) && UndoesOthers(db.rows, p)
    requires db.rows[p].user in db.wallets && CanBook(db, db.rows[p + 1])
    requires u == db.rows[p + 1].user
    ensures DaySpent(SettleTransferReversal(db, p, p + 1), u, day) ==
            DaySpent(db, u, day) + if DayStart(db.rows[p + 1].timestamp) == day then db.rows[p + 1].amount else 0
  {
    var f, db' := SentOn(u, day), SettleTransferReversal(db, p, p + 1);
    assert db'.withdrawals == db.withdrawals && f(db'.rows[p + 1]) == if DayStart(db.rows[p + 1].timestamp) == day then db.rows[p + 1].amount else 0;
    hide SettleTransferReversal, DayStart;
    ReversalRows(db, p, p + 1, f);
  }

  /** The rows being taken back: the sender's is not the receiver's, and the receiver's is a credit. */
  predicate UndoesOthers(rows: seq<Transaction>, p: TxId)
    requires PendingTransferReversal(rows, p, p + 1)
  {
    && rows[p].reversalOf.value < p && rows[p + 1].reversalOf.value < p
    && rows[rows[p].reversalOf.value].user != rows[p + 1].user
    && rows[rows[p + 1].reversalOf.value].kind == Credit
  }

  lemma ReversalUndoesOthers(db: Db, p: TxId)
    requires Inv(db) && PendingTransferReversal(db.rows, p, p + 1)
    ensures UndoesOthers(db.rows, p)
  {
    UndoneLegs(db, p, p + 1);
    hide Inv;
  }

  lemma ReversalRows(db: Db, p: TxId, q: TxId, f: Transaction -> int)
    requires PendingTransferReversal(db.rows, p, q) && db.rows[p].user in db.wallets && CanBook(db, db.rows[q])
    requires db.rows[p].reversalOf.value < p && db.rows[q].reversalOf.value < p && p < q
    requires forall t: Transaction :: t.kind == Credit || t.status == TxStatus.Pending ==> f(t) == 0
    requires forall t: Transaction :: t.user != db.rows[q].user ==> f(t) == 0
    requires db.rows[db.rows[p].reversalOf.value].user != db.rows[q].user && db.rows[db.rows[q].reversalOf.value].kind == Credit
    ensures SumBy(SettleTransferReversal(db, p, q).rows, f) == SumBy(db.rows, f) + f(SettleTransferReversal(db, p, q).rows[q])
  {
    var i, j := db.rows[p].reversalOf.value, db.rows[q].reversalOf.value;
    var one := BookRow(db, p);
    var two := BookRow(one, q);
    var three := SetStatus(two, i, TxStatus.Reversed);
    var four := SetStatus(three, j, TxStatus.Reversed);
    SumUpdate(db.rows, p, one.rows[p], f);
    SumUpdate(one.rows, q, two.rows[q], f);
    SumUpdate(two.rows, i, three.rows[i], f);
    SumUpdate(three.rows, j, four.rows[j], f);
    assert SettleTransferReversal(db, p, q).rows == four.rows;
  }

  // ---------- The daily limit over whole runs ----------

  /** A step under which the limit is what the code keeps: no tier lowered, no transfer settled on a later day than it was asked for, no received transfer taken back. */
  predicate Calm(db: Db, action: Action, u: UserId) {
    match action
    case OfWallet(TransferSettled(i)) => i < |db.rows| && db.rows[i].user == u ==> DayStart(db.rows[i].timestamp) == DayStart(db.clock)
    case OfWallet(TransferReversalSettled(p)) => p + 1 < |db.rows| ==> db.rows[p + 1].user != u
    case OfStaff(TierSet(v, tier)) => v == u && u in db.tiers ==> DailyOut(db.tiers[u]) <= DailyOut(tier)
    case _ => true
  }

  lemma AllowanceKept(db: Db, action: Action, u: UserId)
    requires Calm(db, action, u)
    ensures Allowance(db, u) <= Allowance(Apply(db, action), u)
  {
    match action
    case OfWallet(w) => WalletKeepsTiers(db, w);
    case OfPayment(p) => PaymentKeepsTiers(db, p);
    case OfStaff(s) => StaffKeepsTiers(db, s, u);
  }

  lemma WalletKeepsTiers(db: Db, action: WalletAction)
    ensures ApplyWallet(db, action).tiers == db.tiers
  {
  }

  lemma PaymentKeepsTiers(db: Db, action: PaymentAction)
    ensures ApplyPayment(db, action).tiers == db.tiers
  {
  }

  lemma StaffKeepsTiers(db: Db, action: StaffAction, u: UserId)
    requires action.TierSet? && action.u == u && u in db.tiers ==> DailyOut(db.tiers[u]) <= DailyOut(action.tier)
    ensures Allowance(db, u) <= Allowance(ApplyStaff(db, action), u)
  {
  }

  lemma TransferWithinDay(db: Db, i: TxId, j: TxId, u: UserId)
    requires WithinLimits(db, u) && PendingTransfer(db.rows, i, j) && CanTransfer(db, db.rows[i], db.rows[j])
    ensures WithinLimits(SettleTransfer(db, i, j), u) <==>
            (db.rows[i].user == u && DayStart(db.rows[i].timestamp) != DayStart(db.clock) ==>
               db.rows[i].amount <= DailyOut(db.tiers[u]) - DaySpent(db, u, DayStart(db.rows[i].timestamp)))
  {
    var db' := SettleTransfer(db, i, j);
    assert db'.tiers == db.tiers;
    hide SettleTransfer;
    CheckSeesTheDay(db, u);
    forall day: int ensures DaySpent(db', u, day) ==
                        DaySpent(db, u, day) + if u == db.rows[i].user && DayStart(db.rows[i].timestamp) == day then db.rows[i].amount else 0
    {
      TransferSpends(db, i, j, u, day);
    }
    hide DaySpent, SpentToday;
    var own := DayStart(db.rows[i].timestamp);
    assert WithinLimits(db', u) ==> DaySpent(db', u, own) <= Allowance(db', u);
  }

  lemma WithdrawalWithinDay(db: Db, v: UserId, amount: Amount, u: UserId)
    requires WithinLimits(db, u) && CanWithdraw(db, v, amount)
    ensures WithinLimits(CreateWithdrawal(db, v, amount), u)
  {
    var db' := CreateWithdrawal(db, v, amount);
    assert db'.tiers == db.tiers;
    hide CreateWithdrawal;
    CheckSeesTheDay(db, u);
    forall day: int ensures DaySpent(db', u, day) <= Allowance(db, u) {
      WithdrawalSpends(db, v, amount, u, day);
      hide DaySpent, SpentToday;
    }
  }

  lemma ReversalKeepsTiers(db: Db, p: TxId)
    requires PendingTransferReversal(db.rows, p, p + 1)
    ensures SettleTransferReversal(db, p, p + 1).tiers == db.tiers
  {
  }

  lemma MoreOnOneDay(db: Db, db': Db, u: UserId, own: int, amount: int)
    requires WithinLimits(db, u) && db'.tiers == db.tiers
    requires forall day: int :: DaySpent(db', u, day) == DaySpent(db, u, day) + if own == day then amount else 0
    ensures WithinLimits(db', u) <==> amount <= Allowance(db, u) - DaySpent(db, u, own)
  {
    hide DaySpent, DailyOut;
    assert WithinLimits(db', u) ==> DaySpent(db', u, own) <= Allowance(db', u);
  }

  /** Taking back a transfer is safe for its receiver's limit exactly when the receiver had room for it. */
  lemma {:induction false} ReversalWithinDay(db: Db, p: TxId)
    requires Inv(db) && PendingTransferReversal(db.rows, p, p + 1)
    requires db.rows[p].user in db.wallets && CanBook(db, db.rows[p + 1])
    requires WithinLimits(db, db.rows[p + 1].user)
    ensures var out := db.rows[p + 1];
      WithinLimits(SettleTransferReversal(db, p, p + 1), out.user) <==>
      out.amount <= Allowance(db, out.user) - DaySpent(db, out.user, DayStart(out.timestamp))
  {
    hide Inv, SettleTransferReversal, DaySpent, UndoesOthers, DayStart, Allowance, WithinLimits;
    var db', u, own := SettleTransferReversal(db, p, p + 1), db.rows[p + 1].user, DayStart(db.rows[p + 1].timestamp);
    ReversalKeepsTiers(db, p);
    ReversalUndoesOthers(db, p);
    forall day: int ensures DaySpent(db', u, day) == DaySpent(db, u, day) + if own == day then db.rows[p + 1].amount else 0 {
      ReversalSpends(db, p, u, day);
    }
    MoreOnOneDay(db, db', u, own, db.rows[p + 1].amount);
  }

  lemma OthersReversalWithinDay(db: Db, p: TxId, u: UserId)
    requires WithinLimits(db, u) && PendingTransferReversal(db.rows, p, p + 1) && u != db.rows[p + 1].user
    ensures WithinLimits(SettleTransferReversal(db, p, p + 1), u)
  {
    var db' := SettleTransferReversal(db, p, p + 1);
    forall day: int ensures DaySpent(db', u, day) <= DaySpent(db, u, day) {
      OthersReversalSpends(db, p, u, day);
    }
    assert db'.tiers == db.tiers;
    hide SettleTransferReversal, DaySpent;
    forall day: int ensures DaySpent(db', u, day) <= Allowance(db', u) {
      assert DaySpent(db, u, day) <= Allowance(db, u);
    }
  }

  lemma OthersReversalSpends(db: Db, p: TxId, u: UserId, day: int)
    requires PendingTransferReversal(db.rows, p, p + 1) && u != db.rows[p + 1].user
    ensures DaySpent(SettleTransferReversal(db, p, p + 1), u, day) <= DaySpent(db, u, day)
  {
    var db' := SettleTransferReversal(db, p, p + 1);
    hide TransferReversalEntry;
    SumBelow(db.rows, db'.rows, SentOn(u, day));
  }

  lemma CalmStepWithinLimits(db: Db, action: Action, u: UserId)
    requires WithinLimits(db, u) && Calm(db, action, u)
    ensures WithinLimits(Apply(db, action), u)
  {
    var db' := Apply(db, action);
    AllowanceKept(db, action, u);
    if !MaySpend(action) {
      OtherStepsAreQuiet(db, action);
      hide Apply, Quiet, DaySpent, Allowance, Calm;
      forall day: int ensures DaySpent(db', u, day) <= Allowance(db', u) {
        QuietSpendsNothing(db, db', u, day);
        assert DaySpent(db, u, day) <= Allowance(db, u);
      }
    } else {
      SpendingStepWithinLimits(db, action, u);
    }
  }

  lemma SpendingStepWithinLimits(db: Db, action: Action, u: UserId)
    requires WithinLimits(db, u) && Calm(db, action, u) && MaySpend(action)
    ensures WithinLimits(Apply(db, action), u)
  {
    match action
    case OfWallet(TransferSettled(i)) =>
      if PendingTransfer(db.rows, i, i + 1) {
        hide WithinLimits;
        if CanTransfer(db, db.rows[i], db.rows[i + 1]) { TransferWithinDay(db, i, i + 1, u); }
        else { FailedWithinLimits(db, i, i + 1, u); }
      }
    case OfWallet(TransferReversalSettled(p)) =>
      if PendingTransferReversal(db.rows, p, p + 1) { hide WithinLimits; OthersReversalWithinDay(db, p, u); }
    case OfPayment(WithdrawalCreated(v, amount)) =>
      hide WithinLimits;
      if CanWithdraw(db, v, amount) { WithdrawalWithinDay(db, v, amount, u); }
  }

  lemma FailedWithinLimits(db: Db, i: TxId, j: TxId, u: UserId)
    requires WithinLimits(db, u) && i < |db.rows| && j < |db.rows|
    ensures WithinLimits(FailBoth(db, i, j), u)
  {
    FailedQuiet(db, i, j);
    var db' := FailBoth(db, i, j);
    assert db'.tiers == db.tiers;
    hide FailBoth, Quiet, DaySpent;
    forall day: int ensures DaySpent(db', u, day) <= Allowance(db', u) {
      QuietSpendsNothing(db, db', u, day);
      assert DaySpent(db, u, day) <= Allowance(db, u);
    }
  }

  ghost predicate CalmRun(start: Db, actions: seq<Action>, u: UserId) {
    forall k :: 0 <= k < |actions| ==> Calm(Run(start, actions[..k]), actions[k], u)
  }

  /** Over a calm run, nobody's transfers and withdrawals of any one day ever pass their daily limit. */
  lemma {:induction false} DailyLimitHolds(start: Db, actions: seq<Action>, u: UserId)
    requires WithinLimits(start, u) && CalmRun(start, actions, u)
    ensures WithinLimits(Run(start, actions), u)
  {
    if actions != [] {
      var n := |actions| - 1;
      forall k | 0 <= k < n ensures Calm(Run(start, actions[..n][..k]), actions[..n][k], u) {
        assert actions[..n][..k] == actions[..k];
        assert Calm(Run(start, actions[..k]), actions[k], u);
      }
      DailyLimitHolds(start, actions[..n], u);
      hide WithinLimits, Calm, Apply;
      CalmStepWithinLimits(Run(start, actions[..n]), actions[n], u);
    }
  }
}
