/** When requests take effect, and what they write. */
module Requests {
  // Each step of the engine that a request or an answer leads to, said in the fields of that request or
  // answer, of the tables before and of the tables after.

  import opened Basics
  import opened Tables
  import opened Ledger
  import opened Limits
  import opened Steps
  import opened Runs
  import opened Guarantees
  import opened LimitProofs

  // ---------- What is written ----------

  /** `db'` has one more row: this settled movement of one wallet, which it takes from `before` to the stored balance. */
  predicate OneMovement(db: Db, db': Db, u: UserId, kind: TxType, amount: int) {
    && u in db.wallets
    && db'.wallets == db.wallets[u := if kind == Credit then db.wallets[u] + amount else db.wallets[u] - amount]
    && |db'.rows| == |db.rows| + 1
    && var row := db'.rows[|db.rows|];
       && row.user == u && row.kind == kind && row.amount == amount && row.status == TxStatus.Successful
       && row.balanceBefore == db.wallets[u] && row.balanceAfter == db'.wallets[u] && row.timestamp == db.clock
       && row.transferId.None?
  }

  /** `db'` has one more entry: these two lines. */
  predicate OneEntry(db: Db, db': Db, kind: EntryType, debit: Account, credit: Account, amount: int, about: TxId) {
    && |db'.journal| == |db.journal| + 1 && db'.journal[..|db.journal|] == db.journal
    && var e := db'.journal[|db.journal|];
       && e.kind == kind && e.lines == [Line(debit, amount), Line(credit, -amount)]
       && e.transactionId == Some(about) && e.createdAt == db.clock
  }

  // ---------- Deposits ----------

  /**
   * What an answer from Paystack makes of a PENDING deposit. It is credited exactly when the payment is
   * successful, carries the deposit's own reference, is for its amount and in naira, and there is a wallet;
   * a successful payment with another reference, amount or currency fails it, as a failed or reversed one does;
   * anything else leaves everything as it was.
   */
  lemma AnswerDecidesDeposit(db: Db, d: nat, p: Payment)
    requires d < |db.deposits| && db.deposits[d].status == DepositStatus.Pending
    ensures var db' := Apply(db, OfPayment(DepositConfirmed(d, p)));
      var dep := db.deposits[d];
      var same := p.reference == d && p.amount == dep.amount && p.inNaira;
      && |db'.deposits| == |db.deposits|
      && (db'.deposits[d].status == DepositStatus.Successful <==> p.status == PaidUp && same && dep.user in db.wallets)
      && (db'.deposits[d].status == DepositStatus.Failed <==>
            p.status == PaymentFailed || p.status == PaymentReversed || (p.status == PaidUp && !same))
      && (db'.deposits[d].status == DepositStatus.Successful ==>
            && OneMovement(db, db', dep.user, Credit, p.amount) && db'.rows[..|db.rows|] == db.rows
            && OneEntry(db, db', DepositEntry, PaystackClearing, Wallet(dep.user), p.amount, |db.rows|)
            && db'.deposits == db.deposits[d := dep.(status := DepositStatus.Successful, transactionId := Some(|db.rows|))])
      && (db'.deposits[d].status == DepositStatus.Failed ==>
            db' == db.(deposits := db.deposits[d := dep.(status := DepositStatus.Failed)]))
      && (db'.deposits[d].status != DepositStatus.Successful && db'.deposits[d].status != DepositStatus.Failed ==> db' == db)
  {
  }

  /** No answer changes anything about a deposit that is not PENDING. */
  lemma DecidedDepositIsLeftAlone(db: Db, d: nat, p: Payment)
    requires d < |db.deposits| && db.deposits[d].status != DepositStatus.Pending
    ensures Apply(db, OfPayment(DepositConfirmed(d, p))) == db == Apply(db, OfPayment(DepositAbandoned(d)))
  {
  }

  /** A deposit is recorded exactly within the cap, as PENDING. */
  lemma DepositIsRecorded(db: Db, u: UserId, amount: Amount)
    ensures var db' := Apply(db, OfPayment(DepositCreated(u, amount)));
      db' == if u in db.tiers && (db.tiers[u] == Tier1 ==> u in db.wallets && db.wallets[u] + amount <= 50_000_000)
             then db.(deposits := db.deposits + [Deposit(u, amount, DepositStatus.Pending, None, db.clock)]) else db
  {
  }

  // ---------- Withdrawals ----------

  /**
   * A withdrawal is made exactly when there is a wallet that holds the amount, which is within the limits. Then
   * the wallet is debited at once and the withdrawal is PROCESSING; otherwise nothing is written.
   */
  lemma WithdrawalIsMadeIff(db: Db, u: UserId, amount: Amount)
    requires NothingAhead(db)
    ensures var db' := Apply(db, OfPayment(WithdrawalCreated(u, amount)));
      && (db' != db <==>
            && u in db.wallets && amount <= db.wallets[u] && u in db.tiers
            && amount <= (if db.tiers[u] == Tier1 then 5_000_000 else 50_000_000)
            && DaySpent(db, u, DayStart(db.clock)) + amount <= (if db.tiers[u] == Tier1 then 20_000_000 else 200_000_000))
      && (db' != db ==>
            && OneMovement(db, db', u, Debit, amount) && db'.rows[..|db.rows|] == db.rows
            && OneEntry(db, db', WithdrawalEntry, Wallet(u), PayoutsInTransit, amount, |db.rows|)
            && db'.withdrawals == db.withdrawals + [Withdrawal(u, amount, WithdrawalStatus.Processing, |db.rows|, None, db.clock)])
  {
    SendAcceptedIff(db, u, amount);
    RefusalNamesTheMost(db, u, amount, amount);
    hide DaySpent, CheckSend, CanSend, DayStart, PerTransaction, DailyOut;
    if CanWithdraw(db, u, amount) {
      assert |CreateWithdrawal(db, u, amount).rows| == |db.rows| + 1;
    }
  }

  /** What an answer about its transfer makes of a withdrawal. */
  lemma AnswerDecidesWithdrawal(db: Db, w: nat, answer: TransferAnswer)
    requires HasPayout(db, w) && db.withdrawals[w].user in db.wallets
    ensures var db', wd := Apply(db, OfPayment(WithdrawalConfirmed(w, answer))), db.withdrawals[w];
      var failed := answer == Reported(TransferFailed) || answer == Reported(TransferAbandoned) || answer == Reported(TransferBlocked)
                    || answer == Reported(TransferRejected) || answer == Reported(TransferOtp)
                    || (answer == Missing && 600_000 < db.clock - wd.createdAt);
      && |db'.withdrawals| == |db.withdrawals|
      && db'.withdrawals[w].status ==
         (if wd.status == WithdrawalStatus.Processing && answer == Reported(TransferSuccess) then WithdrawalStatus.Successful
          else if wd.status == WithdrawalStatus.Processing && failed then WithdrawalStatus.Failed
          else if (wd.status == WithdrawalStatus.Processing || wd.status == WithdrawalStatus.Successful) && answer == Reported(TransferReversed)
          then WithdrawalStatus.Reversed
          else wd.status)
      && (db'.withdrawals[w].status == wd.status ==> db' == db)
      && (db'.withdrawals[w].status != wd.status ==> PayoutDecided(db, db', w))
  {
    hide RefundWithdrawal, MarkSuccessful, PayoutDecided;
    MarkedSuccessful(db, w);
    RefundedWithdrawal(db, w, WithdrawalStatus.Failed);
    RefundedWithdrawal(db, w, WithdrawalStatus.Reversed);
  }

  /** What the answer to sending the transfer does, by itself or when it is acted on late. */
  lemma SendingDecidesWithdrawal(db: Db, w: nat, answer: TransferAnswer)
    requires HasPayout(db, w) && db.withdrawals[w].user in db.wallets
    ensures var db', wd := Apply(db, OfPayment(PayoutSent(w, answer))), db.withdrawals[w];
      var failed := answer == Reported(TransferFailed) || answer == Reported(TransferAbandoned) || answer == Reported(TransferBlocked)
                    || answer == Reported(TransferRejected) || answer == Reported(TransferOtp) || answer == Refused4xx;
      && |db'.withdrawals| == |db.withdrawals|
      && db'.withdrawals[w].status ==
         (if wd.status == WithdrawalStatus.Processing && answer == Reported(TransferSuccess) then WithdrawalStatus.Successful
          else if wd.status == WithdrawalStatus.Processing && failed then WithdrawalStatus.Failed
          else if (wd.status == WithdrawalStatus.Processing || wd.status == WithdrawalStatus.Successful) && answer == Reported(TransferReversed)
          then WithdrawalStatus.Reversed
          else wd.status)
      && (db'.withdrawals[w].status == wd.status ==> db' == db)
      && (db'.withdrawals[w].status != wd.status ==> PayoutDecided(db, db', w))
  {
    hide RefundWithdrawal, MarkSuccessful, PayoutDecided;
    MarkedSuccessful(db, w);
    RefundedWithdrawal(db, w, WithdrawalStatus.Failed);
    RefundedWithdrawal(db, w, WithdrawalStatus.Reversed);
  }

  /** A decided withdrawal moves its money: paid to the bank, or back into the wallet and its debit REVERSED. */
  predicate PayoutDecided(db: Db, db': Db, w: nat)
    requires HasPayout(db, w) && |db'.withdrawals| == |db.withdrawals|
  {
    var before, after := db.withdrawals[w], db'.withdrawals[w];
    && after.user == before.user && after.amount == before.amount && after.createdAt == before.createdAt
    && (forall v :: 0 <= v < |db.withdrawals| && v != w ==> db'.withdrawals[v] == db.withdrawals[v])
    && (after.status == WithdrawalStatus.Successful ==>
          db'.wallets == db.wallets && db'.rows == db.rows
          && OneEntry(db, db', WithdrawalPaid, PayoutsInTransit, PaystackClearing, before.amount, before.debitTransactionId))
    && (after.status == WithdrawalStatus.Failed || after.status == WithdrawalStatus.Reversed ==>
          && OneMovement(db, db', before.user, Credit, before.amount)
          && db'.rows[|db.rows|].reversalOf == Some(before.debitTransactionId)
          && db'.rows[..|db.rows|] == db.rows[before.debitTransactionId := db.rows[before.debitTransactionId].(status := TxStatus.Reversed)]
          && after.refundTransactionId == Some(|db.rows|)
          && OneEntry(db, db', WithdrawalRefund, if before.status == WithdrawalStatus.Successful then PaystackClearing else PayoutsInTransit,
                      Wallet(before.user), before.amount, |db.rows|))
  }

  lemma MarkedSuccessful(db: Db, w: nat)
    requires HasPayout(db, w)
    ensures var db' := MarkSuccessful(db, w);
      if db.withdrawals[w].status == WithdrawalStatus.Processing
      then |db'.withdrawals| == |db.withdrawals| && db'.withdrawals[w].status == WithdrawalStatus.Successful && PayoutDecided(db, db', w)
      else db' == db
  {
  }

  lemma RefundedWithdrawal(db: Db, w: nat, outcome: WithdrawalStatus)
    requires HasPayout(db, w) && db.withdrawals[w].user in db.wallets
    requires outcome == WithdrawalStatus.Failed || outcome == WithdrawalStatus.Reversed
    ensures var db', status := RefundWithdrawal(db, w, outcome), db.withdrawals[w].status;
      if status == WithdrawalStatus.Processing || (outcome == WithdrawalStatus.Reversed && status == WithdrawalStatus.Successful)
      then |db'.withdrawals| == |db.withdrawals| && db'.withdrawals[w].status == outcome && PayoutDecided(db, db', w)
      else db' == db
  {
  }

  // ---------- Adjustments ----------

  /** A request is recorded exactly when it is for someone else with an account, is no disguised debit, and is in range. */
  lemma AdjustmentIsRecordedIff(db: Db, admin: UserId, u: UserId, direction: TxType, kind: AdjustmentKind, amount: int)
    ensures var db' := Apply(db, OfStaff(AdjustmentRequested(admin, u, direction, kind, amount)));
      && (db' != db <==> u != admin && u in db.tiers && (direction == Debit ==> kind == Correction) && 0 < amount <= 1_000_000_000)
      && (db' != db ==> db' == db.(adjustments := db.adjustments + [Adjustment(u, direction, kind, amount, AdjustmentStatus.Pending, admin, None, None)]))
  {
    if ValidRequest(db, admin, u, direction, kind, amount) {
      assert |RequestAdjustment(db, admin, u, direction, kind, amount).adjustments| == |db.adjustments| + 1;
    }
  }

  /** What was recorded of an adjustment is never rewritten, and every adjustment was recorded by a valid request. */
  predicate Proper(adj: Adjustment) {
    && adj.user != adj.requestedBy
    && (adj.direction == Debit ==> adj.kind == Correction)
    && 0 < adj.amount <= 1_000_000_000
  }

  predicate ProperAll(adjustments: seq<Adjustment>) {
    forall a :: 0 <= a < |adjustments| ==> Proper(adjustments[a])
  }

  lemma AdjustmentsStayProper(db: Db, action: Action)
    requires ProperAll(db.adjustments)
    ensures ProperAll(Apply(db, action).adjustments)
  {
    match action
    case OfWallet(w) => WalletForward(db, w);
    case OfPayment(p) => PaymentLeavesAdjustments(db, p);
    case OfStaff(s) =>
  }

  /**
   * In every run nobody's own balance is adjusted at their own request, money is only taken as a correction,
   * and no adjustment is for nothing or for more than 10,000,000 naira.
   */
  lemma {:induction false} NobodyAdjustsTheirOwn(start: Db, actions: seq<Action>, a: nat)
    requires start.adjustments == [] && a < |Run(start, actions).adjustments|
    ensures var adj := Run(start, actions).adjustments[a];
      adj.user != adj.requestedBy && (adj.direction == Debit ==> adj.kind == Correction) && 0 < adj.amount <= 1_000_000_000
  {
    AllProper(start, actions);
    hide Run;
    assert Proper(Run(start, actions).adjustments[a]);
  }

  lemma {:induction false} AllProper(start: Db, actions: seq<Action>)
    requires start.adjustments == []
    ensures ProperAll(Run(start, actions).adjustments)
  {
    if actions != [] {
      hide ProperAll, Apply;
      AllProper(start, actions[..|actions| - 1]);
      AdjustmentsStayProper(Run(start, actions[..|actions| - 1]), actions[|actions| - 1]);
    }
  }

  /** An approval takes effect exactly on a PENDING adjustment whose wallet can bear it, by someone who may approve it. */
  lemma ApprovalTakesEffectIff(db: Db, a: nat, admin: UserId)
    requires a < |db.adjustments|
    ensures var db', adj := Apply(db, OfStaff(AdjustmentApproved(a, admin))), db.adjustments[a];
      && (db' != db <==>
            && adj.status == AdjustmentStatus.Pending && adj.user in db.wallets
            && (adj.direction == Debit ==> adj.amount <= db.wallets[adj.user])
            && (adj.requestedBy == admin ==> forall v :: v in db.approvers ==> v == admin))
      && (db' != db ==>
            && OneMovement(db, db', adj.user, adj.direction, adj.amount) && db'.rows[..|db.rows|] == db.rows
            && OneEntry(db, db', AdjustmentEntry, if adj.direction == Credit then Adjustments else Wallet(adj.user),
                        if adj.direction == Credit then Wallet(adj.user) else Adjustments, adj.amount, |db.rows|)
            && db'.adjustments == db.adjustments[a := adj.(status := AdjustmentStatus.Approved, decidedBy := Some(admin), transactionId := Some(|db.rows|))])
  {
    if CanApply(db, a) {
      assert |ApplyAdjustment(db, a, admin).rows| == |db.rows| + 1;
    }
  }

  /** A request of up to 10,000 naira is decided by its requester at once, and a larger one is left alone. */
  lemma SmallRequestIsDecided(db: Db, a: nat)
    requires a < |db.adjustments|
    ensures var db', adj := Apply(db, OfStaff(SmallAdjustmentApplied(a))), db.adjustments[a];
      var bearable := adj.user in db.wallets && (adj.direction == Debit ==> adj.amount <= db.wallets[adj.user]);
      && (1_000_000 < adj.amount || adj.status != AdjustmentStatus.Pending ==> db' == db)
      && (adj.amount <= 1_000_000 && adj.status == AdjustmentStatus.Pending && bearable ==>
            && OneMovement(db, db', adj.user, adj.direction, adj.amount)
            && db'.adjustments == db.adjustments[a := adj.(status := AdjustmentStatus.Approved, decidedBy := Some(adj.requestedBy), transactionId := Some(|db.rows|))])
      && (adj.amount <= 1_000_000 && adj.status == AdjustmentStatus.Pending && !bearable ==>
            db' == db.(adjustments := db.adjustments[a := adj.(status := AdjustmentStatus.Rejected, decidedBy := Some(adj.requestedBy))]))
  {
  }

  /** A rejection takes effect exactly on a PENDING adjustment, and moves nothing. */
  lemma RejectionOnlyDecides(db: Db, a: nat, admin: UserId)
    requires a < |db.adjustments|
    ensures var adj := db.adjustments[a];
      Apply(db, OfStaff(AdjustmentRejected(a, admin))) ==
      if adj.status == AdjustmentStatus.Pending
      then db.(adjustments := db.adjustments[a := adj.(status := AdjustmentStatus.Rejected, decidedBy := Some(admin))]) else db
  {
  }

  // ---------- Transfers and direct movements ----------

  /** A transfer is begun exactly when the receiver has a wallet and is somebody else: two pending rows under a fresh id. */
  lemma TransferBeginsIff(db: Db, sender: UserId, receiver: UserId, amount: Amount)
    ensures Apply(db, OfWallet(TransferBegun(sender, receiver, amount))) ==
            if receiver in db.wallets && receiver != sender
            then db.(transfers := db.transfers + 1,
                     rows := db.rows
                             + [Transaction(sender, Debit, TxStatus.Pending, amount, 0, 0, Some(db.transfers), None, db.clock, Origin.TransferLeg)]
                             + [Transaction(receiver, Credit, TxStatus.Pending, amount, 0, 0, Some(db.transfers), None, db.clock, Origin.TransferLeg)])
            else db
  {
  }

  /** The two rows of a transfer that is still to settle. */
  predicate Begun(rows: seq<Transaction>, i: TxId) {
    && i + 1 < |rows|
    && rows[i].kind == Debit && rows[i].status == TxStatus.Pending && rows[i].transferId.Some? && rows[i].reversalOf.None?
    && rows[i + 1].kind == Credit && rows[i + 1].status == TxStatus.Pending && rows[i + 1].transferId == rows[i].transferId && rows[i + 1].reversalOf.None?
    && rows[i].user != rows[i + 1].user && rows[i].amount == rows[i + 1].amount
  }

  /**
   * A transfer settles exactly when both wallets exist, the sender's holds the amount and it is within the
   * limits. Then the amount goes from one wallet to the other; otherwise both rows fail and nothing moves.
   */
  lemma TransferSettlesIff(db: Db, i: TxId)
    requires NothingAhead(db) && Begun(db.rows, i)
    ensures var db', out, into := Apply(db, OfWallet(TransferSettled(i))), db.rows[i], db.rows[i + 1];
      && |db'.rows| == |db.rows|
      && (db'.rows[i].status == TxStatus.Successful <==>
            && out.user in db.wallets && into.user in db.wallets && out.amount <= db.wallets[out.user] && out.user in db.tiers
            && out.amount <= (if db.tiers[out.user] == Tier1 then 5_000_000 else 50_000_000)
            && DaySpent(db, out.user, DayStart(db.clock)) + out.amount <= (if db.tiers[out.user] == Tier1 then 20_000_000 else 200_000_000))
      && (db'.rows[i].status == TxStatus.Successful ==>
            && db'.wallets == db.wallets[out.user := db.wallets[out.user] - out.amount][into.user := db.wallets[into.user] + out.amount]
            && db'.rows == db.rows[i := out.(status := TxStatus.Successful, balanceBefore := db.wallets[out.user], balanceAfter := db.wallets[out.user] - out.amount)]
                                  [i + 1 := into.(status := TxStatus.Successful, balanceBefore := db.wallets[into.user], balanceAfter := db.wallets[into.user] + out.amount)]
            && OneEntry(db, db', TransferEntry, Wallet(out.user), Wallet(into.user), out.amount, i)
            && db'.journal[|db.journal|].reference == Some(TransferRef(out.transferId.value)))
      && (db'.rows[i].status != TxStatus.Successful ==>
            db' == db.(rows := db.rows[i := out.(status := TxStatus.Failed)][i + 1 := into.(status := TxStatus.Failed)]))
  {
    SendAcceptedIff(db, db.rows[i].user, db.rows[i].amount);
    RefusalNamesTheMost(db, db.rows[i].user, db.rows[i].amount, db.rows[i].amount);
    hide DaySpent, CheckSend, CanSend, DayStart, PerTransaction, DailyOut;
  }

  /** A direct movement always begins, as a pending row. */
  lemma DirectBegins(db: Db, u: UserId, kind: TxType, amount: Amount)
    ensures Apply(db, OfWallet(DirectBegun(u, kind, amount))) ==
            db.(rows := db.rows + [Transaction(u, kind, TxStatus.Pending, amount, 0, 0, None, None, db.clock, Origin.Direct)])
  {
  }

  /** It settles exactly when there is a wallet, which holds the amount if it is a debit; otherwise it fails and nothing moves. */
  lemma DirectSettlesIff(db: Db, i: TxId)
    requires i < |db.rows| && db.rows[i].status == TxStatus.Pending && db.rows[i].transferId.None? && db.rows[i].reversalOf.None?
    ensures var db', row := Apply(db, OfWallet(DirectSettled(i))), db.rows[i];
      && |db'.rows| == |db.rows|
      && (db'.rows[i].status == TxStatus.Successful <==> row.user in db.wallets && (row.kind == Debit ==> row.amount <= db.wallets[row.user]))
      && (db'.rows[i].status == TxStatus.Successful ==>
            var after := if row.kind == Credit then db.wallets[row.user] + row.amount else db.wallets[row.user] - row.amount;
            && db'.wallets == db.wallets[row.user := after]
            && db'.rows == db.rows[i := row.(status := TxStatus.Successful, balanceBefore := db.wallets[row.user], balanceAfter := after)]
            && OneEntry(db, db', DirectFunding, if row.kind == Credit then DevFunding else Wallet(row.user),
                        if row.kind == Credit then Wallet(row.user) else DevFunding, row.amount, i))
      && (db'.rows[i].status != TxStatus.Successful ==> db' == db.(rows := db.rows[i := row.(status := TxStatus.Failed)]))
  {
  }

  // ---------- Reversals ----------

  /**
   * A single row can be reversed exactly by its owner, while it is SUCCESSFUL, is no reversal itself, belongs to no
   * deposit and no withdrawal, and nothing that has not failed reverses it yet. Then a pending row for its amount
   * the other way is written.
   */
  lemma SingleReversalBeginsIff(db: Db, i: TxId, u: UserId, found: TxId)
    requires i < |db.rows| && db.rows[i].transferId.None?
    ensures var db', row := Apply(db, OfWallet(ReversalBegun(i, u, found))), db.rows[i];
      && (db' != db <==>
            && row.user == u && row.reversalOf.None? && row.status == TxStatus.Successful
            && (forall d :: 0 <= d < |db.deposits| ==> db.deposits[d].transactionId != Some(i))
            && (forall w :: 0 <= w < |db.withdrawals| ==> db.withdrawals[w].debitTransactionId != i)
            && (forall p :: 0 <= p < |db.rows| && db.rows[p].reversalOf == Some(i) ==> db.rows[p].status == TxStatus.Failed))
      && (db' != db ==>
            db' == db.(rows := db.rows + [Transaction(u, if row.kind == Credit then Debit else Credit, TxStatus.Pending, row.amount, 0, 0,
                                                      None, Some(i), db.clock, Origin.ReversalRow(row.origin.BeforeLedger?))]))
  {
    ReversibleMeans(db, i, u);
    hide Reversible;
    assert |BeginSingleReversal(db, i).rows| == |db.rows| + 1;
  }

  lemma ReversibleMeans(db: Db, i: TxId, u: UserId)
    requires i < |db.rows|
    ensures Reversible(db, i, u) <==>
            && db.rows[i].user == u && db.rows[i].reversalOf.None? && db.rows[i].status == TxStatus.Successful
            && (forall d :: 0 <= d < |db.deposits| ==> db.deposits[d].transactionId != Some(i))
            && (forall w :: 0 <= w < |db.withdrawals| ==> db.withdrawals[w].debitTransactionId != i)
            && (forall p :: 0 <= p < |db.rows| && db.rows[p].reversalOf == Some(i) ==> db.rows[p].status == TxStatus.Failed)
  {
    assert (exists p :: 0 <= p < |db.rows| && LiveReversal(db.rows, p, i)) <==>
           (exists p :: 0 <= p < |db.rows| && db.rows[p].reversalOf == Some(i) && db.rows[p].status != TxStatus.Failed) by {
      if p :| 0 <= p < |db.rows| && db.rows[p].reversalOf == Some(i) && db.rows[p].status != TxStatus.Failed {
        assert LiveReversal(db.rows, p, i);
      }
    }
  }

  /** For a transfer's DEBIT leg the same holds, and its CREDIT leg must be SUCCESSFUL; a pending pair is written. */
  lemma TransferReversalBeginsIff(db: Db, i: TxId, u: UserId, j: TxId)
    requires i < |db.rows| && db.rows[i].transferId.Some? && db.rows[i].kind == Debit
    requires j < |db.rows| && db.rows[j].kind == Credit && db.rows[j].transferId == db.rows[i].transferId
    ensures var db', mine, theirs := Apply(db, OfWallet(ReversalBegun(i, u, j))), db.rows[i], db.rows[j];
      && (db' != db <==>
            && mine.user == u && mine.reversalOf.None? && mine.status == TxStatus.Successful && theirs.status == TxStatus.Successful
            && (forall d :: 0 <= d < |db.deposits| ==> db.deposits[d].transactionId != Some(i))
            && (forall w :: 0 <= w < |db.withdrawals| ==> db.withdrawals[w].debitTransactionId != i)
            && (forall p :: 0 <= p < |db.rows| && db.rows[p].reversalOf == Some(i) ==> db.rows[p].status == TxStatus.Failed))
      && (db' != db ==>
            db' == db.(rows := db.rows
              + [Transaction(u, Credit, TxStatus.Pending, mine.amount, 0, 0, mine.transferId, Some(i), db.clock, Origin.ReversalRow(mine.origin.BeforeLedger?))]
              + [Transaction(theirs.user, Debit, TxStatus.Pending, theirs.amount, 0, 0, mine.transferId, Some(j), db.clock, Origin.ReversalRow(theirs.origin.BeforeLedger?))]))
  {
    ReversibleMeans(db, i, u);
    hide Reversible;
    assert |BeginTransferReversal(db, i, j).rows| == |db.rows| + if db.rows[j].status == TxStatus.Successful then 2 else 0;
  }

  /** Entry `k` is the first that is about row `o`. */
  predicate FirstAbout(journal: seq<Entry>, k: nat, o: TxId) {
    k < |journal| && journal[k].transactionId == Some(o) && forall i :: 0 <= i < k ==> journal[i].transactionId != Some(o)
  }

  /** Entry `k` is the first with this transfer's reference that is no reversal. */
  predicate FirstOfTransfer(journal: seq<Entry>, k: nat, transfer: nat) {
    && k < |journal| && journal[k].reference == Some(TransferRef(transfer)) && journal[k].kind != ReversalEntry
    && forall i :: 0 <= i < k ==> journal[i].reference != Some(TransferRef(transfer)) || journal[i].kind == ReversalEntry
  }

  /** The last entry takes back, line by line, what `e` says. */
  predicate OneMirror(db: Db, db': Db, e: Entry, about: TxId) {
    && |db'.journal| == |db.journal| + 1 && db'.journal[..|db.journal|] == db.journal
    && var m := db'.journal[|db.journal|];
       && m.kind == ReversalEntry && m.reference == e.reference && m.transactionId == Some(about) && m.createdAt == db.clock
       && |m.lines| == |e.lines|
       && forall i :: 0 <= i < |e.lines| ==> m.lines[i].account == e.lines[i].account && m.lines[i].amount == -e.lines[i].amount
  }

  /**
   * A pending reversal of one row settles exactly when its wallet exists and can bear it. Then the wallet moves, the
   * reversal is settled, the row it takes back is REVERSED, and the entry of that row is mirrored, or, where there
   * is none, one against the opening balances is posted; otherwise only the reversal fails.
   */
  lemma SingleReversalSettlesIff(db: Db, p: TxId, k: nat)
    requires p < |db.rows| && db.rows[p].status == TxStatus.Pending && db.rows[p].transferId.None?
    requires db.rows[p].reversalOf.Some? && db.rows[p].reversalOf.value < p
    ensures var db', row, o := Apply(db, OfWallet(ReversalSettled(p))), db.rows[p], db.rows[p].reversalOf.value;
      && |db'.rows| == |db.rows|
      && (db'.rows[p].status == TxStatus.Successful <==> row.user in db.wallets && (row.kind == Debit ==> row.amount <= db.wallets[row.user]))
      && (db'.rows[p].status == TxStatus.Successful ==>
            var after := if row.kind == Credit then db.wallets[row.user] + row.amount else db.wallets[row.user] - row.amount;
            && db'.wallets == db.wallets[row.user := after]
            && db'.rows == db.rows[p := row.(status := TxStatus.Successful, balanceBefore := db.wallets[row.user], balanceAfter := after)]
                                  [o := db.rows[o].(status := TxStatus.Reversed)]
            && (FirstAbout(db.journal, k, o) ==> OneMirror(db, db', db.journal[k], p))
            && ((forall i :: 0 <= i < |db.journal| ==> db.journal[i].transactionId != Some(o)) ==>
                  OneEntry(db, db', ReversalEntry, if row.kind == Credit then OpeningBalances else Wallet(row.user),
                           if row.kind == Credit then Wallet(row.user) else OpeningBalances, row.amount, p)))
      && (db'.rows[p].status != TxStatus.Successful ==> db' == db.(rows := db.rows[p := row.(status := TxStatus.Failed)]))
  {
    var o := db.rows[p].reversalOf.value;
    FoundAbout(db.journal, k, o);
    hide FindEntry, FindByTransaction;
  }

  lemma {:induction false} FoundAbout(journal: seq<Entry>, k: nat, o: TxId)
    ensures FirstAbout(journal, k, o) ==> FindByTransaction(journal, o) == Some(k)
    ensures (forall i :: 0 <= i < |journal| ==> journal[i].transactionId != Some(o)) ==> FindByTransaction(journal, o).None?
  {
    if FirstAbout(journal, k, o) {
      FirstIsFound(journal, e => ForTransaction(e, o), k);
    }
  }

  lemma FoundOfTransfer(journal: seq<Entry>, k: nat, t: nat)
    ensures FirstOfTransfer(journal, k, t) ==> FindByTransfer(journal, t) == Some(k)
    ensures (forall i :: 0 <= i < |journal| ==> journal[i].reference != Some(TransferRef(t)) || journal[i].kind == ReversalEntry) ==>
              FindByTransfer(journal, t).None?
  {
    if FirstOfTransfer(journal, k, t) {
      FirstIsFound(journal, e => ForTransfer(e, t), k);
    }
  }

  lemma {:induction false} FirstIsFound(journal: seq<Entry>, p: Entry -> bool, k: nat)
    requires k < |journal| && p(journal[k]) && forall i :: 0 <= i < k ==> !p(journal[i])
    ensures FindEntry(journal, p) == Some(k)
  {
    var n := |journal| - 1;
    if k < n {
      FirstIsFound(journal[..n], p, k);
    }
  }

  /**
   * A pending transfer reversal settles exactly when both wallets exist and the receiver's holds the amount. Then it
   * goes back to the sender, the pair is settled and both legs are REVERSED, and the transfer's entry is mirrored,
   * or, where there is none, one from receiver to sender is posted; otherwise only the pair fails.
   */
  lemma TransferReversalSettlesIff(db: Db, p: TxId, k: nat)
    requires p + 1 < |db.rows| && db.rows[p].status == TxStatus.Pending && db.rows[p + 1].status == TxStatus.Pending
    requires db.rows[p].kind == Credit && db.rows[p + 1].kind == Debit && db.rows[p].user != db.rows[p + 1].user
    requires db.rows[p].transferId.Some? && db.rows[p + 1].transferId == db.rows[p].transferId && db.rows[p].amount == db.rows[p + 1].amount
    requires db.rows[p].reversalOf.Some? && db.rows[p + 1].reversalOf.Some?
    requires db.rows[p].reversalOf.value < p && db.rows[p + 1].reversalOf.value < p && db.rows[p].reversalOf != db.rows[p + 1].reversalOf
    ensures var db', back, out := Apply(db, OfWallet(TransferReversalSettled(p))), db.rows[p], db.rows[p + 1];
      var i, j, t := back.reversalOf.value, out.reversalOf.value, back.transferId.value;
      && |db'.rows| == |db.rows|
      && (db'.rows[p].status == TxStatus.Successful <==>
            back.user in db.wallets && out.user in db.wallets && out.amount <= db.wallets[out.user])
      && (db'.rows[p].status == TxStatus.Successful ==>
            && db'.wallets == db.wallets[back.user := db.wallets[back.user] + back.amount][out.user := db.wallets[out.user] - back.amount]
            && db'.rows == db.rows
                 [p := back.(status := TxStatus.Successful, balanceBefore := db.wallets[back.user], balanceAfter := db.wallets[back.user] + back.amount)]
                 [p + 1 := out.(status := TxStatus.Successful, balanceBefore := db.wallets[out.user], balanceAfter := db.wallets[out.user] - back.amount)]
                 [i := db.rows[i].(status := TxStatus.Reversed)][j := db.rows[j].(status := TxStatus.Reversed)]
            && (FirstOfTransfer(db.journal, k, t) ==> OneMirror(db, db', db.journal[k], p))
            && ((forall e :: 0 <= e < |db.journal| ==> db.journal[e].reference != Some(TransferRef(t)) || db.journal[e].kind == ReversalEntry) ==>
                  OneEntry(db, db', ReversalEntry, Wallet(out.user), Wallet(back.user), back.amount, p)))
      && (db'.rows[p].status != TxStatus.Successful ==>
            db' == db.(rows := db.rows[p := back.(status := TxStatus.Failed)][p + 1 := out.(status := TxStatus.Failed)]))
  {
    FoundOfTransfer(db.journal, k, db.rows[p].transferId.value);
    hide FindEntry, FindByTransfer;
  }

  /** A deposit is given up on exactly while it is PENDING, and a start that failed always fails it. */
  lemma GivenUp(db: Db, d: nat)
    requires d < |db.deposits|
    ensures Apply(db, OfPayment(DepositAbandoned(d))) ==
            if db.deposits[d].status == DepositStatus.Pending
            then db.(deposits := db.deposits[d := db.deposits[d].(status := DepositStatus.Abandoned)]) else db
    ensures FailStart(db, d) == db.(deposits := db.deposits[d := db.deposits[d].(status := DepositStatus.Failed)])
  {
  }

  /** The other staff actions write what they say. */
  lemma StaffSets(db: Db, u: UserId, tier: Tier, approvers: set<UserId>, ms: nat)
    ensures Apply(db, OfStaff(TierSet(u, tier))) == if u in db.tiers then db.(tiers := db.tiers[u := tier]) else db
    ensures Apply(db, OfStaff(ApproversSet(approvers))) == db.(approvers := approvers)
    ensures Apply(db, OfStaff(ClockAdvanced(ms))) == db.(clock := db.clock + ms)
  {
  }

  /** A request that gives up fails what it left pending, and moves nothing. */
  lemma GivingUpFails(db: Db, i: TxId)
    requires i < |db.rows| && db.rows[i].status == TxStatus.Pending && db.rows[i].transferId.None?
    ensures Apply(db, OfWallet(RequestGivenUp(i))) == db.(rows := db.rows[i := db.rows[i].(status := TxStatus.Failed)])
  {
  }

  /** And so does one that left a pair pending. */
  lemma PairGivesUp(db: Db, i: TxId)
    requires i + 1 < |db.rows| && db.rows[i].status == TxStatus.Pending && db.rows[i + 1].status == TxStatus.Pending
    requires db.rows[i].transferId.Some? && db.rows[i + 1].transferId == db.rows[i].transferId
    ensures var failed := db.(rows := db.rows[i := db.rows[i].(status := TxStatus.Failed)][i + 1 := db.rows[i + 1].(status := TxStatus.Failed)]);
      && (Begun(db.rows, i) ==> Apply(db, OfWallet(TransferGivenUp(i))) == failed)
      && (db.rows[i].kind == Credit && db.rows[i + 1].kind == Debit && db.rows[i].reversalOf.Some? && db.rows[i + 1].reversalOf.Some?
          && db.rows[i].reversalOf.value < i && db.rows[i + 1].reversalOf.value < i ==>
            Apply(db, OfWallet(TransferReversalGivenUp(i))) == failed)
  {
  }

  /** An account is opened once, in the first tier and with nothing in its wallet. */
  lemma AccountOpens(db: Db, u: UserId)
    ensures Apply(db, OfStaff(AccountOpened(u))) ==
            if u in db.tiers || u in db.wallets then db else db.(tiers := db.tiers[u := Tier1], wallets := db.wallets[u := 0])
  {
  }
}
