/** What the invariant means for chains of balances, refunds, adjustments and statuses. */
module Guarantees {
  import opened Basics
  import opened Tables
  import opened Steps
  import opened Invariants
  import opened AccountProofs
  import opened Runs

  // ---------- The chain of balances ----------

  /** The last commit before `n` that settled a row of `u`. */
  function LastCommit(rows: seq<Transaction>, commits: seq<TxId>, u: UserId, n: nat): (r: Option<nat>)
    requires CommitsInRange(rows, commits) && n <= |commits|
    ensures r.Some? ==> r.value < n && rows[commits[r.value]].user == u
                        && forall e :: r.value < e < n ==> rows[commits[e]].user != u
    ensures r.None? ==> forall e :: 0 <= e < n ==> rows[commits[e]].user != u
  {
    if n == 0 then None
    else if rows[commits[n - 1]].user == u then Some(n - 1)
    else LastCommit(rows, commits, u, n - 1)
  }

  lemma {:induction false} ChainEndIsLast(rows: seq<Transaction>, commits: seq<TxId>, u: UserId, start: int, n: nat)
    requires CommitsInRange(rows, commits) && n <= |commits|
    ensures var last := LastCommit(rows, commits, u, n);
      ChainEnd(rows, commits[..n], u, start) == if last.Some? then rows[commits[last.value]].balanceAfter else start
  {
    if n > 0 {
      assert commits[..n][..n - 1] == commits[..n - 1];
      ChainEndIsLast(rows, commits, u, start, n - 1);
    }
  }

  lemma {:induction false} ChainLink(rows: seq<Transaction>, commits: seq<TxId>, u: UserId, start: int, c: nat)
    requires CommitsInRange(rows, commits) && Chained(rows, commits, u, start)
    requires c < |commits| && rows[commits[c]].user == u
    ensures rows[commits[c]].balanceBefore == ChainEnd(rows, commits[..c], u, start)
    ensures rows[commits[c]].balanceAfter == rows[commits[c]].balanceBefore + Signed(rows[commits[c]])
  {
    var n := |commits| - 1;
    if c < n {
      assert commits[..n][..c] == commits[..c];
      ChainLink(rows, commits[..n], u, start, c);
    }
  }

  /**
   * In commit order each wallet's settled rows form an unbroken chain: a row starts from the balance
   * the previous one left (or the opening balance), moves it by plus or minus its amount, and the
   * last one leaves the stored balance.
   */
  lemma SettledRowsChain(start: Db, actions: seq<Action>, u: UserId, c: nat)
    requires Inv(start)
    ensures var db := Run(start, actions);
      && CommitsComplete(db.rows, db.commits)
      && (c < |db.commits| && db.rows[db.commits[c]].user == u ==>
            var row := db.rows[db.commits[c]];
            var previous := LastCommit(db.rows, db.commits, u, c);
            && row.balanceBefore == (if previous.Some? then db.rows[db.commits[previous.value]].balanceAfter else OpeningAmount(db.journal, u))
            && row.balanceAfter == row.balanceBefore + Signed(row))
      && (var last := LastCommit(db.rows, db.commits, u, |db.commits|);
          Stored(db.wallets, u) == if last.Some? then db.rows[db.commits[last.value]].balanceAfter else OpeningAmount(db.journal, u))
  {
    RunKeepsInv(start, actions);
    var db := Run(start, actions);
    ChainReading(db, u, c);
  }

  lemma ChainReading(db: Db, u: UserId, c: nat)
    requires BalancesChained(db)
    ensures c < |db.commits| && db.rows[db.commits[c]].user == u ==>
              var row := db.rows[db.commits[c]];
              var previous := LastCommit(db.rows, db.commits, u, c);
              && row.balanceBefore == (if previous.Some? then db.rows[db.commits[previous.value]].balanceAfter else OpeningAmount(db.journal, u))
              && row.balanceAfter == row.balanceBefore + Signed(row)
    ensures var last := LastCommit(db.rows, db.commits, u, |db.commits|);
      Stored(db.wallets, u) == if last.Some? then db.rows[db.commits[last.value]].balanceAfter else OpeningAmount(db.journal, u)
  {
    var opening := OpeningAmount(db.journal, u);
    assert db.commits[..|db.commits|] == db.commits;
    ChainEndIsLast(db.rows, db.commits, u, opening, |db.commits|);
    if c < |db.commits| && db.rows[db.commits[c]].user == u {
      ChainLink(db.rows, db.commits, u, opening, c);
      ChainEndIsLast(db.rows, db.commits, u, opening, c);
    }
  }

  // ---------- Refunds ----------

  /** `r` gives withdrawal `w`'s money back. */
  predicate RefundRow(db: Db, w: nat, r: int)
    requires w < |db.withdrawals|
  {
    LiveReversal(db.rows, r, db.withdrawals[w].debitTransactionId)
  }

  /** A refund exists exactly when the withdrawal is FAILED or REVERSED; it is one row, for its amount. */
  lemma RefundedExactlyOnce(start: Db, actions: seq<Action>, w: nat)
    requires Inv(start) && w < |Run(start, actions).withdrawals|
    ensures var db := Run(start, actions);
      var wd := db.withdrawals[w];
      && (Refunded(wd.status) <==> exists r: nat :: RefundRow(db, w, r))
      && (forall r: nat, s: nat :: RefundRow(db, w, r) && RefundRow(db, w, s) ==> r == s)
      && (forall r: nat :: RefundRow(db, w, r) ==>
            LinkedRow(db.rows, r, wd.user, Credit, wd.amount) && db.rows[r].status == TxStatus.Successful)
  {
    RunKeepsInv(start, actions);
    RefundReading(Run(start, actions), w);
  }

  lemma RefundReading(db: Db, w: nat)
    requires WithdrawalsLinked(db.rows, db.withdrawals) && w < |db.withdrawals|
    ensures Refunded(db.withdrawals[w].status) <==> exists r: nat :: RefundRow(db, w, r)
    ensures forall r: nat, s: nat :: RefundRow(db, w, r) && RefundRow(db, w, s) ==> r == s
    ensures forall r: nat :: RefundRow(db, w, r) ==>
              LinkedRow(db.rows, r, db.withdrawals[w].user, Credit, db.withdrawals[w].amount) && db.rows[r].status == TxStatus.Successful
  {
    var wd := db.withdrawals[w];
    assert WithdrawalOk(db.rows, db.withdrawals, w);
    forall r: nat | RefundRow(db, w, r) ensures wd.refundTransactionId == Some(r) {
      assert LiveReversal(db.rows, r, wd.debitTransactionId);
    }
    if Refunded(wd.status) {
      assert RefundRow(db, w, wd.refundTransactionId.value);
    }
  }

  // ---------- Statuses only move forward ----------

  function DepositRank(s: DepositStatus): nat {
    if s == DepositStatus.Pending then 0 else 1
  }

  function WithdrawalRank(s: WithdrawalStatus): nat {
    match s
    case Processing => 0
    case Successful => 1
    case Failed => 2
    case Reversed => 2
  }

  function AdjustmentRank(s: AdjustmentStatus): nat {
    if s == AdjustmentStatus.Pending then 0 else 1
  }

  ghost predicate DepositsForward(a: seq<Deposit>, b: seq<Deposit>) {
    |a| <= |b| && forall d :: 0 <= d < |a| ==> b[d].status == a[d].status || DepositRank(a[d].status) < DepositRank(b[d].status)
  }

  ghost predicate WithdrawalsForward(a: seq<Withdrawal>, b: seq<Withdrawal>) {
    |a| <= |b| && forall w :: 0 <= w < |a| ==> b[w].status == a[w].status || WithdrawalRank(a[w].status) < WithdrawalRank(b[w].status)
  }

  ghost predicate AdjustmentsForward(a: seq<Adjustment>, b: seq<Adjustment>) {
    |a| <= |b| && forall i :: 0 <= i < |a| ==> b[i].status == a[i].status || AdjustmentRank(a[i].status) < AdjustmentRank(b[i].status)
  }

  /** No status goes back, and none changes without climbing. */
  ghost predicate StatusesForward(db: Db, db': Db) {
    && DepositsForward(db.deposits, db'.deposits)
    && WithdrawalsForward(db.withdrawals, db'.withdrawals)
    && AdjustmentsForward(db.adjustments, db'.adjustments)
  }

  lemma RefundForward(db: Db, w: nat, outcome: WithdrawalStatus)
    requires HasPayout(db, w) && Refunded(outcome)
    ensures StatusesForward(db, RefundWithdrawal(db, w, outcome))
  {
  }

  lemma AnswerForward(db: Db, w: nat, answer: TransferAnswer)
    requires HasPayout(db, w)
    ensures StatusesForward(db, SendTransfer(db, w, answer)) && StatusesForward(db, ConfirmWithdrawal(db, w, answer))
  {
    assert StatusesForward(db, db) && StatusesForward(db, MarkSuccessful(db, w));
    hide StatusesForward, MarkSuccessful, RefundWithdrawal;
    RefundForward(db, w, WithdrawalStatus.Failed);
    RefundForward(db, w, WithdrawalStatus.Reversed);
  }

  lemma PaymentForward(db: Db, action: PaymentAction)
    ensures StatusesForward(db, ApplyPayment(db, action))
  {
    match action
    case PayoutSent(w, answer) => if HasPayout(db, w) { hide StatusesForward; AnswerForward(db, w, answer); }
    case WithdrawalConfirmed(w, answer) => if HasPayout(db, w) { hide StatusesForward; AnswerForward(db, w, answer); }
    case _ =>
  }

  lemma WalletForward(db: Db, action: WalletAction)
    ensures var db' := ApplyWallet(db, action);
      db'.deposits == db.deposits && db'.withdrawals == db.withdrawals && db'.adjustments == db.adjustments
  {
  }

  lemma StaffForward(db: Db, action: StaffAction)
    ensures StatusesForward(db, ApplyStaff(db, action))
  {
  }

  lemma StepMovesForward(db: Db, action: Action)
    ensures StatusesForward(db, Apply(db, action))
  {
    match action
    case OfWallet(w) => WalletForward(db, w);
    case OfPayment(p) => PaymentForward(db, p);
    case OfStaff(s) => StaffForward(db, s);
  }

  lemma {:induction false} RunMovesForward(start: Db, actions: seq<Action>)
    ensures StatusesForward(start, Run(start, actions))
  {
    if actions != [] {
      RunMovesForward(start, actions[..|actions| - 1]);
      StepMovesForward(Run(start, actions[..|actions| - 1]), actions[|actions| - 1]);
    }
  }

  function RowRank(s: TxStatus): nat {
    match s
    case Pending => 0
    case Successful => 1
    case Failed => 2
    case Reversed => 2
  }

  predicate RowForward(a: Transaction, b: Transaction) {
    SameIdentity(a, b) && (b.status == a.status || RowRank(a.status) < RowRank(b.status))
  }

  lemma StepEvolvesRows(db: Db, action: Action)
    requires Inv(db)
    ensures RowsEvolve(db.rows, Apply(db, action).rows)
  {
    hide Inv, Apply, SameGaps, RowsEvolve;
    StepKeepsInv(db, action);
  }

  /** No row is ever dropped, rewritten or moved back: FAILED and REVERSED are final. */
  lemma {:induction false} RowsMoveForward(start: Db, actions: seq<Action>)
    requires Inv(start)
    ensures |start.rows| <= |Run(start, actions).rows|
    ensures forall i :: 0 <= i < |start.rows| ==> RowForward(start.rows[i], Run(start, actions).rows[i])
  {
    hide Inv, Apply, SameGaps;
    if actions != [] {
      var n := |actions| - 1;
      var before, after := Run(start, actions[..n]), Run(start, actions);
      RunKeepsInv(start, actions[..n]);
      RowsMoveForward(start, actions[..n]);
      StepEvolvesRows(before, actions[n]);
      forall i | 0 <= i < |start.rows| ensures RowForward(start.rows[i], after.rows[i]) {
        assert RowForward(start.rows[i], before.rows[i]) && RowStep(before.rows[i], after.rows[i]);
      }
    }
  }

  // ---------- Adjustments ----------

  /** An adjustment is written on one row with one entry exactly when it is APPROVED. */
  lemma {:induction false} AdjustmentMovesMoneyOnce(start: Db, actions: seq<Action>, a: nat)
    requires Inv(start) && a < |Run(start, actions).adjustments|
    ensures var db := Run(start, actions);
      var adj := db.adjustments[a];
      && (adj.status == AdjustmentStatus.Approved <==> exists i: nat :: WrittenFor(db, a, i))
      && (forall i: nat, j: nat :: WrittenFor(db, a, i) && WrittenFor(db, a, j) ==> i == j)
      && (forall i: nat :: WrittenFor(db, a, i) ==>
            && LinkedRow(db.rows, i, adj.user, adj.direction, adj.amount)
            && (exists k :: 0 <= k < |db.journal| && PostedFor(db, i, k))
            && (forall k, m :: 0 <= k < m < |db.journal| && db.journal[k].transactionId == Some(i) ==> db.journal[m].transactionId != Some(i))
            && (db.rows[i].status == TxStatus.Successful || db.rows[i].status == TxStatus.Reversed))
  {
    RunKeepsInv(start, actions);
    AdjustmentReading(Run(start, actions), a);
  }

  /** Entry `k` books row `i` against the adjustments account. */
  predicate PostedFor(db: Db, i: nat, k: nat)
    requires i < |db.rows| && k < |db.journal|
  {
    db.journal[k].transactionId == Some(i) && db.journal[k].kind == AdjustmentEntry && db.journal[k].lines == SideLines(db.rows[i], Adjustments)
  }

  predicate WrittenFor(db: Db, a: nat, i: nat) {
    i < |db.rows| && db.rows[i].origin == Origin.AdjustmentRow(a)
  }

  lemma AdjustmentReading(db: Db, a: nat)
    requires RowsOk(db) && AdjustmentsLinked(db.rows, db.adjustments) && Posted(db) && a < |db.adjustments|
    ensures var adj := db.adjustments[a];
      && (adj.status == AdjustmentStatus.Approved <==> exists i: nat :: WrittenFor(db, a, i))
      && (forall i: nat, j: nat :: WrittenFor(db, a, i) && WrittenFor(db, a, j) ==> i == j)
      && (forall i: nat :: WrittenFor(db, a, i) ==>
            && LinkedRow(db.rows, i, adj.user, adj.direction, adj.amount)
            && (exists k :: 0 <= k < |db.journal| && PostedFor(db, i, k))
            && (forall k, m :: 0 <= k < m < |db.journal| && db.journal[k].transactionId == Some(i) ==> db.journal[m].transactionId != Some(i))
            && (db.rows[i].status == TxStatus.Successful || db.rows[i].status == TxStatus.Reversed))
  {
    var adj := db.adjustments[a];
    assert AdjustmentOk(db.rows, db.adjustments, a);
    forall i: nat | WrittenFor(db, a, i)
      ensures adj.transactionId == Some(i) && Settled(db.rows[i]) && exists k :: 0 <= k < |db.journal| && PostedFor(db, i, k)
    {
      assert RowOk(db.rows, i, db.transfers, db.ledgerStart, db.clock);
      AdjustmentRowIsPosted(db, i);
    }
    assert PostedOnce(db.rows, db.journal);
    hide RowsOk, Posted, PostedOnce, PostedFor;
    if adj.status == AdjustmentStatus.Approved {
      assert WrittenFor(db, a, adj.transactionId.value);
    }
  }

  lemma AdjustmentRowIsPosted(db: Db, i: nat)
    requires Posted(db) && i < |db.rows| && db.rows[i].origin.AdjustmentRow? && Settled(db.rows[i])
    ensures exists k :: 0 <= k < |db.journal| && PostedFor(db, i, k)
  {
    assert NeedsEntry(db.rows[i]);
    assert HasEntry(db.journal, i);
    var k :| 0 <= k < |db.journal| && db.journal[k].transactionId == Some(i);
    assert EntryOk(db.rows, db.journal[k], db.ledgerStart);
    assert PostedFor(db, i, k);
  }

  /** `db'` is `db` with one more settled movement of `amount`, booked on the wallet and against the adjustments account. */
  predicate AdjustedBy(db: Db, db': Db, u: UserId, direction: TxType, amount: int) {
    var change := if direction == Credit then amount else -amount;
    && u in db.wallets && db'.wallets == db.wallets[u := db.wallets[u] + change] && 0 <= db'.wallets[u]
    && |db'.rows| == |db.rows| + 1 && db'.rows[..|db.rows|] == db.rows
    && |db'.journal| == |db.journal| + 1 && db'.journal[..|db.journal|] == db.journal
    && PostedFor(db', |db.rows|, |db.journal|)
    && var row := db'.rows[|db.rows|];
       && row.user == u && row.kind == direction && row.amount == amount && row.status == TxStatus.Successful
       && row.balanceBefore == db.wallets[u] && row.balanceAfter == db'.wallets[u]
  }

  /** A small request never waits: one attempt leaves it APPROVED with exactly its money moved, or REJECTED with none. */
  lemma SmallAdjustmentIsDecided(db: Db, a: nat)
    requires Inv(db) && a < |db.adjustments| && db.adjustments[a].amount <= APPROVAL_THRESHOLD
    requires db.adjustments[a].status == AdjustmentStatus.Pending
    ensures var db' := ApplySmallAdjustment(db, a);
      && db'.adjustments[a].status == (if CanApply(db, a) then AdjustmentStatus.Approved else AdjustmentStatus.Rejected)
      && db'.adjustments[a].decidedBy == Some(db.adjustments[a].requestedBy)
      && (!CanApply(db, a) ==> db'.wallets == db.wallets && db'.rows == db.rows && db'.journal == db.journal)
      && (CanApply(db, a) ==>
            && AdjustedBy(db, db', db.adjustments[a].user, db.adjustments[a].direction, db.adjustments[a].amount)
            && db'.adjustments[a].transactionId == Some(|db.rows|))
  {
    assert Balances(db);
    assert forall u :: u in db.wallets ==> 0 <= db.wallets[u];
    hide Inv;
  }

  /** At the moment of `action`, nobody but `admin` could approve adjustment `a`, and `admin` approves it. */
  predicate SoloApproval(db: Db, action: Action, a: nat, admin: UserId) {
    action == OfStaff(AdjustmentApproved(a, admin)) && (forall v :: v in db.approvers ==> v == admin)
  }

  /** Only staff actions touch adjustments. */
  lemma PaymentLeavesAdjustments(db: Db, action: PaymentAction)
    ensures ApplyPayment(db, action).adjustments == db.adjustments
  {
  }

  /** What one step can do to an adjustment that exists before it. */
  lemma AdjustmentStep(db: Db, action: Action, a: nat)
    requires a < |db.adjustments|
    ensures a < |Apply(db, action).adjustments|
    ensures var before, after := db.adjustments[a], Apply(db, action).adjustments[a];
      && after.amount == before.amount && after.requestedBy == before.requestedBy
      && (before.status != AdjustmentStatus.Pending ==> after == before)
      && (before.status == AdjustmentStatus.Pending && after.status == AdjustmentStatus.Approved ==>
            || after.amount <= APPROVAL_THRESHOLD
            || (after.decidedBy.Some? && after.decidedBy != Some(after.requestedBy))
            || SoloApproval(db, action, a, after.requestedBy))
  {
    match action
    case OfWallet(w) => WalletForward(db, w);
    case OfPayment(p) => PaymentLeavesAdjustments(db, p);
    case OfStaff(s) =>
  }

  lemma NewAdjustmentIsPending(db: Db, action: Action, a: nat)
    requires |db.adjustments| <= a < |Apply(db, action).adjustments|
    ensures Apply(db, action).adjustments[a].status == AdjustmentStatus.Pending
  {
    match action
    case OfWallet(w) => WalletForward(db, w);
    case OfPayment(p) => PaymentLeavesAdjustments(db, p);
    case OfStaff(s) =>
  }

  /**
   * The two-person rule over a whole run: an APPROVED adjustment above the threshold was decided by
   * someone other than its requester, unless at the moment of approval there was nobody else.
   */
  lemma {:induction false} TwoPersonRule(start: Db, actions: seq<Action>, a: nat)
    requires start.adjustments == [] && a < |Run(start, actions).adjustments|
    requires Run(start, actions).adjustments[a].status == AdjustmentStatus.Approved
    requires APPROVAL_THRESHOLD < Run(start, actions).adjustments[a].amount
    ensures var adj := Run(start, actions).adjustments[a];
      || (adj.decidedBy.Some? && adj.decidedBy.value != adj.requestedBy)
      || exists k :: 0 <= k < |actions| && SoloApproval(Run(start, actions[..k]), actions[k], a, adj.requestedBy)
  {
    if actions != [] {
      var n := |actions| - 1;
      var before, adj := Run(start, actions[..n]), Run(start, actions).adjustments[a];
      if |before.adjustments| <= a {
        NewAdjustmentIsPending(before, actions[n], a);
      } else {
        AdjustmentStep(before, actions[n], a);
        if before.adjustments[a].status == AdjustmentStatus.Approved {
          TwoPersonRule(start, actions[..n], a);
          if k :| 0 <= k < n && SoloApproval(Run(start, actions[..n][..k]), actions[..n][k], a, adj.requestedBy) {
            assert actions[..n][..k] == actions[..k];
            assert SoloApproval(Run(start, actions[..k]), actions[k], a, adj.requestedBy);
          }
        } else {
          AdjustmentRankStays(before, actions[n], a);
          assert (adj.decidedBy.Some? && adj.decidedBy.value != adj.requestedBy)
            || SoloApproval(Run(start, actions[..n]), actions[n], a, adj.requestedBy);
        }
      }
    }
  }

  lemma AdjustmentRankStays(db: Db, action: Action, a: nat)
    requires a < |db.adjustments| && a < |Apply(db, action).adjustments|
    requires Apply(db, action).adjustments[a].status == AdjustmentStatus.Approved
    requires db.adjustments[a].status != AdjustmentStatus.Approved
    ensures db.adjustments[a].status == AdjustmentStatus.Pending
  {
    StepMovesForward(db, action);
  }
}
