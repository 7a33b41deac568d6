/** Deposits and withdrawals through Paystack, call by call, with its answers as parameters. */
module PaymentServices {
  import opened Basics
  import opened Tables
  import opened Limits
  import opened Steps
  import opened Runs
  import opened Guarantees
  import opened Confirmations
  import opened Webhooks
  import opened BusyLocks
  import opened Database

  // ---------- Deposits ----------

  /**
   * The deposit is recorded and then Paystack is asked for a checkout link; `meanwhile` is what
   * everybody else does until it answers, `later` what they leave, and `started` whether there is a link.
   */
  method StartDeposit(db: Store, u: UserId, amount: Amount, ghost meanwhile: seq<Action>, later: Db, started: bool) returns (r: Result<nat, Failure>)
    requires later == Run(CreateDeposit(db.State(), u, amount), meanwhile)
    modifies db
    ensures CheckReceive(old(db.State()), u, amount).Some? ==> db.State() == old(db.State())
    ensures CheckReceive(old(db.State()), u, amount).None? ==>
              var d := |old(db.deposits)|;
              d < |later.deposits| && db.State() == if started then later else FailStart(later, d)
    ensures r == if CheckReceive(old(db.State()), u, amount).Some? then Err(OverTheLimit(CheckReceive(old(db.State()), u, amount).value))
                 else if started then Ok(|old(db.deposits)|) else Err(NoAnswerFromPaystack)
  {
    var refused := db.AssertCanReceive(u, amount);
    if refused.Some? {
      return Err(OverTheLimit(refused.value));
    }
    var d := |db.deposits|;
    db.deposits := db.deposits + [Deposit(u, amount, DepositStatus.Pending, None, db.clock)];
    assert db.State() == CreateDeposit(old(db.State()), u, amount);
    OthersAct(db, meanwhile, later);
    if !started {
      db.deposits := db.deposits[d := db.deposits[d].(status := DepositStatus.Failed)];
      return Err(NoAnswerFromPaystack);
    }
    r := Ok(d);
  }

  lemma {:induction false} LedgerStartStays(db: Db, actions: seq<Action>)
    ensures Run(db, actions).ledgerStart == db.ledgerStart
  {
    if actions != [] {
      LedgerStartStays(db, actions[..|actions| - 1]);
      StepKeepsLedgerStart(Run(db, actions[..|actions| - 1]), actions[|actions| - 1]);
    }
  }

  lemma StepKeepsLedgerStart(db: Db, action: Action)
    ensures Apply(db, action).ledgerStart == db.ledgerStart
  {
    hide ApplyWallet, ApplyPayment, ApplyStaff;
    match action
    case OfWallet(w) => WalletKeepsLedgerStart(db, w);
    case OfPayment(p) => PaymentKeepsLedgerStart(db, p);
    case OfStaff(s) => StaffKeepsLedgerStart(db, s);
  }

  lemma WalletKeepsLedgerStart(db: Db, action: WalletAction)
    ensures ApplyWallet(db, action).ledgerStart == db.ledgerStart
  {
  }

  lemma PaymentKeepsLedgerStart(db: Db, action: PaymentAction)
    ensures ApplyPayment(db, action).ledgerStart == db.ledgerStart
  {
  }

  lemma StaffKeepsLedgerStart(db: Db, action: StaffAction)
    ensures ApplyStaff(db, action).ledgerStart == db.ledgerStart
  {
  }

  /** Other requests, and time, move the database on. */
  method OthersAct(db: Store, ghost actions: seq<Action>, later: Db)
    requires later == Run(db.State(), actions)
    modifies db
    ensures db.State() == later
    ensures |old(db.deposits)| <= |db.deposits|
  {
    RunMovesForward(db.State(), actions);
    LedgerStartStays(db.State(), actions);
    hide Run;
    db.wallets, db.rows, db.journal, db.deposits, db.withdrawals, db.adjustments :=
      later.wallets, later.rows, later.journal, later.deposits, later.withdrawals, later.adjustments;
    db.tiers, db.approvers, db.transfers, db.commits, db.clock := later.tiers, later.approvers, later.transfers, later.commits, later.clock;
  }

  /** Claims the deposit and credits its wallet; `thrown` when there is no wallet or its lock is busy. */
  method Settle(db: Store, d: nat, busy: bool) returns (thrown: bool)
    requires d < |db.deposits|
    modifies db
    ensures db.State() == if busy then old(db.State()) else SettleDeposit(old(db.State()), d)
    ensures thrown <==> busy || (old(db.deposits)[d].status == DepositStatus.Pending && old(db.deposits)[d].user !in old(db.wallets))
  {
    if busy {
      return true;
    }
    var dep := db.deposits[d];
    if dep.status != DepositStatus.Pending {
      return false;
    }
    if dep.user !in db.wallets {
      return true;
    }
    var i := db.CreateRow(Transaction(dep.user, Credit, TxStatus.Pending, dep.amount, 0, 0, None, None, db.clock, Origin.DepositCredit(d)));
    db.Book(i);
    db.deposits := db.deposits[d := dep.(status := DepositStatus.Successful, transactionId := Some(i))];
    db.Post(DepositEntry, dep.amount, PaystackClearing, Wallet(dep.user), Some(DepositRef(d)), Some(i));
    thrown := false;
  }

  method MarkFailed(db: Store, d: nat)
    requires d < |db.deposits|
    modifies db
    ensures db.State() == FailDeposit(old(db.State()), d)
  {
    if db.deposits[d].status == DepositStatus.Pending {
      db.deposits := db.deposits[d := db.deposits[d].(status := DepositStatus.Failed)];
    }
  }

  /** Asks Paystack about a deposit and acts on the answer. */
  method CheckDeposit(db: Store, d: nat, payment: Payment, busy: bool) returns (r: Result<DepositStatus, Failure>)
    modifies db
    ensures r == Err(PaymentNotFound) <==> |old(db.deposits)| <= d
    ensures |old(db.deposits)| <= d ==> db.State() == old(db.State())
    ensures d < |old(db.deposits)| ==> db.State() == ConfirmDeposit(old(db.State()), d, HeardPayment(old(db.State()), d, payment, busy))
    ensures d < |old(db.deposits)| ==> |db.deposits| == |old(db.deposits)|
    ensures d < |old(db.deposits)| ==> (r.Err? <==> CheckThrows(old(db.State()), d, HeardPayment(old(db.State()), d, payment, busy)))
    ensures r == Err(LockBusy) ==> busy
    ensures d < |old(db.deposits)| && r.Ok? ==> r.value == db.deposits[d].status
    ensures d < |old(db.deposits)| && old(db.deposits)[d].status == DepositStatus.Pending ==>
              var dep := old(db.deposits)[d];
              var same := payment.reference == d && payment.amount == dep.amount && payment.inNaira;
              && (r == Ok(DepositStatus.Successful) <==> payment.status == PaidUp && same && !busy && dep.user in old(db.wallets))
              && (r == Ok(DepositStatus.Failed) <==>
                    payment.status == PaymentFailed || payment.status == PaymentReversed || (payment.status == PaidUp && !same))
              && (r == Ok(DepositStatus.Pending) <==> payment.status == PaymentOpen)
              && (r == Err(NoAnswerFromPaystack) <==> payment.status == PaymentUnreachable)
              && (r == Err(LockBusy) <==> payment.status == PaidUp && same && busy)
              && (r == Err(WalletNotFound) <==> payment.status == PaidUp && same && !busy && dep.user !in old(db.wallets))
              && (r == Ok(DepositStatus.Successful) ==>
                    db.wallets == old(db.wallets)[dep.user := old(db.wallets)[dep.user] + payment.amount])
  {
    if |db.deposits| <= d {
      return Err(PaymentNotFound);
    }
    var dep := db.deposits[d];
    if dep.status != DepositStatus.Pending {
      return Ok(dep.status);
    }
    if payment.status == PaymentUnreachable {
      return Err(NoAnswerFromPaystack);
    }
    if payment.status == PaidUp {
      if payment.reference != d || payment.amount != dep.amount || !payment.inNaira {
        MarkFailed(db, d);
      } else {
        var thrown := Settle(db, d, busy);
        if thrown {
          return Err(if busy then LockBusy else WalletNotFound);
        }
      }
    } else if payment.status == PaymentFailed || payment.status == PaymentReversed {
      MarkFailed(db, d);
    }
    r := Ok(db.deposits[d].status);
  }

  // ---------- Withdrawals ----------

  /**
   * Gives a withdrawal's money back, once; `thrown` when there is no wallet or its lock is busy. `paid` says
   * that somebody marks the withdrawal as paid between the read of its status and its claim: that takes no lock.
   */
  method Refund(db: Store, w: nat, outcome: WithdrawalStatus, busy: bool, paid: bool) returns (thrown: bool)
    requires w < |db.withdrawals| && db.withdrawals[w].debitTransactionId < |db.rows|
    modifies db
    ensures busy ==> db.State() == old(db.State())
    ensures !busy ==> db.State() == RefundWithRead(PaidMeanwhile(old(db.State()), w, paid), w, outcome, old(db.withdrawals)[w].status)
    ensures !busy && !paid ==> db.State() == RefundWithdrawal(old(db.State()), w, outcome)
    ensures thrown <==> busy || RefundThrows(PaidMeanwhile(old(db.State()), w, paid), w, outcome)
  {
    if busy {
      return true;
    }
    var before := db.withdrawals[w].status;
    if paid {
      MarkPaid(db, w);
    }
    var wd := db.withdrawals[w];
    var claimed := wd.status == WithdrawalStatus.Processing || (outcome == WithdrawalStatus.Reversed && wd.status == WithdrawalStatus.Successful);
    if !claimed {
      return false;
    }
    if wd.user !in db.wallets {
      return true;
    }
    hide RefundWithRead, MarkSuccessful;
    GiveBack(db, w, outcome, before);
    thrown := false;
  }

  /** What follows the claim: the debit is taken back, and the wallet credited from where the money is said to be. */
  method GiveBack(db: Store, w: nat, outcome: WithdrawalStatus, before: WithdrawalStatus)
    requires w < |db.withdrawals| && db.withdrawals[w].debitTransactionId < |db.rows|
    requires Claimable(db.withdrawals[w].status, outcome) && db.withdrawals[w].user in db.wallets
    modifies db
    ensures db.State() == RefundWithRead(old(db.State()), w, outcome, before)
  {
    var wd := db.withdrawals[w];
    db.MarkRow(wd.debitTransactionId, TxStatus.Reversed);
    var r := db.CreateRow(Transaction(wd.user, Credit, TxStatus.Pending, wd.amount, 0, 0, None, Some(wd.debitTransactionId), db.clock, Origin.RefundCredit(w)));
    db.Book(r);
    db.withdrawals := db.withdrawals[w := wd.(status := outcome, refundTransactionId := Some(r))];
    db.Post(WithdrawalRefund, wd.amount, if before == WithdrawalStatus.Successful then PaystackClearing else PayoutsInTransit,
            Wallet(wd.user), Some(WithdrawalRef(w)), Some(r));
  }

  function PaidMeanwhile(db: Db, w: nat, paid: bool): Db
    requires w < |db.withdrawals|
  {
    if paid then MarkSuccessful(db, w) else db
  }

  method MarkPaid(db: Store, w: nat)
    requires w < |db.withdrawals|
    modifies db
    ensures db.State() == MarkSuccessful(old(db.State()), w)
  {
    var wd := db.withdrawals[w];
    if wd.status == WithdrawalStatus.Processing {
      db.withdrawals := db.withdrawals[w := wd.(status := WithdrawalStatus.Successful)];
      db.Post(WithdrawalPaid, wd.amount, PayoutsInTransit, PaystackClearing, Some(WithdrawalRef(w)), Some(wd.debitTransactionId));
    }
  }

  method ApplyStatus(db: Store, w: nat, status: TransferStatus, busy: bool) returns (thrown: bool)
    requires w < |db.withdrawals| && db.withdrawals[w].debitTransactionId < |db.rows|
    modifies db
    ensures db.State() == if busy && EndsInRefund(status) then old(db.State()) else ApplyTransferStatus(old(db.State()), w, status)
    ensures thrown <==> (busy && EndsInRefund(status)) || StatusThrows(old(db.State()), w, status)
  {
    thrown := false;
    hide RefundWithdrawal, RefundWithRead, MarkSuccessful;
    match status {
      case TransferSuccess => MarkPaid(db, w);
      case TransferReversed => thrown := Refund(db, w, WithdrawalStatus.Reversed, busy, false);
      case TransferUnderway =>
      case _ => thrown := Refund(db, w, WithdrawalStatus.Failed, busy, false);
    }
  }

  /** Sending ends in a refund. */
  predicate Rejected(answer: TransferAnswer) {
    answer.Refused4xx? || (answer.Reported? && EndsInRefund(answer.status))
  }

  /**
   * Sends the transfer of a fresh withdrawal. Whatever else goes wrong is left to later checks; only a
   * refund after a rejected request throws to the caller.
   */
  method Send(db: Store, w: nat, answer: TransferAnswer, busy: bool) returns (thrown: bool)
    requires w < |db.withdrawals| && db.withdrawals[w].debitTransactionId < |db.rows|
    modifies db
    ensures db.State() == SendTransfer(old(db.State()), w, if busy && Rejected(answer) then NoAnswer else answer)
    ensures thrown <==> answer.Refused4xx? && (busy || RefundThrows(old(db.State()), w, WithdrawalStatus.Failed))
  {
    hide RefundWithdrawal, RefundWithRead, ApplyTransferStatus;
    thrown := false;
    if answer.Reported? {
      var _ := ApplyStatus(db, w, answer.status, busy);
    } else if answer.Refused4xx? {
      thrown := Refund(db, w, WithdrawalStatus.Failed, busy, false);
    }
  }

  /**
   * The debit comes first, and then the transfer. `busy` is about the debit, and `stillBusy` about the
   * refund when Paystack rejects the transfer: then the caller gets an error and the withdrawal stays.
   */
  method Withdraw(db: Store, u: UserId, amount: Amount, answer: TransferAnswer, busy: bool, stillBusy: bool) returns (r: Result<nat, Failure>)
    modifies db
    ensures busy || !CanWithdraw(old(db.State()), u, amount) ==> r.Err? && db.State() == old(db.State()) && (busy <==> r == Err(LockBusy))
    ensures !busy && CanWithdraw(old(db.State()), u, amount) ==>
              var created, w := CreateWithdrawal(old(db.State()), u, amount), |old(db.withdrawals)|;
              && HasPayout(created, w)
              && db.State() == SendTransfer(created, w, if stillBusy && Rejected(answer) then NoAnswer else answer)
              && r == if stillBusy && answer.Refused4xx? then Err(LockBusy) else Ok(w)
    ensures !busy ==> (r == Err(WalletNotFound) <==> u !in old(db.wallets))
    ensures !busy && u in old(db.wallets) ==> (r == Err(InsufficientFunds) <==> old(db.wallets)[u] < amount)
    ensures !busy && u in old(db.wallets) && amount <= old(db.wallets)[u] && !(answer.Refused4xx? && stillBusy) ==>
              var refused := CheckSend(old(db.State()), u, amount);
              r == if refused.Some? then Err(OverTheLimit(refused.value)) else Ok(|old(db.withdrawals)|)
    ensures r.Ok? && (answer == NoAnswer || answer == Missing || answer == Reported(TransferUnderway)) ==>
              && u in old(db.wallets) && amount <= old(db.wallets)[u]
              && db.wallets == old(db.wallets)[u := old(db.wallets)[u] - amount]
              && |db.withdrawals| == |old(db.withdrawals)| + 1 && db.withdrawals[..|old(db.withdrawals)|] == old(db.withdrawals)
              && var wd := db.withdrawals[|old(db.withdrawals)|];
                 wd.user == u && wd.amount == amount && wd.status == WithdrawalStatus.Processing && wd.createdAt == db.clock
  {
    if busy {
      return Err(LockBusy);
    }
    if u !in db.wallets {
      return Err(WalletNotFound);
    }
    if db.wallets[u] < amount {
      return Err(InsufficientFunds);
    }
    var refused := db.AssertCanSend(u, amount);
    if refused.Some? {
      return Err(OverTheLimit(refused.value));
    }
    var w := Debit(db, u, amount);
    ghost var created := db.State();
    hide SendTransfer, CreateWithdrawal;
    var thrown := Send(db, w, answer, stillBusy);
    r := if thrown then Err(LockBusy) else Ok(w);
  }

  method Debit(db: Store, u: UserId, amount: Amount) returns (w: nat)
    requires CanWithdraw(db.State(), u, amount)
    modifies db
    ensures db.State() == CreateWithdrawal(old(db.State()), u, amount)
    ensures w == |old(db.withdrawals)| && HasPayout(db.State(), w) && !RefundThrows(db.State(), w, WithdrawalStatus.Failed)
  {
    w := |db.withdrawals|;
    var i := db.CreateRow(Transaction(u, TxType.Debit, TxStatus.Pending, amount, 0, 0, None, None, db.clock, Origin.WithdrawalDebit(w)));
    db.Book(i);
    db.withdrawals := db.withdrawals + [Withdrawal(u, amount, WithdrawalStatus.Processing, i, None, db.clock)];
    db.Post(WithdrawalEntry, amount, Wallet(u), PayoutsInTransit, Some(WithdrawalRef(w)), Some(i));
  }

  /** Asks Paystack about a withdrawal and acts on the answer. */
  method CheckWithdrawal(db: Store, w: nat, answer: TransferAnswer, busy: bool) returns (r: Result<WithdrawalStatus, Failure>)
    requires w < |db.withdrawals| ==> db.withdrawals[w].debitTransactionId < |db.rows|
    modifies db
    ensures r == Err(PaymentNotFound) <==> |old(db.withdrawals)| <= w
    ensures |old(db.withdrawals)| <= w ==> db.State() == old(db.State())
    ensures w < |old(db.withdrawals)| ==> db.State() == ConfirmWithdrawal(old(db.State()), w, HeardTransfer(old(db.State()), w, answer, busy))
    ensures w < |old(db.withdrawals)| ==> (r.Err? <==> PayoutThrows(old(db.State()), w, HeardTransfer(old(db.State()), w, answer, busy)))
    ensures r == Err(LockBusy) ==> busy
    ensures w < |old(db.withdrawals)| ==> |db.withdrawals| == |old(db.withdrawals)|
    ensures w < |old(db.withdrawals)| && r.Ok? ==> r.value == db.withdrawals[w].status
    ensures w < |old(db.withdrawals)| ==>
              var wd := old(db.withdrawals)[w];
              var open := wd.status == WithdrawalStatus.Processing || wd.status == WithdrawalStatus.Successful;
              var refunds := (wd.status == WithdrawalStatus.Processing
                              && (answer == Reported(TransferFailed) || answer == Reported(TransferAbandoned) || answer == Reported(TransferBlocked)
                                  || answer == Reported(TransferRejected) || answer == Reported(TransferOtp)
                                  || (answer == Missing && 600_000 < old(db.clock) - wd.createdAt)))
                             || (open && answer == Reported(TransferReversed));
              && (r == Err(NoAnswerFromPaystack) <==> open && (answer == NoAnswer || answer == Refused4xx))
              && (r == Err(LockBusy) <==> refunds && busy)
              && (r == Err(WalletNotFound) <==> refunds && !busy && wd.user !in old(db.wallets))
              && (r.Err? ==> db.State() == old(db.State()))
  {
    if |db.withdrawals| <= w {
      return Err(PaymentNotFound);
    }
    var status := db.withdrawals[w].status;
    if status != WithdrawalStatus.Processing && status != WithdrawalStatus.Successful {
      return Ok(status);
    }
    if answer.NoAnswer? || answer.Refused4xx? {
      return Err(NoAnswerFromPaystack);
    }
    var thrown := false;
    SameLength(db.State(), w, answer);
    hide RefundWithdrawal, RefundWithRead, ApplyTransferStatus;
    if answer.Missing? {
      if status == WithdrawalStatus.Processing && MISSING_TRANSFER_GRACE_MS < db.clock - db.withdrawals[w].createdAt {
        thrown := Refund(db, w, WithdrawalStatus.Failed, busy, false);
      }
    } else if status == WithdrawalStatus.Processing || answer.status == TransferReversed {
      thrown := ApplyStatus(db, w, answer.status, busy);
    }
    if thrown {
      return Err(if busy then LockBusy else WalletNotFound);
    }
    r := Ok(db.withdrawals[w].status);
  }

  lemma SameLength(db: Db, w: nat, answer: TransferAnswer)
    requires HasPayout(db, w)
    ensures |ConfirmWithdrawal(db, w, answer).withdrawals| == |db.withdrawals|
  {
    CheckWithdrawalEnd(db, w, answer);
    hide ConfirmWithdrawal, Frame;
  }
}
