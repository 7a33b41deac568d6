/** What an ask comes to when the wallet's lock stays busy. */
module BusyLocks {
  import opened Tables
  import opened Steps
  import opened Runs
  import opened Confirmations
  import opened Webhooks

  /** Settling is the only part of a deposit's confirmation that takes the lock. */
  predicate TriesToSettle(db: Db, d: nat, payment: Payment)
    requires d < |db.deposits|
  {
    payment.status == PaidUp && Matches(db, d, payment)
  }

  predicate EndsInRefund(status: TransferStatus) {
    status != TransferSuccess && status != TransferUnderway
  }

  /** Refunding is the only part of a withdrawal's confirmation that does. */
  predicate TriesToRefund(db: Db, w: nat, answer: TransferAnswer)
    requires w < |db.withdrawals|
  {
    var status := db.withdrawals[w].status;
    match answer
    case Missing => status == WithdrawalStatus.Processing && PastGrace(db, w)
    case Reported(s) =>
      (status == WithdrawalStatus.Processing && EndsInRefund(s)) || (status == WithdrawalStatus.Successful && s == TransferReversed)
    case Refused4xx => false
    case NoAnswer => false
  }

  /** The answer that leads where this one does: a lock that stays busy makes it as good as none. */
  function HeardPayment(db: Db, d: nat, payment: Payment, busy: bool): Payment
    requires d < |db.deposits|
  {
    if busy && TriesToSettle(db, d, payment) then payment.(status := PaymentUnreachable) else payment
  }

  function HeardTransfer(db: Db, w: nat, answer: TransferAnswer, busy: bool): TransferAnswer
    requires w < |db.withdrawals|
  {
    if busy && TriesToRefund(db, w, answer) then NoAnswer else answer
  }

  /** Whose lock stays busy when this deposit or this withdrawal is acted on. */
  datatype Locks = Locks(deposit: nat -> bool, withdrawal: nat -> bool)

  function Heard(db: Db, o: Oracle, locks: Locks): Oracle {
    Oracle((d: nat) => if d < |db.deposits| then HeardPayment(db, d, o.payment(d), locks.deposit(d)) else o.payment(d),
           (w: nat) => if w < |db.withdrawals| then HeardTransfer(db, w, o.transfer(w), locks.withdrawal(w)) else o.transfer(w))
  }

  lemma HeardAt(db: Db, o: Oracle, locks: Locks, k: nat)
    ensures k < |db.deposits| ==> Heard(db, o, locks).payment(k) == HeardPayment(db, k, o.payment(k), locks.deposit(k))
    ensures k < |db.withdrawals| ==> Heard(db, o, locks).transfer(k) == HeardTransfer(db, k, o.transfer(k), locks.withdrawal(k))
  {
  }

  predicate FindsLockBusy(db: Db, t: Trigger, o: Oracle, locks: Locks) {
    match t
    case DepositCheck(d) => d < |db.deposits| && db.deposits[d].status == DepositStatus.Pending && locks.deposit(d) && TriesToSettle(db, d, o.payment(d))
    case DepositSweep(d) => d < |db.deposits| && db.deposits[d].status == DepositStatus.Pending && locks.deposit(d) && TriesToSettle(db, d, o.payment(d))
    case WithdrawalCheck(w) => HasPayout(db, w) && locks.withdrawal(w) && TriesToRefund(db, w, o.transfer(w))
  }

  /** An ask that finds the lock busy throws for a retry and has changed nothing. */
  lemma BusyThrows(db: Db, t: Trigger, o: Oracle, locks: Locks)
    requires FindsLockBusy(db, t, o, locks)
    ensures Throws(db, t, Heard(db, o, locks)) && Fire(db, t, Heard(db, o, locks)) == db
  {
  }
}
