/** Deposits whose checkout could not be started. */
module DepositStarts {
  // The catch block writes FAILED without looking at the status. Paystack was asked in between, and in the
  // meantime somebody may have confirmed the deposit.

  import opened Basics
  import opened Tables
  import opened Ledger
  import opened Steps
  import opened Invariants
  import opened AccountProofs
  import opened Runs

  /** Writing FAILED keeps the invariant and every account exactly when the deposit has not been credited by then. */
  lemma FailedStartIsSafeIff(db: Db, d: nat)
    requires Inv(db) && d < |db.deposits|
    ensures Inv(FailStart(db, d)) <==> db.deposits[d].status != DepositStatus.Successful
    ensures SameGaps(db, FailStart(db, d)) <==> db.deposits[d].status != DepositStatus.Successful
  {
    var failed := FailStart(db, d);
    FailedGap(db, d);
    assert DepositOk(db.rows, db.deposits, d);
    if db.deposits[d].status == DepositStatus.Successful {
      assert !DepositOk(failed.rows, failed.deposits, d);
      assert Gap(failed, PaystackClearing) != Gap(db, PaystackClearing);
    } else {
      FailedKeepsLinks(db, d);
      hide ReversedOnce, TransfersPaired, ReversalsPaired, Linked;
      TablesOnly(db, failed);
    }
  }

  lemma FailedGap(db: Db, d: nat)
    requires d < |db.deposits|
    ensures forall a: Account ::
              Gap(FailStart(db, d), a) ==
              Gap(db, a) + if a == PaystackClearing && db.deposits[d].status == DepositStatus.Successful then db.deposits[d].amount else 0
  {
    SumUpdate(db.deposits, d, db.deposits[d].(status := DepositStatus.Failed), DepositedAs(DepositStatus.Successful));
    hide AccountBalance, SumBy;
  }

  lemma FailedKeepsLinks(db: Db, d: nat)
    requires Linked(db) && d < |db.deposits| && db.deposits[d].status != DepositStatus.Successful
    ensures Linked(FailStart(db, d))
  {
    var failed := FailStart(db, d);
    hide WithdrawalsLinked, AdjustmentsLinked;
    forall e | 0 <= e < |failed.deposits| ensures DepositOk(failed.rows, failed.deposits, e) {
      assert DepositOk(db.rows, db.deposits, e);
    }
  }

  /** While nobody has decided the deposit, the write is what a failed payment does: a step of the engine. */
  lemma FailedStartIsAStep(db: Db, d: nat, payment: Payment)
    requires d < |db.deposits| && payment.status == PaymentFailed
    requires db.deposits[d].status == DepositStatus.Pending || db.deposits[d].status == DepositStatus.Failed
    ensures FailStart(db, d) == Apply(db, OfPayment(DepositConfirmed(d, payment)))
  {
    assert db.deposits[d := db.deposits[d]] == db.deposits;
  }
}
