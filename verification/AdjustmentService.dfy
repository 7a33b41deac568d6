/** Staff adjustments, call by call. The password check is not part of this model. */
module AdjustmentService {
  import opened Basics
  import opened Tables
  import opened Steps
  import opened Database

  /** Why applying an adjustment fails. */
  function ApplyFailure(db: Db, a: nat, busy: bool): Option<Failure>
    requires a < |db.adjustments|
  {
    var adj := db.adjustments[a];
    if busy then Some(LockBusy)
    else if adj.status != AdjustmentStatus.Pending then Some(AlreadyDecided)
    else if adj.user !in db.wallets then Some(WalletNotFound)
    else if adj.direction == Debit && db.wallets[adj.user] < adj.amount then Some(InsufficientFunds)
    else None
  }

  /** Claims a pending adjustment and moves the money, or throws and leaves it as it was. */
  method ApplyPending(db: Store, a: nat, approver: UserId, busy: bool) returns (failed: Option<Failure>)
    requires a < |db.adjustments|
    modifies db
    ensures db.State() == if busy then old(db.State()) else ApplyAdjustment(old(db.State()), a, approver)
    ensures failed == Some(LockBusy) <==> busy
    ensures failed == Some(AlreadyDecided) <==> !busy && old(db.adjustments)[a].status != AdjustmentStatus.Pending
    ensures failed == Some(WalletNotFound) <==>
            !busy && old(db.adjustments)[a].status == AdjustmentStatus.Pending && old(db.adjustments)[a].user !in old(db.wallets)
    ensures failed == Some(InsufficientFunds) <==>
            var adj := old(db.adjustments)[a];
            !busy && adj.status == AdjustmentStatus.Pending && adj.user in old(db.wallets) && adj.direction == Debit && old(db.wallets)[adj.user] < adj.amount
    ensures failed == ApplyFailure(old(db.State()), a, busy) && (failed.None? <==> !busy && CanApply(old(db.State()), a))
  {
    if busy {
      return Some(LockBusy);
    }
    var adj := db.adjustments[a];
    if adj.status != AdjustmentStatus.Pending {
      return Some(AlreadyDecided);
    }
    if adj.user !in db.wallets {
      return Some(WalletNotFound);
    }
    if adj.direction == Debit && db.wallets[adj.user] < adj.amount {
      return Some(InsufficientFunds);
    }
    var i := db.CreateRow(Transaction(adj.user, adj.direction, TxStatus.Pending, adj.amount, 0, 0, None, None, db.clock, Origin.AdjustmentRow(a)));
    db.Book(i);
    db.adjustments := db.adjustments[a := adj.(status := AdjustmentStatus.Approved, decidedBy := Some(approver), transactionId := Some(i))];
    if adj.direction == Credit {
      db.Post(AdjustmentEntry, adj.amount, Adjustments, Wallet(adj.user), Some(AdjustmentRef(a)), Some(i));
    } else {
      db.Post(AdjustmentEntry, adj.amount, Wallet(adj.user), Adjustments, Some(AdjustmentRef(a)), Some(i));
    }
    failed := None;
  }

  /** Claims nothing, and so reports a decided adjustment, when there is no such id. */
  method Reject(db: Store, a: nat, admin: UserId) returns (failed: Option<Failure>)
    modifies db
    ensures db.State() == if a < |old(db.adjustments)| then RejectAdjustment(old(db.State()), a, admin) else old(db.State())
    ensures failed == if a < |old(db.adjustments)| && old(db.adjustments)[a].status == AdjustmentStatus.Pending then None else Some(AlreadyDecided)
  {
    if |db.adjustments| <= a {
      return Some(AlreadyDecided);
    }
    var adj := db.adjustments[a];
    if adj.status != AdjustmentStatus.Pending {
      return Some(AlreadyDecided);
    }
    db.adjustments := db.adjustments[a := adj.(status := AdjustmentStatus.Rejected, decidedBy := Some(admin))];
    failed := None;
  }

  /**
   * Records a request. A small one is applied at once, or rejected when that fails; a large one waits.
   * No adjustment up to the threshold is left PENDING.
   */
  method Request(db: Store, admin: UserId, u: UserId, direction: TxType, kind: AdjustmentKind, amount: int, busy: bool) returns (r: Result<nat, Failure>)
    modifies db
    ensures !ValidRequest(old(db.State()), admin, u, direction, kind, amount) ==> r.Err? && db.State() == old(db.State())
    ensures ValidRequest(old(db.State()), admin, u, direction, kind, amount) ==>
              var requested, a := RequestAdjustment(old(db.State()), admin, u, direction, kind, amount), |old(db.adjustments)|;
              && a < |requested.adjustments|
              && db.State() == (if busy && amount <= APPROVAL_THRESHOLD then RejectAdjustment(requested, a, admin)
                                else ApplySmallAdjustment(requested, a))
              && (r.Ok? <==> APPROVAL_THRESHOLD < amount || (!busy && CanApply(requested, a)))
              && (r.Ok? ==> r.value == a)
              && |db.adjustments| == a + 1
              && (amount <= APPROVAL_THRESHOLD <==> db.adjustments[a].status != AdjustmentStatus.Pending)
    ensures r == Err(InvalidAdjustment) <==>
            u == admin || (direction == Debit && kind != Correction) || amount <= 0 || 1_000_000_000 < amount
    ensures r == Err(UserNotFound) <==>
            u != admin && (direction == Debit ==> kind == Correction) && 0 < amount <= 1_000_000_000 && u !in old(db.tiers)
    ensures r != Err(InvalidAdjustment) && r != Err(UserNotFound) ==>
              && |db.adjustments| == |old(db.adjustments)| + 1 && db.adjustments[..|old(db.adjustments)|] == old(db.adjustments)
              && var adj := db.adjustments[|old(db.adjustments)|];
                 && adj.user == u && adj.direction == direction && adj.kind == kind && adj.amount == amount && adj.requestedBy == admin
                 && (adj.status == AdjustmentStatus.Pending <==> 1_000_000 < amount)
                 && (adj.status == AdjustmentStatus.Approved <==>
                       amount <= 1_000_000 && !busy && u in old(db.wallets) && (direction == Debit ==> amount <= old(db.wallets)[u]))
  {
    if u == admin || (direction == Debit && kind != Correction) || amount <= 0 || MAX_ADJUSTMENT < amount {
      return Err(InvalidAdjustment);
    }
    if u !in db.tiers {
      return Err(UserNotFound);
    }
    var a := |db.adjustments|;
    db.adjustments := db.adjustments + [Adjustment(u, direction, kind, amount, AdjustmentStatus.Pending, admin, None, None)];
    if amount <= APPROVAL_THRESHOLD {
      var failed := ApplyPending(db, a, admin, busy);
      if failed.Some? {
        var _ := Reject(db, a, admin);
        return Err(failed.value);
      }
    }
    r := Ok(a);
  }

  /** Why an approval fails, in the order the code finds out. */
  function ApproveFailure(db: Db, a: nat, admin: UserId, busy: bool): Option<Failure> {
    if |db.adjustments| <= a then Some(AdjustmentNotFound)
    else if db.adjustments[a].status != AdjustmentStatus.Pending then Some(AlreadyDecided)
    else if db.adjustments[a].requestedBy == admin && HasSecondApprover(db, admin) then Some(NeedsAnotherAdmin)
    else ApplyFailure(db, a, busy)
  }

  /** The requester may approve only when nobody else could. */
  method Approve(db: Store, a: nat, admin: UserId, busy: bool) returns (failed: Option<Failure>)
    modifies db
    ensures failed == ApproveFailure(old(db.State()), a, admin, busy)
    ensures db.State() == if a < |old(db.adjustments)| && !busy then ApproveAdjustment(old(db.State()), a, admin) else old(db.State())
    ensures failed.None? <==>
            && !busy && CanApply(old(db.State()), a)
            && (old(db.adjustments)[a].requestedBy == admin ==> forall v :: v in old(db.approvers) ==> v == admin)
    ensures failed.Some? ==> db.State() == old(db.State())
    ensures failed == Some(AdjustmentNotFound) <==> |old(db.adjustments)| <= a
    ensures a < |old(db.adjustments)| ==>
              var adj := old(db.adjustments)[a];
              var alone := adj.requestedBy == admin ==> forall v :: v in old(db.approvers) ==> v == admin;
              && (failed == Some(AlreadyDecided) <==> adj.status != AdjustmentStatus.Pending)
              && (failed == Some(NeedsAnotherAdmin) <==> adj.status == AdjustmentStatus.Pending && !alone)
              && (failed == Some(LockBusy) <==> adj.status == AdjustmentStatus.Pending && alone && busy)
              && (failed == Some(WalletNotFound) <==> adj.status == AdjustmentStatus.Pending && alone && !busy && adj.user !in old(db.wallets))
  {
    if |db.adjustments| <= a {
      return Some(AdjustmentNotFound);
    }
    if db.adjustments[a].status != AdjustmentStatus.Pending {
      return Some(AlreadyDecided);
    }
    var others := set v | v in db.approvers && v != admin;
    if db.adjustments[a].requestedBy == admin && |others| > 0 {
      var v :| v in others;
      assert HasSecondApprover(db.State(), admin);
      return Some(NeedsAnotherAdmin);
    }
    assert HasSecondApprover(db.State(), admin) ==> others != {} by {
      if v :| v in db.approvers && v != admin { assert v in others; }
    }
    failed := ApplyPending(db, a, admin, busy);
  }
}
