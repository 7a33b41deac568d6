/** Transfers between wallets. */
module TransferService {
  import opened Basics
  import opened Tables
  import opened Limits
  import opened Steps
  import opened Runs
  import opened Database
  import opened WalletService

  /** Why a transfer of `amount` from `sender` is refused, in the order the code finds out. */
  function TransferFailure(db: Db, sender: UserId, amount: Amount, busy: bool): Option<Failure> {
    if busy then Some(LockBusy)
    else if sender !in db.wallets then Some(WalletNotFound)
    else if db.wallets[sender] < amount then Some(InsufficientFunds)
    else if CheckSend(db, sender, amount).Some? then Some(OverTheLimit(CheckSend(db, sender, amount).value))
    else None
  }

  /** The transaction of a transfer whose two rows are pending, and its failure path. */
  method SettleBoth(db: Store, i: TxId, j: TxId, sender: UserId, receiver: UserId, amount: Amount, transfer: nat, busy: bool) returns (failed: Option<Failure>)
    requires PendingTransfer(db.rows, i, j) && sender != receiver && receiver in db.wallets
    requires db.rows[i].user == sender && db.rows[i].amount == amount && db.rows[i].transferId == Some(transfer)
    requires db.rows[j].user == receiver && db.rows[j].amount == amount
    modifies db
    ensures db.State() == if busy then FailBoth(old(db.State()), i, j) else SettleTransfer(old(db.State()), i, j)
    ensures failed == TransferFailure(old(db.State()), sender, amount, busy)
  {
    failed := None;
    if busy {
      failed := Some(LockBusy);
    } else if sender !in db.wallets {
      failed := Some(WalletNotFound);
    } else if db.wallets[sender] < amount {
      failed := Some(InsufficientFunds);
    } else {
      var refused := db.AssertCanSend(sender, amount);
      if refused.Some? { failed := Some(OverTheLimit(refused.value)); }
    }
    if failed.Some? {
      db.MarkRow(i, TxStatus.Failed);
      db.MarkRow(j, TxStatus.Failed);
      return;
    }
    db.Book(i);
    db.Book(j);
    db.Post(TransferEntry, amount, Wallet(sender), Wallet(receiver), Some(TransferRef(transfer)), Some(i));
  }

  /** Both pending rows, under a fresh transfer id. */
  method CreateBoth(db: Store, sender: UserId, receiver: UserId, amount: Amount) returns (i: TxId, transfer: nat)
    requires receiver in db.wallets && receiver != sender
    modifies db
    ensures db.State() == BeginTransfer(old(db.State()), sender, receiver, amount)
    ensures i == |old(db.rows)| && transfer == old(db.transfers)
    ensures PendingTransfer(db.rows, i, i + 1)
    ensures db.rows[i].user == sender && db.rows[i].amount == amount && db.rows[i].transferId == Some(transfer)
    ensures db.rows[i + 1].user == receiver && db.rows[i + 1].amount == amount
  {
    transfer := db.transfers;
    db.transfers := db.transfers + 1;
    i := db.CreateRow(NewRowFor(db, sender, Debit, amount, Some(transfer), Origin.TransferLeg));
    var j := db.CreateRow(NewRowFor(db, receiver, Credit, amount, Some(transfer), Origin.TransferLeg));
  }

  /** The database after a transfer request and what its caller gets. */
  function TransferOutcome(db: Db, sender: UserId, receiver: Option<UserId>, amount: Amount, busy: bool): (Db, Result<nat, Failure>) {
    if receiver.None? then (db, Err(ReceiverNotFound))
    else if receiver.value !in db.wallets then (db, Err(ReceiverHasNoWallet))
    else if receiver.value == sender then (db, Err(ToYourself))
    else
      var begun := BeginTransfer(db, sender, receiver.value, amount);
      var failure, i := TransferFailure(begun, sender, amount, busy), |db.rows|;
      (if busy then FailBoth(begun, i, i + 1) else SettleTransfer(begun, i, i + 1), if failure.Some? then Err(failure.value) else Ok(db.transfers))
  }

  /** A transfer request is a two-step run, and it fails exactly when no money moved. */
  lemma {:induction false} TransferIsARun(db: Db, sender: UserId, receiver: UserId, amount: Amount, busy: bool)
    ensures var (after, r) := TransferOutcome(db, sender, Some(receiver), amount, busy);
      && after == Both(db, OfWallet(TransferBegun(sender, receiver, amount)),
                       OfWallet(if busy then TransferGivenUp(|db.rows|) else TransferSettled(|db.rows|)))
      && (r.Err? <==> after.wallets == db.wallets)
  {
    var begun := BeginTransfer(db, sender, receiver, amount);
    if receiver in db.wallets && receiver != sender {
      var after := SettleTransfer(begun, |db.rows|, |db.rows| + 1);
      if CanTransfer(begun, begun.rows[|db.rows|], begun.rows[|db.rows| + 1]) {
        assert after.wallets[sender] == db.wallets[sender] - amount;
      }
    } else {
      NotPending(db, |db.rows|);
    }
  }

  lemma NotPending(db: Db, i: nat)
    requires |db.rows| <= i
    ensures Apply(db, OfWallet(TransferSettled(i))) == db == Apply(db, OfWallet(TransferGivenUp(i)))
  {
  }

  /** `receiver` is the user found for the address, if any. */
  method TransferFunds(db: Store, sender: UserId, receiver: Option<UserId>, amount: Amount, busy: bool) returns (r: Result<nat, Failure>)
    modifies db
    ensures (db.State(), r) == TransferOutcome(old(db.State()), sender, receiver, amount, busy)
    ensures r == Err(ReceiverNotFound) <==> receiver.None?
    ensures r == Err(ReceiverHasNoWallet) <==> receiver.Some? && receiver.value !in old(db.wallets)
    ensures r == Err(ToYourself) <==> receiver == Some(sender) && sender in old(db.wallets)
    ensures receiver.Some? && receiver.value in old(db.wallets) && receiver.value != sender ==>
              && (r == Err(LockBusy) <==> busy)
              && (r == Err(WalletNotFound) <==> !busy && sender !in old(db.wallets))
              && (r == Err(InsufficientFunds) <==> !busy && sender in old(db.wallets) && old(db.wallets)[sender] < amount)
              && (r.Ok? ==> r.value == old(db.transfers)
                            && db.wallets == old(db.wallets)[sender := old(db.wallets)[sender] - amount]
                                                            [receiver.value := old(db.wallets)[receiver.value] + amount])
    ensures r.Err? ==> db.wallets == old(db.wallets) && db.journal == old(db.journal)
  {
    if receiver.None? {
      return Err(ReceiverNotFound);
    }
    if receiver.value !in db.wallets {
      return Err(ReceiverHasNoWallet);
    }
    if receiver.value == sender {
      return Err(ToYourself);
    }
    hide BeginTransfer, SettleTransfer, TransferFailure;
    var i, transfer := CreateBoth(db, sender, receiver.value, amount);
    ghost var begun := db.State();
    WalletsStay(begun, old(db.State()), sender, receiver.value, amount);
    var failed := SettleBoth(db, i, i + 1, sender, receiver.value, amount, transfer, busy);
    r := if failed.Some? then Err(failed.value) else Ok(transfer);
    OutcomeTells(old(db.State()), sender, receiver.value, amount, busy);
  }

  /** What the caller is told, and what has moved. */
  lemma OutcomeTells(db: Db, sender: UserId, receiver: UserId, amount: Amount, busy: bool)
    requires receiver in db.wallets && receiver != sender
    ensures var (after, r) := TransferOutcome(db, sender, Some(receiver), amount, busy);
      && (r == Err(LockBusy) <==> busy)
      && (r == Err(WalletNotFound) <==> !busy && sender !in db.wallets)
      && (r == Err(InsufficientFunds) <==> !busy && sender in db.wallets && db.wallets[sender] < amount)
      && r != Err(ReceiverNotFound) && r != Err(ReceiverHasNoWallet) && r != Err(ToYourself)
      && (r.Ok? ==> r.value == db.transfers
                    && after.wallets == db.wallets[sender := db.wallets[sender] - amount][receiver := db.wallets[receiver] + amount])
      && (r.Err? ==> after.wallets == db.wallets && after.journal == db.journal)
  {
    hide SpentToday;
  }

  lemma WalletsStay(begun: Db, db: Db, sender: UserId, receiver: UserId, amount: Amount)
    requires begun == BeginTransfer(db, sender, receiver, amount)
    ensures begun.wallets == db.wallets
  {
  }
}
