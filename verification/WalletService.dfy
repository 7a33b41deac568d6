/** Direct credits and debits, and transfers between wallets, request by request. */
module WalletService {
  import opened Basics
  import opened Tables
  import opened Runs
  import opened Database

  /** One after the other, as two steps of a run. */
  function Both(db: Db, first: Action, second: Action): Db {
    Apply(Apply(db, first), second)
  }

  lemma BothIsARun(db: Db, first: Action, second: Action)
    ensures Run(db, [first, second]) == Both(db, first, second)
  {
    assert [first, second][..1] == [first];
    assert [first][..0] == [];
    assert Run(db, []) == db;
  }

  /** How a direct request ends: without the lock it gives up. */
  function SettledUnless(busy: bool, i: TxId): Action {
    OfWallet(if busy then RequestGivenUp(i) else DirectSettled(i))
  }

  /** `busy` says that the wallet's lock could not be had in time, here and in every other request. */
  method CreditWallet(db: Store, u: UserId, amount: Amount, busy: bool) returns (r: Result<TxId, Failure>)
    modifies db
    ensures db.State() == Both(old(db.State()), OfWallet(DirectBegun(u, Credit, amount)), SettledUnless(busy, |old(db.rows)|))
    ensures r.Ok? ==> u in old(db.wallets) && db.wallets == old(db.wallets)[u := old(db.wallets)[u] + amount]
    ensures r.Err? ==> db.wallets == old(db.wallets) && db.journal == old(db.journal)
    ensures r == if busy then Err(LockBusy) else if u in old(db.wallets) then Ok(|old(db.rows)|) else Err(WalletNotFound)
  {
    var i := db.CreateRow(NewRowFor(db, u, Credit, amount, None, Origin.Direct));
    if busy {
      db.MarkRow(i, TxStatus.Failed);
      return Err(LockBusy);
    }
    if u !in db.wallets {
      db.MarkRow(i, TxStatus.Failed);
      return Err(WalletNotFound);
    }
    db.Book(i);
    db.Post(DirectFunding, amount, DevFunding, Wallet(u), None, Some(i));
    r := Ok(i);
  }

  method DebitWallet(db: Store, u: UserId, amount: Amount, busy: bool) returns (r: Result<TxId, Failure>)
    modifies db
    ensures db.State() == Both(old(db.State()), OfWallet(DirectBegun(u, Debit, amount)), SettledUnless(busy, |old(db.rows)|))
    ensures r.Ok? ==> u in old(db.wallets) && db.wallets == old(db.wallets)[u := old(db.wallets)[u] - amount]
    ensures r.Err? ==> db.wallets == old(db.wallets) && db.journal == old(db.journal)
    ensures r == if busy then Err(LockBusy)
                 else if u !in old(db.wallets) then Err(WalletNotFound)
                 else if old(db.wallets)[u] < amount then Err(InsufficientFunds)
                 else Ok(|old(db.rows)|)
  {
    var i := db.CreateRow(NewRowFor(db, u, Debit, amount, None, Origin.Direct));
    if busy {
      db.MarkRow(i, TxStatus.Failed);
      return Err(LockBusy);
    }
    if u !in db.wallets {
      db.MarkRow(i, TxStatus.Failed);
      return Err(WalletNotFound);
    }
    if db.wallets[u] < amount {
      db.MarkRow(i, TxStatus.Failed);
      return Err(InsufficientFunds);
    }
    db.Book(i);
    db.Post(DirectFunding, amount, Wallet(u), DevFunding, None, Some(i));
    r := Ok(i);
  }

  function NewRowFor(db: Store, u: UserId, kind: TxType, amount: Amount, transferId: Option<nat>, origin: Origin): Transaction
    reads db
  {
    Transaction(u, kind, TxStatus.Pending, amount, 0, 0, transferId, None, db.clock, origin)
  }
}
