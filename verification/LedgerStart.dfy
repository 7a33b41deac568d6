/** The migration that starts the ledger puts any healthy earlier database into the invariant. */
module LedgerStart {
  import opened Basics
  import opened Tables
  import opened Ledger
  import opened Invariants

  function OpeningEntry(u: UserId, amount: Amount, at: int): Entry {
    Movement(OpeningBalance, amount, OpeningBalances, Wallet(u), None, None, at)
  }

  predicate Holds(wallets: map<UserId, int>, u: UserId) {
    u in wallets && 0 < wallets[u]
  }

  predicate AllHold(wallets: map<UserId, int>, users: seq<UserId>) {
    forall i :: 0 <= i < |users| ==> users[i] in wallets && 0 < wallets[users[i]]
  }

  /** One opening entry per wallet that holds money. */
  function Openings(wallets: map<UserId, int>, users: seq<UserId>, at: int): (j: seq<Entry>)
    requires AllHold(wallets, users)
    ensures |j| == |users|
    ensures forall i :: 0 <= i < |users| ==> j[i] == OpeningEntry(users[i], wallets[users[i]], at)
  {
    seq(|users|, i requires 0 <= i < |users| => OpeningEntry(users[i], wallets[users[i]], at))
  }

  /** A database from before the ledger: all its rows are history, and nothing is in flight. */
  ghost predicate BeforeStart(db: Db, users: seq<UserId>) {
    && db.journal == [] && db.commits == []
    && (forall i :: 0 <= i < |db.rows| ==> db.rows[i].origin.BeforeLedger?)
    && RowsOk(db) && ReversedOnce(db.rows) && TransfersPaired(db.rows) && Linked(db)
    && (forall u :: u in db.wallets ==> 0 <= db.wallets[u])
    && (forall i, j :: 0 <= i < j < |users| ==> users[i] != users[j])
    && (forall u :: u in users <==> Holds(db.wallets, u))
    // A wallet that gets no opening entry is computed from its whole history
    && (forall u: UserId :: !Holds(db.wallets, u) ==> SumBy(db.rows, NetOf(u, None)) == 0)
  }

  function StartLedger(db: Db, users: seq<UserId>): Db
    requires AllHold(db.wallets, users)
  {
    db.(journal := Openings(db.wallets, users, db.ledgerStart))
  }

  lemma {:induction false} OpeningsOnWallet(wallets: map<UserId, int>, users: seq<UserId>, at: int, u: UserId)
    requires AllHold(wallets, users)
    requires forall i, j :: 0 <= i < j < |users| ==> users[i] != users[j]
    ensures AccountBalance(Openings(wallets, users, at), Wallet(u)) == if u in users then -wallets[u] else 0
  {
    var journal := Openings(wallets, users, at);
    if users != [] {
      var n := |users| - 1;
      assert journal[..n] == Openings(wallets, users[..n], at);
      OpeningsOnWallet(wallets, users[..n], at, u);
      TwoLines(journal[n], OpeningBalances, Wallet(users[n]), wallets[users[n]], Wallet(u));
      assert users == users[..n] + [users[n]];
    }
  }

  lemma OpensExactly(u: UserId, v: UserId, amount: Amount, at: int)
    ensures OpensWallet(OpeningEntry(v, amount, at), u) <==> u == v
  {
    var e := OpeningEntry(v, amount, at);
    assert e.lines[1].account == Wallet(v);
  }

  lemma OpeningFound(db: Db, users: seq<UserId>, u: UserId)
    requires BeforeStart(db, users)
    requires AllHold(db.wallets, users)
    ensures var journal := StartLedger(db, users).journal;
      && OpeningAmount(journal, u) == Stored(db.wallets, u)
      && Since(journal, u) == if Holds(db.wallets, u) then Some(db.ledgerStart) else None
  {
    var journal := StartLedger(db, users).journal;
    forall k | 0 <= k < |journal| ensures Opens(u)(journal[k]) <==> users[k] == u {
      OpensExactly(u, users[k], db.wallets[users[k]], db.ledgerStart);
    }
    var k := FindOpening(journal, u);
    if u in users {
      var i :| 0 <= i < |users| && users[i] == u;
      assert Opens(u)(journal[i]);
    }
    if k.Some? {
      TwoLines(journal[k.value], OpeningBalances, Wallet(u), db.wallets[u], Wallet(u));
    }
  }

  lemma StartedPosted(db: Db, users: seq<UserId>)
    requires BeforeStart(db, users)
    requires AllHold(db.wallets, users)
    ensures Posted(StartLedger(db, users))
  {
    var journal := StartLedger(db, users).journal;
    forall k | 0 <= k < |journal| ensures EntryOk(db.rows, journal[k], db.ledgerStart) {
      TwoLines(journal[k], OpeningBalances, Wallet(users[k]), db.wallets[users[k]], OpeningBalances);
    }
  }

  lemma StartedBalances(db: Db, users: seq<UserId>)
    requires BeforeStart(db, users)
    requires AllHold(db.wallets, users)
    ensures BalancedByRows(StartLedger(db, users)) && BalancedByLedger(StartLedger(db, users)) && BalancesChained(StartLedger(db, users))
  {
    var db' := StartLedger(db, users);
    forall u: UserId
      ensures Stored(db'.wallets, u) == OpeningAmount(db'.journal, u) + SumBy(db'.rows, NetOf(u, Since(db'.journal, u)))
      ensures Stored(db'.wallets, u) == WalletLedgerBalance(db'.journal, u)
      ensures ChainEnd(db'.rows, db'.commits, u, OpeningAmount(db'.journal, u)) == Stored(db'.wallets, u)
    {
      OpeningFound(db, users, u);
      OpeningsOnWallet(db.wallets, users, db.ledgerStart, u);
      if Holds(db.wallets, u) {
        forall i | 0 <= i < |db.rows| ensures NetOf(u, Some(db.ledgerStart))(db.rows[i]) == 0 {
          assert RowOk(db.rows, i, db.transfers, db.ledgerStart, db.clock);
        }
        SumZero(db.rows, NetOf(u, Some(db.ledgerStart)));
      }
    }
  }

  /** Starting the ledger establishes the invariant that every later run keeps. */
  lemma MigrationEstablishesInv(db: Db, users: seq<UserId>)
    requires BeforeStart(db, users)
    ensures AllHold(db.wallets, users)
    ensures Inv(StartLedger(db, users))
  {
    forall i | 0 <= i < |users| ensures users[i] in db.wallets && 0 < db.wallets[users[i]] {
      assert users[i] in users && Holds(db.wallets, users[i]);
    }
    StartedPosted(db, users);
    StartedBalances(db, users);
  }

  function NewDatabase(ledgerStart: int): Db {
    Db(map[], [], [], [], [], [], map[], {}, 0, [], ledgerStart, ledgerStart + 1)
  }

  lemma EmptyBeforeStart(ledgerStart: int)
    ensures BeforeStart(NewDatabase(ledgerStart), [])
  {
  }

  /** A brand-new database satisfies the invariant, so the theorems about runs are about something. */
  lemma NewDatabaseIsSound(ledgerStart: int)
    ensures Inv(NewDatabase(ledgerStart))
  {
    hide Inv, BeforeStart;
    EmptyBeforeStart(ledgerStart);
    MigrationEstablishesInv(NewDatabase(ledgerStart), []);
    assert StartLedger(NewDatabase(ledgerStart), []) == NewDatabase(ledgerStart);
  }
}
