/** The readings staff and users rely on, and what they show in every reachable state. */
module Readings {
  import opened Basics
  import opened Tables
  import opened Ledger
  import opened Invariants
  import opened AccountProofs
  import opened Runs

  // ---------- The balance the history adds up to ----------

  function CreditsOf(u: UserId, since: Option<int>): Transaction -> int {
    (t: Transaction) => if Counted(t, u, since) && t.kind == Credit then t.amount else 0
  }

  function DebitsOf(u: UserId, since: Option<int>): Transaction -> int {
    (t: Transaction) => if Counted(t, u, since) && t.kind == Debit then t.amount else 0
  }

  /** computeBalance: opening balance, plus credits, minus debits since then. */
  function ComputeBalance(db: Db, u: UserId): int {
    var since := Since(db.journal, u);
    OpeningAmount(db.journal, u) + SumBy(db.rows, CreditsOf(u, since)) - SumBy(db.rows, DebitsOf(u, since))
  }

  lemma {:induction false} NetIsCreditsMinusDebits(rows: seq<Transaction>, u: UserId, since: Option<int>)
    ensures SumBy(rows, NetOf(u, since)) == SumBy(rows, CreditsOf(u, since)) - SumBy(rows, DebitsOf(u, since))
  {
    if rows != [] {
      NetIsCreditsMinusDebits(rows[..|rows| - 1], u, since);
    }
  }

  /** The wallets the reconciliation page lists: stored balance against history, and against the ledger. */
  function BalanceMismatches(db: Db): set<UserId> {
    set u | u in db.wallets && db.wallets[u] != OpeningAmount(db.journal, u) + SumBy(db.rows, NetOf(u, Since(db.journal, u)))
  }

  function WalletsOffLedger(db: Db): set<UserId> {
    set u | u in db.wallets && db.wallets[u] != WalletLedgerBalance(db.journal, u)
  }

  /**
   * In every state of every run the three records of each wallet agree: the stored balance, the
   * balance its history adds up to, and its ledger account. So both reconciliation reports stay empty.
   */
  lemma {:induction false} RecordsAgree(start: Db, actions: seq<Action>, u: UserId)
    requires Inv(start)
    ensures var db := Run(start, actions);
      && (u in db.wallets ==> 0 <= db.wallets[u] == ComputeBalance(db, u) == WalletLedgerBalance(db.journal, u))
      && (u !in db.wallets ==> ComputeBalance(db, u) == 0 == WalletLedgerBalance(db.journal, u))
      && BalanceMismatches(db) == {} && WalletsOffLedger(db) == {}
  {
    hide Inv, Run;
    var db := Run(start, actions);
    RunIsBalanced(start, actions);
    ReportsEmpty(db);
    assert Stored(db.wallets, u) == OpeningAmount(db.journal, u) + SumBy(db.rows, NetOf(u, Since(db.journal, u)));
    assert Stored(db.wallets, u) == WalletLedgerBalance(db.journal, u);
    NetIsCreditsMinusDebits(db.rows, u, Since(db.journal, u));
  }

  lemma RunIsBalanced(start: Db, actions: seq<Action>)
    requires Inv(start)
    ensures BalancedByRows(Run(start, actions)) && BalancedByLedger(Run(start, actions)) && Posted(Run(start, actions))
  {
    RunKeepsInv(start, actions);
    hide RowsOk, ReversedOnce, TransfersPaired, ReversalsPaired, Linked, Posted, BalancedByRows, BalancedByLedger, CommitsComplete, BalancesChained;
  }

  lemma ReportsEmpty(db: Db)
    requires BalancedByRows(db) && BalancedByLedger(db)
    ensures BalanceMismatches(db) == {} && WalletsOffLedger(db) == {}
  {
    forall u | u in db.wallets
      ensures db.wallets[u] == OpeningAmount(db.journal, u) + SumBy(db.rows, NetOf(u, Since(db.journal, u)))
      ensures db.wallets[u] == WalletLedgerBalance(db.journal, u)
    {
      assert Stored(db.wallets, u) == db.wallets[u];
    }
  }

  /** In any database the reports list exactly the wallets whose stored balance is not what history or ledger say. */
  lemma ReportsListMismatches(db: Db, u: UserId)
    ensures u in BalanceMismatches(db) <==> u in db.wallets && db.wallets[u] != ComputeBalance(db, u)
    ensures u in WalletsOffLedger(db) <==> u in db.wallets && db.wallets[u] != -AccountBalance(db.journal, Wallet(u))
  {
    NetIsCreditsMinusDebits(db.rows, u, Since(db.journal, u));
    hide AccountBalance, SumBy;
  }

  // ---------- Conservation ----------

  function WalletLine(): Line -> int {
    (l: Line) => if l.account.Wallet? then l.amount else 0
  }

  function WalletPart(): Entry -> int {
    (e: Entry) => SumBy(e.lines, WalletLine())
  }

  /** The six kinds of account split every line of the journal between them. */
  lemma {:induction false} AccountsPartition(journal: seq<Entry>)
    ensures TrialBalance(journal) ==
            SumBy(journal, WalletPart()) + AccountBalance(journal, PaystackClearing) + AccountBalance(journal, PayoutsInTransit)
            + AccountBalance(journal, Adjustments) + AccountBalance(journal, DevFunding) + AccountBalance(journal, OpeningBalances)
  {
    if journal != [] {
      AccountsPartition(journal[..|journal| - 1]);
      LinesPartition(journal[|journal| - 1].lines);
    }
  }

  lemma {:induction false} LinesPartition(lines: seq<Line>)
    ensures SumBy(lines, LineAmount()) ==
            SumBy(lines, WalletLine()) + SumBy(lines, OnAccount(PaystackClearing)) + SumBy(lines, OnAccount(PayoutsInTransit))
            + SumBy(lines, OnAccount(Adjustments)) + SumBy(lines, OnAccount(DevFunding)) + SumBy(lines, OnAccount(OpeningBalances))
  {
    if lines != [] {
      LinesPartition(lines[..|lines| - 1]);
    }
  }

  predicate Distinct(users: seq<UserId>) {
    forall i, j :: 0 <= i < j < |users| ==> users[i] != users[j]
  }

  predicate LinesWithin(lines: seq<Line>, users: seq<UserId>) {
    forall i :: 0 <= i < |lines| && lines[i].account.Wallet? ==> lines[i].account.user in users
  }

  /** `users` lists once everyone who has a wallet or a line in the ledger. */
  ghost predicate EveryUser(users: seq<UserId>, db: Db) {
    && Distinct(users)
    && (forall u :: u in db.wallets ==> u in users)
    && (forall k :: 0 <= k < |db.journal| ==> LinesWithin(db.journal[k].lines, users))
  }

  function StoredBy(wallets: map<UserId, int>): UserId -> int {
    (u: UserId) => Stored(wallets, u)
  }

  function LedgerBy(journal: seq<Entry>): UserId -> int {
    (u: UserId) => AccountBalance(journal, Wallet(u))
  }

  function EntryBy(e: Entry): UserId -> int {
    (u: UserId) => SumBy(e.lines, OnAccount(Wallet(u)))
  }

  function LineBy(l: Line): UserId -> int {
    (u: UserId) => if l.account == Wallet(u) then l.amount else 0
  }

  /** A line belongs to exactly one of a list of distinct wallets, or to none. */
  lemma {:induction false} LineOverUsers(users: seq<UserId>, l: Line)
    requires Distinct(users)
    ensures SumBy(users, LineBy(l)) == if l.account.Wallet? && l.account.user in users then l.amount else 0
  {
    if users != [] {
      var n := |users| - 1;
      LineOverUsers(users[..n], l);
      assert users == users[..n] + [users[n]];
      assert LineBy(l)(users[n]) == if l.account == Wallet(users[n]) then l.amount else 0;
    }
  }

  lemma {:induction false} EntryOverUsers(users: seq<UserId>, e: Entry)
    requires Distinct(users) && LinesWithin(e.lines, users)
    ensures SumBy(users, EntryBy(e)) == WalletPart()(e)
    decreases |e.lines|
  {
    if e.lines == [] {
      assert forall u: UserId :: EntryBy(e)(u) == SumBy(e.lines, OnAccount(Wallet(u)));
      SumZero(users, EntryBy(e));
    } else {
      var n := |e.lines| - 1;
      var shorter := e.(lines := e.lines[..n]);
      EntryOverUsers(users, shorter);
      LineOverUsers(users, e.lines[n]);
      forall u: UserId ensures EntryBy(e)(u) == EntryBy(shorter)(u) + LineBy(e.lines[n])(u) {
        assert EntryBy(e)(u) == SumBy(e.lines, OnAccount(Wallet(u)));
        assert EntryBy(shorter)(u) == SumBy(shorter.lines, OnAccount(Wallet(u)));
      }
      SumOfSums(users, EntryBy(shorter), LineBy(e.lines[n]), EntryBy(e));
    }
  }

  lemma {:induction false} JournalOverUsers(users: seq<UserId>, journal: seq<Entry>)
    requires Distinct(users) && forall k :: 0 <= k < |journal| ==> LinesWithin(journal[k].lines, users)
    ensures SumBy(users, LedgerBy(journal)) == SumBy(journal, WalletPart())
  {
    if journal == [] {
      SumZero(users, LedgerBy(journal));
    } else {
      var n := |journal| - 1;
      JournalOverUsers(users, journal[..n]);
      EntryOverUsers(users, journal[n]);
      SumOfSums(users, LedgerBy(journal[..n]), EntryBy(journal[n]), LedgerBy(journal));
    }
  }

  lemma {:induction false} StoredIsMinusLedger(users: seq<UserId>, db: Db)
    requires BalancedByLedger(db)
    ensures SumBy(users, StoredBy(db.wallets)) == -SumBy(users, LedgerBy(db.journal))
  {
    if users != [] {
      var n := |users| - 1;
      StoredIsMinusLedger(users[..n], db);
      assert Stored(db.wallets, users[n]) == WalletLedgerBalance(db.journal, users[n]);
    }
  }

  /**
   * Money is conserved: in every state of every run the ledger adds up to zero, so what all wallets
   * hold is what the five system accounts say came in and has not gone out.
   */
  lemma {:induction false} MoneyIsConserved(start: Db, actions: seq<Action>, users: seq<UserId>)
    requires Inv(start) && EveryUser(users, Run(start, actions))
    ensures var db := Run(start, actions);
      && TrialBalance(db.journal) == 0
      && SumBy(users, StoredBy(db.wallets)) ==
         AccountBalance(db.journal, PaystackClearing) + AccountBalance(db.journal, PayoutsInTransit)
         + AccountBalance(db.journal, Adjustments) + AccountBalance(db.journal, DevFunding) + AccountBalance(db.journal, OpeningBalances)
  {
    hide Inv, Run;
    var db := Run(start, actions);
    RunIsBalanced(start, actions);
    LedgerAddsUp(db);
    StoredIsMinusLedger(users, db);
    JournalOverUsers(users, db.journal);
    AccountsPartition(db.journal);
  }

  lemma LedgerAddsUp(db: Db)
    requires JournalOk(db.rows, db.journal, db.ledgerStart)
    ensures TrialBalance(db.journal) == 0
  {
    forall k | 0 <= k < |db.journal| ensures Balanced(db.journal[k]) {
      assert EntryOk(db.rows, db.journal[k], db.ledgerStart);
    }
    TrialBalanceIsZero(db.journal);
  }

  /** No payment, journal entry or transaction yet. */
  predicate LedgerEmpty(db: Db) {
    db.journal == [] && db.rows == [] && db.deposits == [] && db.withdrawals == []
  }

  lemma EmptyLedgerHasNoGaps(start: Db, a: Account)
    requires LedgerEmpty(start) && !a.Wallet?
    ensures Gap(start, a) == 0
  {
  }

  /**
   * For a ledger that started empty, the system accounts are the open payments: payouts in transit
   * owes exactly the PROCESSING withdrawals, Paystack clearing holds SUCCESSFUL deposits less
   * SUCCESSFUL withdrawals, and the other two hold the movements nobody has undone.
   */
  lemma {:induction false} SystemAccountsMirrorTables(start: Db, actions: seq<Action>)
    requires Inv(start) && LedgerEmpty(start)
    ensures var db := Run(start, actions);
      && AccountBalance(db.journal, PayoutsInTransit) == -SumBy(db.withdrawals, WithdrawnAs(WithdrawalStatus.Processing))
      && AccountBalance(db.journal, PaystackClearing) ==
         SumBy(db.deposits, DepositedAs(DepositStatus.Successful)) - SumBy(db.withdrawals, WithdrawnAs(WithdrawalStatus.Successful))
      && AccountBalance(db.journal, Adjustments) == SumBy(db.rows, StandingAdjustment())
      && AccountBalance(db.journal, DevFunding) == SumBy(db.rows, StandingDirect())
      && AccountBalance(db.journal, OpeningBalances) == SumBy(db.rows, UndoneHistory())
  {
    hide Inv, Run, LedgerEmpty;
    var db := Run(start, actions);
    RunKeepsGaps(start, actions);
    forall a: Account | !a.Wallet? ensures Gap(db, a) == 0 {
      EmptyLedgerHasNoGaps(start, a);
      assert Gap(db, a) == Gap(start, a);
    }
    assert Gap(db, PayoutsInTransit) == 0 && Gap(db, PaystackClearing) == 0 && Gap(db, Adjustments) == 0
      && Gap(db, DevFunding) == 0 && Gap(db, OpeningBalances) == 0;
  }
}
