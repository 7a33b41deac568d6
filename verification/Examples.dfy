/**
 * Concrete runs on which the code does less than expected. Each starts from a database a caller can reach,
 * and names the steps by which it gets where it should not.
 */
module Examples {
  import opened Basics
  import opened Tables
  import opened Ledger
  import opened Limits
  import opened Steps
  import opened Invariants
  import opened LedgerStart
  import opened Runs
  import opened Repeats
  import opened Reversals
  import opened ReversalService
  import opened LimitProofs
  import opened Statements
  import opened Stats
  import opened AccountProofs
  import opened Readings
  import opened RefundRaces
  import opened DepositStarts

  const FULL: Amount := 5_000_000

  /** Two accounts, and money for user 0. */
  const FUNDED: seq<Action> :=
    [OfStaff(AccountOpened(0)), OfStaff(AccountOpened(1)),
     OfWallet(DirectBegun(0, Credit, 25_000_000)), OfWallet(DirectSettled(0))]

  // ---------- A transfer settled after midnight ----------

  /** User 0 has sent `k` full payments to user 1, all at the first moment. */
  ghost predicate Sent(db: Db, k: nat) {
    && db.wallets == map[0 := 25_000_000 - 5_000_000 * k, 1 := 5_000_000 * k]
    && db.tiers == map[0 := Tier1, 1 := Tier1]
    && db.withdrawals == [] && db.clock == 1
    && |db.rows| == 1 + 2 * k
    && (forall i :: 0 <= i < |db.rows| ==> db.rows[i].timestamp == 1)
    && SumBy(db.rows, SentOn(0, DayStart(1))) == 5_000_000 * k
  }

  function Opened(): Db {
    NewDatabase(0).(tiers := map[0 := Tier1, 1 := Tier1], wallets := map[0 := 0, 1 := 0])
  }

  lemma AccountsOpen()
    ensures Apply(Apply(NewDatabase(0), OfStaff(AccountOpened(0))), OfStaff(AccountOpened(1))) == Opened()
  {
  }

  function CreditRow(): Transaction {
    Transaction(0, Credit, TxStatus.Pending, 25_000_000, 0, 0, None, None, 1, Origin.Direct)
  }

  lemma CreditBegins()
    ensures Apply(Opened(), OfWallet(DirectBegun(0, Credit, 25_000_000))) == Opened().(rows := [CreditRow()])
  {
  }

  lemma CreditSettles()
    ensures var db := Apply(Opened().(rows := [CreditRow()]), OfWallet(DirectSettled(0)));
      && |db.rows| == 1 && db.rows[0].transferId.None? && db.rows[0].timestamp == 1
      && db.wallets == map[0 := 25_000_000, 1 := 0] && db.tiers == Opened().tiers && db.withdrawals == [] && db.clock == 1
  {
    var begun := Opened().(rows := [CreditRow()]);
    assert PendingDirect(begun.rows, 0) && CanBook(begun, begun.rows[0]);
    assert SettleDirect(begun, 0).wallets == map[0 := 25_000_000, 1 := 0];
  }

  lemma MoneyArrives()
    ensures Sent(Apply(Apply(Opened(), OfWallet(DirectBegun(0, Credit, 25_000_000))), OfWallet(DirectSettled(0))), 0)
  {
    hide Apply, DayStart;
    CreditBegins();
    CreditSettles();
    NothingSent(Apply(Opened().(rows := [CreditRow()]), OfWallet(DirectSettled(0))).rows, DayStart(1));
    hide CreditRow, SumBy;
  }

  lemma NothingSent(rows: seq<Transaction>, day: int)
    requires forall i :: 0 <= i < |rows| ==> rows[i].transferId.None?
    ensures SumBy(rows, SentOn(0, day)) == 0
  {
    SumZero(rows, SentOn(0, day));
  }

  lemma RunFour(db: Db, a: Action, b: Action, c: Action, d: Action)
    ensures Run(db, [a, b, c, d]) == Apply(Apply(Apply(Apply(db, a), b), c), d)
  {
    hide Apply;
    assert [a, b, c, d] == [a] + [b] + [c] + [d];
    RunConcat(db, [a] + [b] + [c], [d]);
    RunConcat(db, [a] + [b], [c]);
    RunConcat(db, [a], [b]);
    RunOne(db, a);
    RunOne(Apply(db, a), b);
    RunOne(Apply(Apply(db, a), b), c);
    RunOne(Apply(Apply(Apply(db, a), b), c), d);
  }

  lemma FundedIsReady()
    ensures Sent(Run(NewDatabase(0), FUNDED), 0)
  {
    hide Apply, Sent;
    RunFour(NewDatabase(0), FUNDED[0], FUNDED[1], FUNDED[2], FUNDED[3]);
    AccountsOpen();
    MoneyArrives();
    assert FUNDED == [FUNDED[0], FUNDED[1], FUNDED[2], FUNDED[3]];
  }

  /** The `k` payments. */
  function Payments(k: nat): seq<Action> {
    if k == 0 then []
    else Payments(k - 1) + [OfWallet(TransferBegun(0, 1, FULL))] + [OfWallet(TransferSettled(2 * k - 1))]
  }

  lemma PaymentBegins(db: Db, k: nat)
    requires Sent(db, k) && k <= 4
    ensures var begun := Apply(db, OfWallet(TransferBegun(0, 1, FULL)));
      && begun == db.(rows := begun.rows, transfers := begun.transfers)
      && |begun.rows| == 3 + 2 * k
      && PendingTransfer(begun.rows, 1 + 2 * k, 2 + 2 * k)
      && begun.rows[1 + 2 * k].user == 0 && begun.rows[1 + 2 * k].amount == FULL && begun.rows[2 + 2 * k].user == 1 && begun.rows[2 + 2 * k].amount == FULL
      && (forall i :: 0 <= i < |begun.rows| ==> begun.rows[i].timestamp == 1)
      && (forall since: int :: SumBy(begun.rows, TransferOut(0, since)) == SumBy(db.rows, TransferOut(0, since)))
      && (forall day: int :: SumBy(begun.rows, SentOn(0, day)) == SumBy(db.rows, SentOn(0, day)))
  {
    var begun := Apply(db, OfWallet(TransferBegun(0, 1, FULL)));
    var d, c := begun.rows[1 + 2 * k], begun.rows[2 + 2 * k];
    assert begun.rows == db.rows + [d] + [c];
    forall since: int ensures SumBy(begun.rows, TransferOut(0, since)) == SumBy(db.rows, TransferOut(0, since)) {
      SumAppend(db.rows + [d], c, TransferOut(0, since));
      SumAppend(db.rows, d, TransferOut(0, since));
    }
    forall day: int ensures SumBy(begun.rows, SentOn(0, day)) == SumBy(db.rows, SentOn(0, day)) {
      SumAppend(db.rows + [d], c, SentOn(0, day));
      SumAppend(db.rows, d, SentOn(0, day));
    }
  }

  /** What the check counts on the first day is what has been sent. */
  lemma CountedSoFar(rows: seq<Transaction>)
    requires forall i :: 0 <= i < |rows| ==> rows[i].timestamp == 1
    ensures SumBy(rows, TransferOut(0, DayStart(1))) == SumBy(rows, SentOn(0, DayStart(1)))
  {
    DaysTileTime(1, 1);
    SumAgree(rows, TransferOut(0, DayStart(1)), rows, SentOn(0, DayStart(1)));
  }

  lemma PaymentSettles(db: Db, k: nat)
    requires Sent(db, k) && k < 4
    ensures Sent(Apply(Apply(db, OfWallet(TransferBegun(0, 1, FULL))), OfWallet(TransferSettled(1 + 2 * k))), k + 1)
  {
    hide DayStart, SumBy, Apply, SettleTransfer, CanTransfer;
    PaymentBegins(db, k);
    var begun := Apply(db, OfWallet(TransferBegun(0, 1, FULL)));
    var i, j := 1 + 2 * k, 2 + 2 * k;
    CanPay(db, begun, k);
    SettledIsApplied(begun, i);
    SettledTransferRows(begun, i, j, SentOn(0, DayStart(1)));
    SettledFacts(begun, i, j);
  }

  lemma CanPay(db: Db, begun: Db, k: nat)
    requires Sent(db, k) && k < 4 && begun == db.(rows := begun.rows, transfers := begun.transfers)
    requires PendingTransfer(begun.rows, 1 + 2 * k, 2 + 2 * k)
    requires begun.rows[1 + 2 * k].user == 0 && begun.rows[1 + 2 * k].amount == FULL && begun.rows[2 + 2 * k].user == 1
    requires SumBy(begun.rows, TransferOut(0, DayStart(1))) == SumBy(db.rows, TransferOut(0, DayStart(1)))
    ensures CanTransfer(begun, begun.rows[1 + 2 * k], begun.rows[2 + 2 * k])
  {
    hide DayStart, SumBy;
    CountedSoFar(db.rows);
    NoneWithdrawnOut(DayStart(1));
  }

  lemma SettledFacts(db: Db, i: nat, j: nat)
    requires PendingTransfer(db.rows, i, j) && CanTransfer(db, db.rows[i], db.rows[j]) && db.rows[i].user == 0 && db.rows[j].user == 1
    requires db.wallets.Keys == {0, 1} && db.rows[i].amount == db.rows[j].amount == FULL
    ensures var settled := SettleTransfer(db, i, j);
      && settled.wallets == map[0 := db.wallets[0] - FULL, 1 := db.wallets[1] + FULL]
      && settled.tiers == db.tiers && settled.withdrawals == db.withdrawals && settled.clock == db.clock
      && |settled.rows| == |db.rows| && (forall k :: 0 <= k < |db.rows| ==> settled.rows[k].timestamp == db.rows[k].timestamp)
      && settled.rows[i] == db.rows[i].(status := TxStatus.Successful, balanceBefore := db.wallets[0], balanceAfter := db.wallets[0] - FULL)
  {
  }

  lemma RunNone(db: Db)
    ensures Run(db, []) == db
  {
  }

  lemma {:induction false} PaymentsAreSent(db: Db, k: nat)
    requires Sent(db, 0) && k <= 4
    ensures Sent(Run(db, Payments(k)), k)
  {
    hide Sent, Apply, Run, FULL;
    if k == 0 {
      RunNone(db);
    } else {
      PaymentsAreSent(db, k - 1);
      assert 2 * k - 1 == 1 + 2 * (k - 1);
      RunTwoMore(db, Payments(k - 1), OfWallet(TransferBegun(0, 1, FULL)), OfWallet(TransferSettled(2 * k - 1)));
      PaymentSettles(Run(db, Payments(k - 1)), k - 1);
    }
  }

  /** Four full payments, a fifth asked for on the same day, and midnight. */
  function LateRun(): seq<Action> {
    FUNDED + Payments(4) + [OfWallet(TransferBegun(0, 1, FULL))] + [OfStaff(ClockAdvanced(DAY_MS))]
  }

  lemma FourAreSent()
    ensures Sent(Run(NewDatabase(0), FUNDED + Payments(4)), 4)
  {
    hide Sent, Run, FUNDED;
    FundedIsReady();
    RunConcat(NewDatabase(0), FUNDED, Payments(4));
    PaymentsAreSent(Run(NewDatabase(0), FUNDED), 4);
  }

  /** The next day has begun, and nothing has been sent on it. */
  lemma NextDay()
    ensures DayStart(1) != DayStart(1 + DAY_MS) && 1 < DayStart(1 + DAY_MS)
  {
    assert DayStart(1) == -OFFSET_MS && DayStart(1 + DAY_MS) == DAY_MS - OFFSET_MS;
  }

  lemma NoneSentSince(rows: seq<Transaction>, since: int)
    requires (forall i :: 0 <= i < |rows| ==> rows[i].timestamp == 1) && 1 < since
    ensures SumBy(rows, TransferOut(0, since)) == 0
  {
    SumZero(rows, TransferOut(0, since));
  }

  lemma NoneSentOn(rows: seq<Transaction>, day: int)
    requires (forall i :: 0 <= i < |rows| ==> rows[i].timestamp == 1) && day != DayStart(1)
    ensures SumBy(rows, SentOn(0, day)) == 0
  {
    SumZero(rows, SentOn(0, day));
  }

  /** With four sent and the fifth pending, midnight passes: the first day is exactly full, and the fifth can still settle. */
  lemma FifthCanStillSettle(db: Db)
    requires Sent(db, 4)
    ensures var late := Apply(Apply(db, OfWallet(TransferBegun(0, 1, FULL))), OfStaff(ClockAdvanced(DAY_MS)));
      && PendingTransfer(late.rows, 9, 10) && CanTransfer(late, late.rows[9], late.rows[10])
      && late.rows[9].user == 0 && late.rows[9].amount == FULL && late.rows[9].timestamp == 1 && late.clock == 1 + DAY_MS
      && WithinLimits(late, 0) && late.tiers == map[0 := Tier1, 1 := Tier1] && DaySpent(late, 0, DayStart(1)) == TIER_1_DAILY_OUT
  {
    PaymentBegins(db, 4);
    NextDay();
    var begun := Apply(db, OfWallet(TransferBegun(0, 1, FULL)));
    var late := Apply(begun, OfStaff(ClockAdvanced(DAY_MS)));
    assert late == begun.(clock := 1 + DAY_MS);
    NoneSentSince(late.rows, DayStart(1 + DAY_MS));
    hide DayStart, SumBy, Apply;
    forall day: int ensures DaySpent(late, 0, day) <= Allowance(late, 0) {
      if day != DayStart(1) { NoneSentOn(late.rows, day); }
      NoneWithdrawn(day);
    }
    NoneWithdrawn(DayStart(1));
    NoneWithdrawnOut(DayStart(1 + DAY_MS));
  }

  lemma NoneWithdrawn(day: int)
    ensures SumBy([], WithdrawnOn(0, day)) == 0
  {
  }

  lemma NoneWithdrawnOut(since: int)
    ensures SumBy([], WithdrawnOut(0, since)) == 0
  {
  }

  /** A transfer asked for before midnight and settled after it takes the first day past its limit. */
  lemma LateTransferPassesTheLimit()
    ensures Inv(Run(NewDatabase(0), LateRun())) && WithinLimits(Run(NewDatabase(0), LateRun()), 0)
    ensures !WithinLimits(Run(NewDatabase(0), LateRun() + [OfWallet(TransferSettled(9))]), 0)
  {
    hide Inv, Sent, WithinLimits, Apply, Run, FUNDED, DayStart, DaySpent;
    NewDatabaseIsSound(0);
    RunKeepsInv(NewDatabase(0), LateRun());
    var sent := FUNDED + Payments(4);
    var db := Run(NewDatabase(0), sent);
    var late := Run(NewDatabase(0), LateRun());
    FourAreSent();
    RunTwoMore(NewDatabase(0), sent, OfWallet(TransferBegun(0, 1, FULL)), OfStaff(ClockAdvanced(DAY_MS)));
    RunConcat(NewDatabase(0), LateRun(), [OfWallet(TransferSettled(9))]);
    RunOne(late, OfWallet(TransferSettled(9)));
    FifthCanStillSettle(db);
    NextDay();
    SettledIsApplied(late, 9);
    TransferWithinDay(late, 9, 10, 0);
  }

  lemma RunTwoMore(db: Db, actions: seq<Action>, a: Action, b: Action)
    ensures Run(db, actions + [a] + [b]) == Apply(Apply(Run(db, actions), a), b)
  {
    hide Apply;
    RunConcat(db, actions + [a], [b]);
    RunConcat(db, actions, [a]);
    RunOne(Run(db, actions), a);
    RunOne(Apply(Run(db, actions), a), b);
  }

  lemma SettledIsApplied(db: Db, i: nat)
    requires PendingTransfer(db.rows, i, i + 1)
    ensures Apply(db, OfWallet(TransferSettled(i))) == SettleTransfer(db, i, i + 1)
  {
  }

  // ---------- A received transfer taken back ----------

  const LARGE: Amount := 50_000_000

  /** A Tier 2 user is given 500,000 naira and sends all of it to a Tier 1 user. */
  const LARGE_RUN: seq<Action> :=
    [OfStaff(AccountOpened(0)), OfStaff(AccountOpened(1))]
    + [OfStaff(TierSet(0, Tier2))] + [OfWallet(DirectBegun(0, Credit, LARGE))]
    + [OfWallet(DirectSettled(0))] + [OfWallet(TransferBegun(0, 1, LARGE))]
    + [OfWallet(TransferSettled(1))]

  /** What matters about the state after it. */
  predicate LargeReceived(db: Db) {
    && db.wallets == map[0 := 0, 1 := LARGE] && db.tiers == map[0 := Tier2, 1 := Tier1]
    && db.deposits == [] && db.withdrawals == [] && db.clock == 1
    && |db.rows| == 3 && db.rows[0].transferId.None? && db.rows[0].reversalOf.None?
    && StandingLeg(db.rows[1], 0, Debit) && StandingLeg(db.rows[2], 1, Credit)
  }

  predicate StandingLeg(t: Transaction, u: UserId, kind: TxType) {
    && t.user == u && t.kind == kind && t.amount == LARGE && t.status == TxStatus.Successful
    && t.transferId == Some(0) && t.reversalOf.None? && t.timestamp == 1
  }

  function LargeCredit(status: TxStatus): Transaction {
    Transaction(0, Credit, status, LARGE, 0, if status == TxStatus.Pending then 0 else LARGE, None, None, 1, Origin.Direct)
  }

  lemma LargeCreditSettles()
    ensures var open := Opened().(tiers := map[0 := Tier2, 1 := Tier1]);
      && Apply(Opened(), OfStaff(TierSet(0, Tier2))) == open
      && Apply(open, OfWallet(DirectBegun(0, Credit, LARGE))) == open.(rows := [LargeCredit(TxStatus.Pending)])
  {
    assert Opened().tiers[0 := Tier2] == map[0 := Tier2, 1 := Tier1];
  }

  predicate LargeHeld(db: Db) {
    && db.wallets == map[0 := LARGE, 1 := 0] && db.tiers == map[0 := Tier2, 1 := Tier1]
    && db.deposits == [] && db.withdrawals == [] && db.clock == 1 && db.transfers == 0
    && db.rows == [LargeCredit(TxStatus.Successful)]
  }

  lemma LargeIsHeld()
    ensures LargeHeld(Apply(Opened().(tiers := map[0 := Tier2, 1 := Tier1], rows := [LargeCredit(TxStatus.Pending)]), OfWallet(DirectSettled(0))))
  {
    var begun := Opened().(tiers := map[0 := Tier2, 1 := Tier1], rows := [LargeCredit(TxStatus.Pending)]);
    assert PendingDirect(begun.rows, 0) && CanBook(begun, begun.rows[0]);
    assert SettleDirect(begun, 0).wallets == map[0 := LARGE, 1 := 0];
    assert SettleDirect(begun, 0).rows == [LargeCredit(TxStatus.Successful)];
  }

  function LargeLeg(u: UserId, kind: TxType): Transaction {
    Transaction(u, kind, TxStatus.Pending, LARGE, 0, 0, Some(0), None, 1, Origin.TransferLeg)
  }

  lemma LargeTransferBegins(db: Db)
    requires LargeHeld(db)
    ensures Apply(db, OfWallet(TransferBegun(0, 1, LARGE))) ==
            db.(rows := [LargeCredit(TxStatus.Successful), LargeLeg(0, Debit), LargeLeg(1, Credit)], transfers := 1)
  {
  }

  lemma NothingSpentYet(since: int)
    ensures SumBy([LargeCredit(TxStatus.Successful), LargeLeg(0, Debit), LargeLeg(1, Credit)], TransferOut(0, since)) == 0
    ensures SumBy([], WithdrawnOut(0, since)) == 0
  {
    SumZero([LargeCredit(TxStatus.Successful), LargeLeg(0, Debit), LargeLeg(1, Credit)], TransferOut(0, since));
  }

  lemma LargeTransferSettles(db: Db)
    requires LargeHeld(db)
    ensures LargeReceived(Apply(Apply(db, OfWallet(TransferBegun(0, 1, LARGE))), OfWallet(TransferSettled(1))))
  {
    LargeTransferBegins(db);
    var begun := Apply(db, OfWallet(TransferBegun(0, 1, LARGE)));
    hide Apply;
    NothingSpentYet(DayStart(1));
    assert PendingTransfer(begun.rows, 1, 2);
    assert CanTransfer(begun, begun.rows[1], begun.rows[2]);
    SettledIsApplied(begun, 1);
    var settled := SettleTransfer(begun, 1, 2);
    assert settled.wallets == map[0 := 0, 1 := LARGE];
  }

  lemma LargeRunIsReceived()
    ensures LargeReceived(Run(NewDatabase(0), LARGE_RUN))
  {
    hide Apply, LargeReceived, LargeHeld, Opened, LargeCredit, Run;
    var db := NewDatabase(0);
    var two := [OfStaff(AccountOpened(0)), OfStaff(AccountOpened(1))];
    RunPair(db, OfStaff(AccountOpened(0)), OfStaff(AccountOpened(1)));
    AccountsOpen();
    LargeCreditSettles();
    LargeIsHeld();
    RunTwoMore(db, two, OfStaff(TierSet(0, Tier2)), OfWallet(DirectBegun(0, Credit, LARGE)));
    var four := two + [OfStaff(TierSet(0, Tier2))] + [OfWallet(DirectBegun(0, Credit, LARGE))];
    RunConcat(db, four, [OfWallet(DirectSettled(0))]);
    RunOne(Run(db, four), OfWallet(DirectSettled(0)));
    var held := Run(db, four + [OfWallet(DirectSettled(0))]);
    RunTwoMore(db, four + [OfWallet(DirectSettled(0))], OfWallet(TransferBegun(0, 1, LARGE)), OfWallet(TransferSettled(1)));
    LargeTransferSettles(held);
  }

  lemma RunPair(db: Db, a: Action, b: Action)
    ensures Run(db, [a, b]) == Apply(Apply(db, a), b)
  {
    hide Apply;
    RunNone(db);
    RunTwoMore(db, [], a, b);
    assert [] + [a] + [b] == [a, b];
  }

  lemma LargeCanBeReversed(db: Db)
    requires LargeReceived(db)
    ensures Reversible(db, 1, 0) && PairedLeg(db.rows, 1, 2)
    ensures Reversible(db, 2, 1) && PairedLeg(db.rows, 2, 2)
  {
  }

  lemma NothingSpentBy(db: Db, u: UserId)
    requires db.withdrawals == [] && forall i :: 0 <= i < |db.rows| && db.rows[i].user == u ==> !Spends(db.rows[i])
    ensures WithinLimits(db, u)
    ensures forall day: int :: DaySpent(db, u, day) == 0
  {
    forall day: int ensures DaySpent(db, u, day) == 0 {
      SumZero(db.rows, SentOn(u, day));
    }
  }

  /** Its sender takes the transfer back: that counts as the receiver's spending, far over a Tier 1 day. */
  lemma TakenBackPassesTheLimit()
    ensures var asked := LARGE_RUN + [OfWallet(ReversalBegun(1, 0, 2))];
      && Inv(Run(NewDatabase(0), asked)) && WithinLimits(Run(NewDatabase(0), asked), 1)
      && !WithinLimits(Run(NewDatabase(0), asked + [OfWallet(TransferReversalSettled(3))]), 1)
  {
    hide Inv, Apply, Run, LargeReceived, LARGE_RUN, WithinLimits, DaySpent, DayStart;
    var db := Run(NewDatabase(0), LARGE_RUN);
    var asked := LARGE_RUN + [OfWallet(ReversalBegun(1, 0, 2))];
    LargeRunIsReceived();
    NewDatabaseIsSound(0);
    RunKeepsInv(NewDatabase(0), asked);
    RunConcat(NewDatabase(0), LARGE_RUN, [OfWallet(ReversalBegun(1, 0, 2))]);
    RunOne(db, OfWallet(ReversalBegun(1, 0, 2)));
    RunConcat(NewDatabase(0), asked, [OfWallet(TransferReversalSettled(3))]);
    RunOne(Run(NewDatabase(0), asked), OfWallet(TransferReversalSettled(3)));
    TakenBack(db);
    var begun := Run(NewDatabase(0), asked);
    ReversalWithinDay(begun, 3);
  }

  /** What is asked for, and what settling it does. */
  lemma TakenBack(db: Db)
    requires LargeReceived(db)
    ensures var begun := Apply(db, OfWallet(ReversalBegun(1, 0, 2)));
      && PendingTransferReversal(begun.rows, 3, 4) && begun.rows[3].user in begun.wallets && CanBook(begun, begun.rows[4])
      && begun.rows[4].user == 1 && begun.rows[4].amount == LARGE && begun.tiers == db.tiers
      && WithinLimits(begun, 1) && (forall day: int :: DaySpent(begun, 1, day) == 0) && Allowance(begun, 1) == TIER_1_DAILY_OUT
      && Apply(begun, OfWallet(TransferReversalSettled(3))) == SettleTransferReversal(begun, 3, 4)
  {
    LargeCanBeReversed(db);
    var begun := BeginTransferReversal(db, 1, 2);
    assert Apply(db, OfWallet(ReversalBegun(1, 0, 2))) == begun;
    hide Reversible, SettleTransferReversal;
    NothingSpentBy(begun, 1);
  }

  // ---------- A transfer reversed from its CREDIT leg ----------

  /** Reversed from row `i` by its own user, the transfer's rows and wallets no longer agree. */
  ghost predicate BreaksTheBooks(db: Db, i: TxId, backLast: bool) {
    && i < |db.rows| && PairedLeg(db.rows, i, i)
    && var begun, p := BeginTransferReversal(db, i, i), |db.rows|;
       && PendingTransferReversal(begun.rows, p, p + 1) && begun.rows[p].user in begun.wallets && begun.rows[p + 1].user in begun.wallets
       && !BalancedByRows(RawTransferReversal(begun, p, p + 1, backLast))
  }

  /** Its receiver reverses the same transfer: the books no longer agree, whichever of the two wallet writes lands last. */
  lemma CreditLegBreaksTheBooks(backLast: bool)
    ensures Inv(Run(NewDatabase(0), LARGE_RUN))
    ensures Reversible(Run(NewDatabase(0), LARGE_RUN), 2, 1) && BreaksTheBooks(Run(NewDatabase(0), LARGE_RUN), 2, backLast)
  {
    hide Inv, Apply, Run, LARGE_RUN, RawTransferReversal, BalancedByRows;
    var db := Run(NewDatabase(0), LARGE_RUN);
    LargeRunIsReceived();
    NewDatabaseIsSound(0);
    RunKeepsInv(NewDatabase(0), LARGE_RUN);
    LargeCanBeReversed(db);
    TransferReversalNeedsDebitLeg(db, 2, 2, 1, backLast);
    hide Reversible;
  }

  /** That is what the request leaves behind. */
  lemma CreditLegRequestBreaksTheBooks()
    ensures Reversible(Run(NewDatabase(0), LARGE_RUN), 2, 1)
    ensures !BalancedByRows(ReversalOutcome(Run(NewDatabase(0), LARGE_RUN), 2, 1, 2, false).0)
  {
    hide Inv, Apply, Run, LARGE_RUN, RawTransferReversal, BalancedByRows;
    var db := Run(NewDatabase(0), LARGE_RUN);
    LargeRunIsReceived();
    CreditLegBreaksTheBooks(false);
    hide Reversible;
  }

  // ---------- An opening entry and a history that does not hold it ----------

  /** An old database: user 0 holds 100 kobo and has no rows. */
  function OldDatabase(): Db {
    Db(map[0 := 100], [], [], [], [], [], map[0 := Tier1], {}, 0, [], 0, 1)
  }

  lemma OldDatabaseIsHealthy()
    ensures BeforeStart(OldDatabase(), [0])
  {
  }

  function UtcDay(): Calendar {
    (t: int) => t / DAY_MS
  }

  lemma UtcIsReal()
    ensures RealCalendar(UtcDay())
  {
  }

  /** After the migration the stats say the period started with 100 kobo, and the statement opens with none. */
  lemma OpeningEntrySplitsTheTwo(days: nat)
    requires 0 < days
    ensures AllHold(OldDatabase().wallets, [0])
    ensures var db := StartLedger(OldDatabase(), [0]);
      && Inv(db) && Listed([], db.rows, 0)
      && WalletStatsOf(db, 0, UtcDay(), 0, days).atPeriodStart != Opening(db.rows, [], UtcDay(), 0 - (days - 1))
  {
    OldDatabaseIsHealthy();
    hide Inv, BeforeStart, Series;
    MigrationEstablishesInv(OldDatabase(), [0]);
    var db := StartLedger(OldDatabase(), [0]);
    UtcIsReal();
    BalancedOf(db);
    OldDatabaseIsHealthy();
    OpeningFound(OldDatabase(), [0], 0);
    StartIsOpeningIff(db, 0, [], UtcDay(), 0, days);
  }

  lemma BalancedOf(db: Db)
    requires Inv(db)
    ensures BalancedByRows(db)
  {
    hide RowsOk, ReversedOnce, TransfersPaired, ReversalsPaired, Linked, Posted, BalancedByRows, CommitsComplete, BalancesChained, BalancedByLedger;
  }

  // ---------- A refund that read before the payout was marked paid ----------

  /** A returned payout is being refunded while a slow caller marks it as paid. */
  const SLOW_REFUND: seq<SplitAction> :=
    [Acts(OfPayment(WithdrawalCreated(0, FULL))), RefundReads(0, WithdrawalStatus.Reversed),
     Acts(OfPayment(PayoutSent(0, Reported(TransferSuccess)))), RefundClaims(0)]

  lemma SplitFour(s: SplitDb, a: SplitAction, b: SplitAction, c: SplitAction, d: SplitAction)
    ensures RunSplit(s, [a, b, c]) == ApplySplit(ApplySplit(ApplySplit(s, a), b), c)
    ensures RunSplit(s, [a, b, c, d]) == ApplySplit(RunSplit(s, [a, b, c]), d)
    ensures LateTotal(s, [a, b, c, d]) ==
            LateAmount(s, a) + LateAmount(ApplySplit(s, a), b) + LateAmount(ApplySplit(ApplySplit(s, a), b), c) + LateAmount(RunSplit(s, [a, b, c]), d)
  {
    hide ApplySplit, LateAmount;
    assert [a, b, c, d][..3] == [a, b, c] && [a, b, c][..2] == [a, b] && [a, b][..1] == [a] && [a][..0] == [];
    assert RunSplit(s, []) == s && LateTotal(s, []) == 0;
    assert RunSplit(s, [a]) == ApplySplit(s, a) && LateTotal(s, [a]) == LateAmount(s, a);
    assert RunSplit(s, [a, b]) == ApplySplit(ApplySplit(s, a), b);
    assert LateTotal(s, [a, b]) == LateAmount(s, a) + LateAmount(ApplySplit(s, a), b);
  }

  lemma CanWithdrawFull(db: Db)
    requires Sent(db, 0)
    ensures CanWithdraw(db, 0, FULL)
  {
    hide DayStart, SumBy;
    CountedSoFar(db.rows);
    NoneWithdrawnOut(DayStart(1));
  }

  /** The withdrawal of user 0 with this status. */
  predicate OnlyWithdrawal(db: Db, status: WithdrawalStatus) {
    && |db.withdrawals| == 1 && db.withdrawals[0].user == 0 && db.withdrawals[0].amount == FULL && db.withdrawals[0].status == status
    && HasPayout(db, 0) && 0 in db.wallets
  }

  lemma WithdrawalIsUnderway(db: Db)
    requires Sent(db, 0)
    ensures OnlyWithdrawal(CreateWithdrawal(db, 0, FULL), WithdrawalStatus.Processing)
  {
    hide Sent, CanWithdraw;
    CanWithdrawFull(db);
    assert db.withdrawals == [] && 0 in db.wallets by { SentNothingWithdrawn(db); }
  }

  lemma SentNothingWithdrawn(db: Db)
    requires Sent(db, 0)
    ensures db.withdrawals == [] && 0 in db.wallets
  {
  }

  lemma MarkedPaid(db: Db)
    requires OnlyWithdrawal(db, WithdrawalStatus.Processing)
    ensures OnlyWithdrawal(MarkSuccessful(db, 0), WithdrawalStatus.Successful)
  {
  }

  lemma RefundedLate(db: Db)
    requires OnlyWithdrawal(db, WithdrawalStatus.Successful)
    ensures OnlyWithdrawal(RefundWithRead(db, 0, WithdrawalStatus.Reversed, WithdrawalStatus.Processing), WithdrawalStatus.Reversed)
  {
  }

  /** The state before the claim. */
  lemma PaidMeanwhileRun(db: Db)
    requires Sent(db, 0)
    ensures var s := RunSplit(SplitDb(db, []), SLOW_REFUND[..3]);
      && OnlyWithdrawal(CreateWithdrawal(db, 0, FULL), WithdrawalStatus.Processing)
      && s.db == MarkSuccessful(CreateWithdrawal(db, 0, FULL), 0)
      && s.readings == [Reading(0, WithdrawalStatus.Reversed, WithdrawalStatus.Processing)]
  {
    hide Sent, CreateWithdrawal, MarkSuccessful;
    WithdrawalIsUnderway(db);
    SplitFour(SplitDb(db, []), SLOW_REFUND[0], SLOW_REFUND[1], SLOW_REFUND[2], SLOW_REFUND[3]);
    assert SLOW_REFUND[..3] == [SLOW_REFUND[0], SLOW_REFUND[1], SLOW_REFUND[2]];
    hide RunSplit;
  }

  lemma ClaimIsLate(s: SplitDb)
    requires OnlyWithdrawal(s.db, WithdrawalStatus.Successful)
    requires s.readings == [Reading(0, WithdrawalStatus.Reversed, WithdrawalStatus.Processing)]
    ensures LateAmount(s, RefundClaims(0)) == FULL
    ensures ApplySplit(s, RefundClaims(0)).db == RefundWithRead(s.db, 0, WithdrawalStatus.Reversed, WithdrawalStatus.Processing)
  {
    hide RefundWithRead;
  }

  lemma SlowRefundEnds(db: Db)
    requires Sent(db, 0)
    ensures OnlyWithdrawal(RunSplit(SplitDb(db, []), SLOW_REFUND).db, WithdrawalStatus.Reversed)
    ensures LateTotal(SplitDb(db, []), SLOW_REFUND) == FULL
  {
    hide Sent, CreateWithdrawal, MarkSuccessful, RefundWithRead, OnlyWithdrawal, ApplySplit, RunSplit, LateTotal;
    var created, s := CreateWithdrawal(db, 0, FULL), RunSplit(SplitDb(db, []), SLOW_REFUND[..3]);
    WithdrawalIsUnderway(db);
    MarkedPaid(created);
    PaidMeanwhileRun(db);
    ClaimIsLate(s);
    RefundedLate(s.db);
    SplitFour(SplitDb(db, []), SLOW_REFUND[0], SLOW_REFUND[1], SLOW_REFUND[2], SLOW_REFUND[3]);
    assert SLOW_REFUND[..3] == [SLOW_REFUND[0], SLOW_REFUND[1], SLOW_REFUND[2]];
    assert SLOW_REFUND == [SLOW_REFUND[0], SLOW_REFUND[1], SLOW_REFUND[2], SLOW_REFUND[3]];
  }

  lemma FundedIsInStep()
    ensures var start := Run(NewDatabase(0), FUNDED);
      Inv(start) && Sent(start, 0) && Gap(start, PayoutsInTransit) == 0
  {
    hide Inv, Sent, Run, Gap, FUNDED, LedgerEmpty;
    NewDatabaseIsSound(0);
    RunKeepsInv(NewDatabase(0), FUNDED);
    FundedIsReady();
    NothingYet();
    EmptyLedgerHasNoGaps(NewDatabase(0), PayoutsInTransit);
    assert Gap(Run(NewDatabase(0), FUNDED), PayoutsInTransit) == Gap(NewDatabase(0), PayoutsInTransit);
  }

  lemma NothingYet()
    ensures LedgerEmpty(NewDatabase(0))
  {
  }

  lemma MispostedInTransit(db: Db, total: int)
    requires OnlyWithdrawal(db, WithdrawalStatus.Reversed) && Gap(db, PayoutsInTransit) == total
    ensures SumBy(db.withdrawals, WithdrawnAs(WithdrawalStatus.Processing)) == 0
    ensures AccountBalance(db.journal, PayoutsInTransit) == total
  {
    hide AccountBalance, SumBy;
    NothingUnderway(db);
  }

  /** Payouts in transit ends at plus the amount, with nothing PROCESSING; the wallets are right all the same. */
  lemma SlowRefundMisposts(start: Db)
    requires start == Run(NewDatabase(0), FUNDED)
    ensures var db := RunSplit(SplitDb(start, []), SLOW_REFUND).db;
      && Inv(db)
      && SumBy(db.withdrawals, WithdrawnAs(WithdrawalStatus.Processing)) == 0
      && AccountBalance(db.journal, PayoutsInTransit) == FULL
  {
    hide Inv, Sent, Run, RunSplit, LateTotal, ReadingsOk, AccountBalance, FUNDED, SLOW_REFUND, Gap, SumBy, OnlyWithdrawal;
    FundedIsInStep();
    NoReadings(start);
    LateClaimsShiftTwoAccounts(SplitDb(start, []), SLOW_REFUND);
    SlowRefundEnds(start);
    MispostedInTransit(RunSplit(SplitDb(start, []), SLOW_REFUND).db, FULL);
  }

  lemma NothingUnderway(db: Db)
    requires OnlyWithdrawal(db, WithdrawalStatus.Reversed)
    ensures SumBy(db.withdrawals, WithdrawnAs(WithdrawalStatus.Processing)) == 0
  {
    SumZero(db.withdrawals, WithdrawnAs(WithdrawalStatus.Processing));
  }

  // ---------- A deposit confirmed while its checkout was being started ----------

  function GoodPayment(d: nat): Payment {
    Payment(PaidUp, d, FULL, true)
  }

  lemma StartedAndPaid(db: Db)
    requires Sent(db, 0)
    ensures var d, started := |db.deposits|, Apply(db, OfPayment(DepositCreated(1, FULL)));
      var paid := Apply(started, OfPayment(DepositConfirmed(d, GoodPayment(d))));
      d < |paid.deposits| && paid.deposits[d].status == DepositStatus.Successful
  {
    hide SumBy, DayStart;
    var d := |db.deposits|;
    var started := CreateDeposit(db, 1, FULL);
    assert started.deposits[d] == Deposit(1, FULL, DepositStatus.Pending, None, db.clock);
    assert Matches(started, d, GoodPayment(d));
    SettledIsSuccessful(started, d);
    hide SettleDeposit, CreateDeposit, Sent;
  }

  lemma SettledIsSuccessful(db: Db, d: nat)
    requires d < |db.deposits| && db.deposits[d].status == DepositStatus.Pending && db.deposits[d].user in db.wallets
    ensures |SettleDeposit(db, d).deposits| == |db.deposits| && SettleDeposit(db, d).deposits[d].status == DepositStatus.Successful
  {
  }

  /** The wallet is credited, and then the catch block marks the deposit as FAILED. */
  lemma FailedStartLosesADeposit(start: Db)
    requires start == Run(NewDatabase(0), FUNDED)
    ensures var d := |start.deposits|;
      var paid := Apply(Apply(start, OfPayment(DepositCreated(1, FULL))), OfPayment(DepositConfirmed(d, GoodPayment(d))));
      && Inv(paid) && d < |paid.deposits|
      && !Inv(FailStart(paid, d)) && !SameGaps(paid, FailStart(paid, d))
  {
    hide Inv, Sent, Run, Apply, FUNDED, Gap, SameGaps, FailStart, GoodPayment, RowsEvolve;
    FundedIsInStep();
    StartedAndPaid(start);
    var d := |start.deposits|;
    var started := Apply(start, OfPayment(DepositCreated(1, FULL)));
    StepKeepsInv(start, OfPayment(DepositCreated(1, FULL)));
    StepKeepsInv(started, OfPayment(DepositConfirmed(d, GoodPayment(d))));
    FailedStartIsSafeIff(Apply(started, OfPayment(DepositConfirmed(d, GoodPayment(d)))), d);
  }
}
