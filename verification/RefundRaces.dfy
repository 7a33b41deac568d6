/** Refunds whose status is read before the claim. */
module RefundRaces {
  // A refund's transaction reads the status, to know which account the money comes from, and then claims the
  // withdrawal. Marking a withdrawal as paid takes no wallet lock, so it may commit in between. Here reads and
  // claims of any number of refunds are steps of their own, among everything else the engine does.

  import opened Basics
  import opened Tables
  import opened Ledger
  import opened Steps
  import opened Invariants
  import opened JournalProofs
  import opened BalanceProofs
  import opened AccountProofs
  import opened Runs
  import opened Guarantees
  import opened Readings

  // ---------- One claim ----------

  /** The refund takes effect. */
  predicate Claims(db: Db, w: nat, outcome: WithdrawalStatus) {
    HasPayout(db, w) && Claimable(db.withdrawals[w].status, outcome) && db.withdrawals[w].user in db.wallets
  }

  /** What claiming with this read does to account `a` that claiming with a fresh one would not. */
  function Misposted(db: Db, w: nat, outcome: WithdrawalStatus, read: WithdrawalStatus, a: Account): int {
    if !Claims(db, w, outcome) then 0
    else
      (if a == RefundedFrom(read) then db.withdrawals[w].amount else 0)
      - (if a == RefundedFrom(db.withdrawals[w].status) then db.withdrawals[w].amount else 0)
  }

  lemma ReadIsOnlyPosted(db: Db, w: nat, outcome: WithdrawalStatus, read: WithdrawalStatus)
    requires HasPayout(db, w)
    ensures var atOnce, split := RefundWithdrawal(db, w, outcome), RefundWithRead(db, w, outcome, read);
      && split == atOnce.(journal := split.journal)
      && (!Claims(db, w, outcome) ==> split == db)
      && (Claims(db, w, outcome) ==>
            && atOnce.journal == db.journal + [RefundMovement(db.withdrawals[w], db.withdrawals[w].status, w, |db.rows|, db.clock)]
            && split.journal == db.journal + [RefundMovement(db.withdrawals[w], read, w, |db.rows|, db.clock)])
  {
  }

  lemma RefundOn(wd: Withdrawal, read: WithdrawalStatus, w: nat, r: TxId, at: int, a: Account)
    ensures EntryOn(a)(RefundMovement(wd, read, w, r, at)) ==
            (if a == RefundedFrom(read) then wd.amount else 0) - (if a == Wallet(wd.user) then wd.amount else 0)
  {
    TwoLines(RefundMovement(wd, read, w, r, at), RefundedFrom(read), Wallet(wd.user), wd.amount, a);
  }

  lemma ExpectedIgnoresJournal(db: Db, journal: seq<Entry>, a: Account)
    ensures Expected(db.(journal := journal), a) == Expected(db, a)
  {
  }

  lemma ClaimGap(db: Db, w: nat, outcome: WithdrawalStatus, read: WithdrawalStatus, a: Account)
    requires Inv(db) && HasPayout(db, w) && Refunded(outcome)
    ensures Gap(RefundWithRead(db, w, outcome, read), a) == Gap(db, a) + Misposted(db, w, outcome, read, a)
  {
    hide Inv, RefundWithRead, RefundWithdrawal, Expected, AccountBalance, RefundMovement, EntryOn, RowsEvolve;
    var wd, split := db.withdrawals[w], RefundWithRead(db, w, outcome, read);
    RefundStep(db, w, outcome);
    ReadIsOnlyPosted(db, w, outcome, read);
    ExpectedIgnoresJournal(RefundWithdrawal(db, w, outcome), split.journal, a);
    assert Gap(RefundWithdrawal(db, w, outcome), a) == Gap(db, a);
    if Claims(db, w, outcome) {
      PostMoves(db.journal, RefundMovement(wd, wd.status, w, |db.rows|, db.clock), a);
      PostMoves(db.journal, RefundMovement(wd, read, w, |db.rows|, db.clock), a);
      RefundOn(wd, wd.status, w, |db.rows|, db.clock, a);
      RefundOn(wd, read, w, |db.rows|, db.clock, a);
    }
  }

  /**
   * A refund keeps every account in step with the tables if and only if the status it read still says where
   * the money is when it claims.
   */
  lemma RefundIsRightIff(db: Db, w: nat, outcome: WithdrawalStatus, read: WithdrawalStatus)
    requires Inv(db) && Claims(db, w, outcome) && Refunded(outcome)
    ensures SameGaps(db, RefundWithRead(db, w, outcome, read)) <==>
            (read == WithdrawalStatus.Successful <==> db.withdrawals[w].status == WithdrawalStatus.Successful)
  {
    hide Inv, RefundWithRead, Gap;
    forall a: Account ensures Gap(RefundWithRead(db, w, outcome, read), a) == Gap(db, a) + Misposted(db, w, outcome, read, a) {
      ClaimGap(db, w, outcome, read, a);
    }
    assert SameGaps(db, RefundWithRead(db, w, outcome, read)) ==> Misposted(db, w, outcome, read, PaystackClearing) == 0;
  }

  /** Whatever was read, everything but the two accounts is as it should be. */
  lemma ClaimKeepsInv(db: Db, w: nat, outcome: WithdrawalStatus, read: WithdrawalStatus)
    requires Inv(db) && HasPayout(db, w) && Refunded(outcome)
    ensures Inv(RefundWithRead(db, w, outcome, read))
  {
    hide ReversedOnce, TransfersPaired, ReversalsPaired, Posted, Balances, RefundWithRead, RefundWithdrawal, BalancedByLedger;
    var atOnce, split := RefundWithdrawal(db, w, outcome), RefundWithRead(db, w, outcome, read);
    assert WithdrawalOk(db.rows, db.withdrawals, w);
    OpeningsAreEarly(db);
    RefundStep(db, w, outcome);
    ReadIsOnlyPosted(db, w, outcome, read);
    RefundPosts(db, w, outcome, read);
    RefundBalances(db, w, outcome, read);
    ClaimKeepsLedger(db, w, outcome, read);
    SameTables(atOnce, split);
  }

  lemma ClaimKeepsLedger(db: Db, w: nat, outcome: WithdrawalStatus, read: WithdrawalStatus)
    requires Inv(db) && HasPayout(db, w) && Refunded(outcome)
    ensures BalancedByLedger(RefundWithRead(db, w, outcome, read))
  {
    hide RowsOk, ReversedOnce, TransfersPaired, ReversalsPaired, Linked, Posted, Balances, RefundWithRead, AccountBalance;
    var split := RefundWithRead(db, w, outcome, read);
    forall u: UserId ensures Stored(split.wallets, u) == WalletLedgerBalance(split.journal, u) {
      ClaimGap(db, w, outcome, read, Wallet(u));
      assert Stored(db.wallets, u) == WalletLedgerBalance(db.journal, u);
    }
  }

  lemma SameTables(a: Db, b: Db)
    requires b == a.(journal := b.journal) && RowsOk(a) && Linked(a)
    ensures RowsOk(b) && Linked(b)
  {
  }

  // ---------- Reads and claims in any run ----------

  /** A refund that has read the status and has yet to claim. */
  datatype Reading = Reading(w: nat, outcome: WithdrawalStatus, read: WithdrawalStatus)

  datatype SplitDb = SplitDb(db: Db, readings: seq<Reading>)

  datatype SplitAction =
    | Acts(action: Action)
    | RefundReads(w: nat, outcome: WithdrawalStatus)
    | RefundClaims(k: nat)

  predicate CanClaim(s: SplitDb, k: nat) {
    k < |s.readings| && HasPayout(s.db, s.readings[k].w)
  }

  function ApplySplit(s: SplitDb, action: SplitAction): SplitDb {
    match action
    case Acts(a) => s.(db := Apply(s.db, a))
    case RefundReads(w, outcome) =>
      if HasPayout(s.db, w) && Refunded(outcome)
      then s.(readings := s.readings + [Reading(w, outcome, s.db.withdrawals[w].status)]) else s
    case RefundClaims(k) =>
      if CanClaim(s, k)
      then s.(db := RefundWithRead(s.db, s.readings[k].w, s.readings[k].outcome, s.readings[k].read)) else s
  }

  function RunSplit(s: SplitDb, actions: seq<SplitAction>): SplitDb {
    if actions == [] then s
    else ApplySplit(RunSplit(s, actions[..|actions| - 1]), actions[|actions| - 1])
  }

  /** A claim of a withdrawal that was marked paid after this refund had read it. */
  predicate ClaimsLate(s: SplitDb, action: SplitAction) {
    && action.RefundClaims? && CanClaim(s, action.k)
    && var r := s.readings[action.k];
       Claims(s.db, r.w, r.outcome) && s.db.withdrawals[r.w].status != r.read
  }

  function LateAmount(s: SplitDb, action: SplitAction): nat {
    if ClaimsLate(s, action) then s.db.withdrawals[s.readings[action.k].w].amount else 0
  }

  /** What all late claims of a run took from the wrong account. */
  function LateTotal(s: SplitDb, actions: seq<SplitAction>): nat {
    if actions == [] then 0
    else LateTotal(s, actions[..|actions| - 1]) + LateAmount(RunSplit(s, actions[..|actions| - 1]), actions[|actions| - 1])
  }

  /** What late claims do to account `a`. */
  function Shift(a: Account, total: int): int {
    if a == PayoutsInTransit then total else if a == PaystackClearing then -total else 0
  }

  /** A status never goes back to what was read. */
  ghost predicate ReadingsOk(s: SplitDb) {
    forall k :: 0 <= k < |s.readings| ==>
      var r := s.readings[k];
      && Refunded(r.outcome) && r.w < |s.db.withdrawals|
      && (s.db.withdrawals[r.w].status == r.read || WithdrawalRank(r.read) < WithdrawalRank(s.db.withdrawals[r.w].status))
  }

  lemma ClaimForward(db: Db, w: nat, outcome: WithdrawalStatus, read: WithdrawalStatus)
    requires HasPayout(db, w) && Refunded(outcome)
    ensures WithdrawalsForward(db.withdrawals, RefundWithRead(db, w, outcome, read).withdrawals)
  {
    RefundForward(db, w, outcome);
    ReadIsOnlyPosted(db, w, outcome, read);
    hide RefundWithRead, RefundWithdrawal;
  }

  lemma ReadingsStay(s: SplitDb, db': Db)
    requires ReadingsOk(s) && WithdrawalsForward(s.db.withdrawals, db'.withdrawals)
    ensures ReadingsOk(s.(db := db'))
  {
  }

  /** A late claim read PROCESSING and finds SUCCESSFUL. */
  lemma LateShifts(s: SplitDb, k: nat, a: Account)
    requires Inv(s.db) && ReadingsOk(s) && CanClaim(s, k)
    ensures var r := s.readings[k];
      Misposted(s.db, r.w, r.outcome, r.read, a) == Shift(a, LateAmount(s, RefundClaims(k)))
  {
    hide Inv;
  }

  lemma StepShifts(s: SplitDb, action: SplitAction)
    requires Inv(s.db) && ReadingsOk(s)
    ensures var s' := ApplySplit(s, action);
      && Inv(s'.db) && ReadingsOk(s')
      && forall a: Account :: Gap(s'.db, a) == Gap(s.db, a) + Shift(a, LateAmount(s, action))
  {
    hide Inv, Apply, RefundWithRead, Gap, Misposted, ReadingsOk, StatusesForward, RowsEvolve;
    match action
    case Acts(a) =>
      StepKeepsInv(s.db, a);
      ForwardByStep(s, a);
    case RefundReads(w, outcome) =>
      NewReading(s, w, outcome);
    case RefundClaims(k) =>
      if CanClaim(s, k) {
        ClaimStep(s, k);
      }
  }

  lemma ForwardByStep(s: SplitDb, action: Action)
    requires ReadingsOk(s)
    ensures ReadingsOk(s.(db := Apply(s.db, action)))
  {
    hide Apply;
    StepMovesForward(s.db, action);
    ReadingsStay(s, Apply(s.db, action));
  }

  lemma NewReading(s: SplitDb, w: nat, outcome: WithdrawalStatus)
    requires ReadingsOk(s)
    ensures ReadingsOk(ApplySplit(s, RefundReads(w, outcome)))
  {
  }

  lemma ClaimKeepsReadings(s: SplitDb, k: nat)
    requires ReadingsOk(s) && CanClaim(s, k)
    ensures Refunded(s.readings[k].outcome) && ReadingsOk(ApplySplit(s, RefundClaims(k)))
  {
    var r := s.readings[k];
    hide RefundWithRead, WithdrawalsForward;
    assert Refunded(r.outcome);
    ClaimForward(s.db, r.w, r.outcome, r.read);
    ReadingsStay(s, RefundWithRead(s.db, r.w, r.outcome, r.read));
  }

  lemma ClaimStep(s: SplitDb, k: nat)
    requires Inv(s.db) && ReadingsOk(s) && CanClaim(s, k)
    ensures var s' := ApplySplit(s, RefundClaims(k));
      && Inv(s'.db) && ReadingsOk(s')
      && forall a: Account :: Gap(s'.db, a) == Gap(s.db, a) + Shift(a, LateAmount(s, RefundClaims(k)))
  {
    hide Inv, RefundWithRead, Gap, Misposted, LateAmount, Shift, ReadingsOk;
    var r := s.readings[k];
    ClaimKeepsReadings(s, k);
    ClaimKeepsInv(s.db, r.w, r.outcome, r.read);
    forall a: Account
      ensures Gap(RefundWithRead(s.db, r.w, r.outcome, r.read), a) == Gap(s.db, a) + Shift(a, LateAmount(s, RefundClaims(k)))
    {
      ClaimGap(s.db, r.w, r.outcome, r.read, a);
      LateShifts(s, k, a);
    }
  }

  /**
   * However reads, claims and everything else mix, the invariant holds, and exactly two accounts leave what the
   * tables say: payouts in transit holds what all late claims took, and Paystack clearing is short of it.
   */
  lemma {:induction false} LateClaimsShiftTwoAccounts(s: SplitDb, actions: seq<SplitAction>)
    requires Inv(s.db) && ReadingsOk(s)
    ensures var s' := RunSplit(s, actions);
      && Inv(s'.db) && ReadingsOk(s')
      && forall a: Account :: Gap(s'.db, a) == Gap(s.db, a) + Shift(a, LateTotal(s, actions))
  {
    hide Inv, ApplySplit, Gap, ReadingsOk, LateAmount;
    if actions != [] {
      var n := |actions| - 1;
      LateClaimsShiftTwoAccounts(s, actions[..n]);
      StepShifts(RunSplit(s, actions[..n]), actions[n]);
    }
  }

  ghost predicate NoneLate(s: SplitDb, actions: seq<SplitAction>) {
    forall k :: 0 <= k < |actions| ==> !ClaimsLate(RunSplit(s, actions[..k]), actions[k])
  }

  lemma NoneLateUnfolds(s: SplitDb, actions: seq<SplitAction>)
    requires actions != []
    ensures var n := |actions| - 1;
      NoneLate(s, actions) <==> NoneLate(s, actions[..n]) && !ClaimsLate(RunSplit(s, actions[..n]), actions[n])
  {
    var n := |actions| - 1;
    hide ClaimsLate, RunSplit;
    forall k | 0 <= k < n ensures actions[..n][..k] == actions[..k] && actions[..n][k] == actions[k] {
    }
    if NoneLate(s, actions) {
      forall k | 0 <= k < n ensures !ClaimsLate(RunSplit(s, actions[..n][..k]), actions[..n][k]) {
        assert !ClaimsLate(RunSplit(s, actions[..k]), actions[k]);
      }
    }
    if NoneLate(s, actions[..n]) && !ClaimsLate(RunSplit(s, actions[..n]), actions[n]) {
      forall k | 0 <= k < |actions| ensures !ClaimsLate(RunSplit(s, actions[..k]), actions[k]) {
        if k < n {
          assert !ClaimsLate(RunSplit(s, actions[..n][..k]), actions[..n][k]);
        }
      }
    }
  }

  lemma LateAmountIsPositive(s: SplitDb, action: SplitAction)
    ensures LateAmount(s, action) == 0 <==> !ClaimsLate(s, action)
  {
  }

  lemma {:induction false} NothingLateIffNone(s: SplitDb, actions: seq<SplitAction>)
    ensures LateTotal(s, actions) == 0 <==> NoneLate(s, actions)
  {
    if actions != [] {
      hide RunSplit, ClaimsLate, LateAmount, NoneLate;
      var n := |actions| - 1;
      NothingLateIffNone(s, actions[..n]);
      LateAmountIsPositive(RunSplit(s, actions[..n]), actions[n]);
      NoneLateUnfolds(s, actions);
    }
  }

  /** Every account stays in step with the tables if and only if nobody marks a withdrawal paid between a refund's read and its claim. */
  lemma AccountsStayRightIff(s: SplitDb, actions: seq<SplitAction>)
    requires Inv(s.db) && ReadingsOk(s)
    ensures SameGaps(s.db, RunSplit(s, actions).db) <==> NoneLate(s, actions)
  {
    hide Inv, Gap, ReadingsOk, RunSplit, LateTotal, NoneLate;
    LateClaimsShiftTwoAccounts(s, actions);
    NothingLateIffNone(s, actions);
    assert SameGaps(s.db, RunSplit(s, actions).db) ==> Gap(RunSplit(s, actions).db, PayoutsInTransit) == Gap(s.db, PayoutsInTransit);
  }

  /** The same said of a ledger started empty: its accounts mirror the tables if and only if no claim is late. */
  lemma AccountsMirrorTablesIff(start: Db, actions: seq<SplitAction>)
    requires Inv(start) && LedgerEmpty(start)
    ensures var db := RunSplit(SplitDb(start, []), actions).db;
      (AccountBalance(db.journal, PayoutsInTransit) == -SumBy(db.withdrawals, WithdrawnAs(WithdrawalStatus.Processing))
       && AccountBalance(db.journal, PaystackClearing) ==
          SumBy(db.deposits, DepositedAs(DepositStatus.Successful)) - SumBy(db.withdrawals, WithdrawnAs(WithdrawalStatus.Successful)))
      <==> NoneLate(SplitDb(start, []), actions)
  {
    var s := SplitDb(start, []);
    hide Inv, ReadingsOk, RunSplit, LateTotal, NoneLate, LedgerEmpty, AccountBalance;
    NoReadings(start);
    LateClaimsShiftTwoAccounts(s, actions);
    NothingLateIffNone(s, actions);
    EmptyLedgerHasNoGaps(start, PayoutsInTransit);
    EmptyLedgerHasNoGaps(start, PaystackClearing);
    assert Gap(RunSplit(s, actions).db, PayoutsInTransit) == LateTotal(s, actions);
    assert Gap(RunSplit(s, actions).db, PaystackClearing) + LateTotal(s, actions) == 0;
  }

  lemma NoReadings(db: Db)
    ensures ReadingsOk(SplitDb(db, []))
  {
  }

  // ---------- Without late claims it is a run of the engine ----------

  /** The engine's step that refunds in one go. */
  function AsRefund(r: Reading): Action {
    OfPayment(PayoutSent(r.w, if r.outcome == WithdrawalStatus.Reversed then Reported(TransferReversed) else Refused4xx))
  }

  /** The engine's part of a run: its own actions, and a refund where each claim is made. */
  function EngineActions(s: SplitDb, actions: seq<SplitAction>): seq<Action> {
    if actions == [] then []
    else
      var n := |actions| - 1;
      var before := RunSplit(s, actions[..n]);
      EngineActions(s, actions[..n]) +
      match actions[n]
      case Acts(a) => [a]
      case RefundReads(_, _) => []
      case RefundClaims(k) => if CanClaim(before, k) then [AsRefund(before.readings[k])] else []
  }

  lemma ClaimIsRefund(s: SplitDb, k: nat)
    requires ReadingsOk(s) && CanClaim(s, k) && !ClaimsLate(s, RefundClaims(k))
    ensures ApplySplit(s, RefundClaims(k)).db == Apply(s.db, AsRefund(s.readings[k]))
  {
    var r := s.readings[k];
    ReadIsOnlyPosted(s.db, r.w, r.outcome, r.read);
    hide RefundWithRead, ReadingsOk;
    assert Refunded(r.outcome);
  }

  lemma OneMore(db: Db, earlier: seq<Action>, action: Action)
    ensures Run(db, earlier + [action]) == Apply(Run(db, earlier), action)
  {
    hide Apply;
    assert (earlier + [action])[..|earlier|] == earlier;
  }

  /** Reads that are still right when their refunds claim could as well have been made then: the run is one of the engine. */
  lemma {:induction false} TimelyRefundsAreARun(s: SplitDb, actions: seq<SplitAction>)
    requires Inv(s.db) && ReadingsOk(s) && NoneLate(s, actions)
    ensures RunSplit(s, actions).db == Run(s.db, EngineActions(s, actions))
  {
    if actions != [] {
      var n := |actions| - 1;
      NoneLateUnfolds(s, actions);
      hide Inv, ReadingsOk, NoneLate, ClaimsLate, Gap, Apply, RefundWithRead, AsRefund;
      TimelyRefundsAreARun(s, actions[..n]);
      var before := RunSplit(s, actions[..n]);
      LateClaimsShiftTwoAccounts(s, actions[..n]);
      var earlier := EngineActions(s, actions[..n]);
      hide Run, RunSplit, EngineActions;
      match actions[n]
      case Acts(a) => OneMore(s.db, earlier, a);
      case RefundReads(_, _) => assert earlier + [] == earlier;
      case RefundClaims(k) =>
        if CanClaim(before, k) {
          ClaimIsRefund(before, k);
          OneMore(s.db, earlier, AsRefund(before.readings[k]));
        } else {
          assert earlier + [] == earlier;
        }
    }
  }
}
