/** The engine with Paystack's side of each payout. */
module PayoutWorld {
  // Answers can be slow: one is seen at some moment and acted on at any later one, by any number of callers.

  import opened Tables
  import opened Steps
  import opened Invariants
  import opened AccountProofs
  import opened Runs
  import opened Guarantees
  import opened Confirmations

  /**
   * Where the transfer of a withdrawal is. `Absent` means Paystack does not know it, `Refused` that it
   * turned the request down, `Dead` that the transfer ended without paying, and `Returned` that the
   * money came back.
   */
  datatype BankState = Absent | Refused | Underway | Dead | Paid | Returned

  /** How soon after Paystack has answered that it knows no transfer this is acted on. */
  const ACTED_WITHIN_MS: int := 60_000

  /**
   * Paystack's failure answers are final: only a transfer under way can pay, and only a paid one can
   * return. `arriving` says whether a request sent when the withdrawal was created can still reach Paystack.
   */
  predicate BankStep(a: BankState, b: BankState, arriving: bool) {
    match a
    case Absent => b == Absent || arriving
    case Underway => b == Underway || b == Dead || b == Paid || b == Returned
    case Paid => b == Paid || b == Returned
    case _ => b == a
  }

  /** What Paystack may answer about a transfer in this state. */
  predicate Truthful(s: BankState, answer: TransferAnswer) {
    match answer
    case NoAnswer => true
    case Refused4xx => s == Refused
    case Missing => s == Absent || s == Refused
    case Reported(status) =>
      match status
      case TransferSuccess => s == Paid
      case TransferReversed => s == Returned
      case TransferUnderway => s == Underway
      case _ => s == Dead
  }

  /** An answer, and when Paystack gave it. */
  datatype Sighting = Sighting(w: nat, answer: TransferAnswer, at: int)

  /** `seen` holds every answer Paystack has given so far. */
  datatype World = World(db: Db, bank: map<nat, BankState>, seen: set<Sighting>)

  function BankOf(world: World, w: nat): BankState {
    if w in world.bank then world.bank[w] else Absent
  }

  /** No request for withdrawal `w` reaches Paystack this late: a missing transfer stays missing. */
  predicate TooLate(db: Db, w: nat, at: int) {
    w < |db.withdrawals| && MISSING_TRANSFER_GRACE_MS - ACTED_WITHIN_MS < at - db.withdrawals[w].createdAt
  }

  /** What an answer, once seen, still says however late it is acted on. */
  predicate StillTells(world: World, x: Sighting) {
    var s := BankOf(world, x.w);
    && x.at <= world.db.clock
    && match x.answer
       case NoAnswer => true
       case Refused4xx => s == Refused
       case Missing => TooLate(world.db, x.w, x.at) ==> s == Absent || s == Refused
       case Reported(status) =>
         match status
         case TransferSuccess => s == Paid || s == Returned
         case TransferReversed => s == Returned
         case TransferUnderway => true
         case _ => s == Dead
  }

  datatype WorldAction =
    | EngineActs(action: Action)
    | BankMoves(w: nat, to: BankState)
    | Answered(w: nat, answer: TransferAnswer)
    | SendActsOn(x: Sighting)
    | ConfirmActsOn(x: Sighting)

  predicate IsPayout(action: Action) {
    action.OfPayment? && (action.payment.PayoutSent? || action.payment.WithdrawalConfirmed?)
  }

  /** An answer Paystack has given, not stale if it says there is no transfer. */
  predicate CanActOn(world: World, x: Sighting) {
    x in world.seen && (x.answer.Missing? ==> world.db.clock - x.at <= ACTED_WITHIN_MS)
  }

  /** An action the world does not allow does nothing: the bank moves forward only, and nobody acts on an answer Paystack never gave. */
  function ApplyWorld(world: World, action: WorldAction): World {
    match action
    case EngineActs(a) => if IsPayout(a) then world else world.(db := Apply(world.db, a))
    case BankMoves(w, to) =>
      if w < |world.db.withdrawals| && BankStep(BankOf(world, w), to, !TooLate(world.db, w, world.db.clock))
      then world.(bank := world.bank[w := to]) else world
    case Answered(w, answer) =>
      if Truthful(BankOf(world, w), answer) then world.(seen := world.seen + {Sighting(w, answer, world.db.clock)}) else world
    case SendActsOn(x) =>
      if CanActOn(world, x) then world.(db := Apply(world.db, OfPayment(PayoutSent(x.w, x.answer)))) else world
    case ConfirmActsOn(x) =>
      if CanActOn(world, x) then world.(db := Apply(world.db, OfPayment(WithdrawalConfirmed(x.w, x.answer)))) else world
  }

  function RunWorld(world: World, actions: seq<WorldAction>): World {
    if actions == [] then world
    else ApplyWorld(RunWorld(world, actions[..|actions| - 1]), actions[|actions| - 1])
  }

  // ---------- What the statuses know about the bank ----------

  /** `gone` says that no request can reach Paystack any more. */
  predicate StatusTells(status: WithdrawalStatus, s: BankState, gone: bool) {
    match status
    case Processing => true
    case Successful => s == Paid || s == Returned
    case Failed => s == Dead || s == Refused || (s == Absent && gone)
    case Reversed => s == Returned
  }

  predicate PayoutTells(world: World, w: nat)
    requires w < |world.db.withdrawals|
  {
    StatusTells(world.db.withdrawals[w].status, BankOf(world, w), TooLate(world.db, w, world.db.clock))
  }

  ghost predicate WorldOk(world: World) {
    && Inv(world.db)
    && (forall w :: 0 <= w < |world.db.withdrawals| ==> PayoutTells(world, w))
    && (forall x :: x in world.seen ==> StillTells(world, x))
    && (forall w :: w in world.bank ==> w < |world.db.withdrawals|)
  }

  /** Before the first withdrawal nothing is known and nothing is owed. */
  lemma FirstWorldIsOk(db: Db)
    requires Inv(db) && db.withdrawals == []
    ensures WorldOk(World(db, map[], {}))
  {
    hide Inv;
  }

  /** Sending's reply moves a withdrawal as a check would, and a 4xx reply refunds it. */
  lemma SendEnd(db: Db, w: nat, answer: TransferAnswer)
    requires HasPayout(db, w)
    ensures var db' := SendTransfer(db, w, answer);
      && Frame(db, db') && OtherWithdrawalsStay(db, db', w)
      && db'.withdrawals[w].status ==
         match answer
         case Refused4xx => RefundEnd(db, w, WithdrawalStatus.Failed)
         case Reported(_) => WithdrawalEnd(db, w, answer, true)
         case _ => db.withdrawals[w].status
  {
    hide Frame, RefundWithdrawal, MarkSuccessful;
    RefundWithdrawalEnd(db, w, WithdrawalStatus.Failed);
    RefundWithdrawalEnd(db, w, WithdrawalStatus.Reversed);
    MarkSuccessfulEnd(db, w);
    Same(db);
  }

  /** Acting on an answer that still tells the truth leaves a status that tells the truth. */
  lemma ActingTells(world: World, x: Sighting)
    requires HasPayout(world.db, x.w) && PayoutTells(world, x.w) && StillTells(world, x) && CanActOn(world, x)
    ensures var db, w := world.db, x.w;
      var s, gone := BankOf(world, w), TooLate(db, w, db.clock);
      && StatusTells(SendTransfer(db, w, x.answer).withdrawals[w].status, s, gone)
      && StatusTells(ConfirmWithdrawal(db, w, x.answer).withdrawals[w].status, s, gone)
  {
    SendEnd(world.db, x.w, x.answer);
    CheckWithdrawalEnd(world.db, x.w, x.answer);
    hide Frame, SendTransfer, ConfirmWithdrawal;
  }

  /** A step of the engine that leaves every other withdrawal alone, and `w` telling the truth. */
  lemma ActedWorld(world: World, db': Db, w: nat)
    requires WorldOk(world) && Inv(db') && w < |world.db.withdrawals|
    requires Frame(world.db, db') && OtherWithdrawalsStay(world.db, db', w)
    requires StatusTells(db'.withdrawals[w].status, BankOf(world, w), TooLate(world.db, w, world.db.clock))
    ensures WorldOk(world.(db := db'))
  {
    hide Inv;
    var world' := world.(db := db');
    assert SameWithdrawal(world.db.withdrawals[w], db'.withdrawals[w]);
    forall v: nat, at: int ensures TooLate(db', v, at) == TooLate(world.db, v, at) {
    }
    forall v | 0 <= v < |db'.withdrawals| ensures PayoutTells(world', v) {
      assert PayoutTells(world, v);
    }
    forall x | x in world'.seen ensures StillTells(world', x) {
      assert StillTells(world, x);
    }
  }

  lemma WorldTells(world: World, x: Sighting)
    requires WorldOk(world) && CanActOn(world, x) && HasPayout(world.db, x.w)
    ensures Inv(world.db) && PayoutTells(world, x.w) && StillTells(world, x)
  {
    hide Inv;
  }

  lemma SendKeepsWorld(world: World, x: Sighting)
    requires WorldOk(world) && CanActOn(world, x)
    ensures WorldOk(ApplyWorld(world, SendActsOn(x)))
  {
    hide Inv, WorldOk, StillTells, PayoutTells, SendTransfer, Frame, StatusTells, TooLate, CanActOn, RefundEnd, WithdrawalEnd, OtherWithdrawalsStay;
    if HasPayout(world.db, x.w) {
      WorldTells(world, x);
      StepInv(world.db, OfPayment(PayoutSent(x.w, x.answer)));
      ActingTells(world, x);
      SendEnd(world.db, x.w, x.answer);
      ActedWorld(world, SendTransfer(world.db, x.w, x.answer), x.w);
    }
  }

  lemma ConfirmKeepsWorld(world: World, x: Sighting)
    requires WorldOk(world) && CanActOn(world, x)
    ensures WorldOk(ApplyWorld(world, ConfirmActsOn(x)))
  {
    hide Inv, WorldOk, StillTells, PayoutTells, ConfirmWithdrawal, Frame, StatusTells, TooLate, CanActOn, WithdrawalEnd, OtherWithdrawalsStay;
    if HasPayout(world.db, x.w) {
      WorldTells(world, x);
      StepInv(world.db, OfPayment(WithdrawalConfirmed(x.w, x.answer)));
      ActingTells(world, x);
      CheckWithdrawalEnd(world.db, x.w, x.answer);
      ActedWorld(world, ConfirmWithdrawal(world.db, x.w, x.answer), x.w);
    }
  }

  lemma StepInv(db: Db, action: Action)
    requires Inv(db)
    ensures Inv(Apply(db, action))
  {
    hide Inv, Apply, SameGaps, RowsEvolve;
    StepKeepsInv(db, action);
  }

  lemma OtherStepsLeaveWithdrawals(db: Db, action: Action)
    requires !IsPayout(action)
    ensures |db.withdrawals| <= |Apply(db, action).withdrawals| && db.clock <= Apply(db, action).clock
    ensures forall w :: 0 <= w < |db.withdrawals| ==> Apply(db, action).withdrawals[w] == db.withdrawals[w]
    ensures forall w :: |db.withdrawals| <= w < |Apply(db, action).withdrawals| ==>
              Apply(db, action).withdrawals[w].status == WithdrawalStatus.Processing && Apply(db, action).withdrawals[w].createdAt == db.clock
  {
    match action
    case OfWallet(w) => WalletLeavesClock(db, w);
    case OfPayment(p) => hide SettleDeposit; SettleLeavesClock(db, p);
    case OfStaff(s) =>
  }

  lemma WalletLeavesClock(db: Db, action: WalletAction)
    ensures ApplyWallet(db, action).clock == db.clock && ApplyWallet(db, action).withdrawals == db.withdrawals
  {
  }

  lemma SettleLeavesClock(db: Db, action: PaymentAction)
    requires !action.PayoutSent? && !action.WithdrawalConfirmed?
    ensures ApplyPayment(db, action).clock == db.clock
    ensures !action.WithdrawalCreated? ==> ApplyPayment(db, action).withdrawals == db.withdrawals
  {
  }

  lemma EngineKeepsWorld(world: World, action: Action)
    requires WorldOk(world) && !IsPayout(action)
    ensures WorldOk(world.(db := Apply(world.db, action)))
  {
    StepInv(world.db, action);
    OtherStepsLeaveWithdrawals(world.db, action);
    hide Inv, Apply;
    var world' := world.(db := Apply(world.db, action));
    forall w | 0 <= w < |world'.db.withdrawals| ensures PayoutTells(world', w) {
      if w < |world.db.withdrawals| { assert PayoutTells(world, w); }
    }
    forall x | x in world'.seen ensures StillTells(world', x) {
      assert StillTells(world, x);
    }
  }

  lemma BankKeepsWorld(world: World, w: nat, to: BankState)
    requires WorldOk(world) && w < |world.db.withdrawals|
    requires BankStep(BankOf(world, w), to, !TooLate(world.db, w, world.db.clock))
    ensures WorldOk(world.(bank := world.bank[w := to]))
  {
    hide Inv;
    var world' := world.(bank := world.bank[w := to]);
    forall v | 0 <= v < |world'.db.withdrawals| ensures PayoutTells(world', v) {
      assert PayoutTells(world, v);
    }
    forall x | x in world'.seen ensures StillTells(world', x) {
      assert StillTells(world, x);
      assert TooLate(world.db, x.w, x.at) ==> TooLate(world.db, x.w, world.db.clock);
    }
  }

  lemma WorldStep(world: World, action: WorldAction)
    requires WorldOk(world)
    ensures WorldOk(ApplyWorld(world, action))
  {
    match action
    case EngineActs(a) => if !IsPayout(a) { hide WorldOk, Apply; EngineKeepsWorld(world, a); }
    case SendActsOn(x) => if CanActOn(world, x) { hide WorldOk, Apply; SendKeepsWorld(world, x); }
    case ConfirmActsOn(x) => if CanActOn(world, x) { hide WorldOk, Apply; ConfirmKeepsWorld(world, x); }
    case BankMoves(w, to) =>
      if w < |world.db.withdrawals| && BankStep(BankOf(world, w), to, !TooLate(world.db, w, world.db.clock)) {
        hide WorldOk;
        BankKeepsWorld(world, w, to);
      }
    case Answered(w, answer) => if Truthful(BankOf(world, w), answer) { hide WorldOk; AnswerKeepsWorld(world, w, answer); }
  }

  lemma AnswerKeepsWorld(world: World, w: nat, answer: TransferAnswer)
    requires WorldOk(world) && Truthful(BankOf(world, w), answer)
    ensures WorldOk(world.(seen := world.seen + {Sighting(w, answer, world.db.clock)}))
  {
    hide Inv;
    var world' := world.(seen := world.seen + {Sighting(w, answer, world.db.clock)});
    forall v | 0 <= v < |world'.db.withdrawals| ensures PayoutTells(world', v) {
      assert PayoutTells(world, v);
    }
    forall x | x in world'.seen ensures StillTells(world', x) {
      if x in world.seen { assert StillTells(world, x); }
    }
  }

  lemma {:induction false} RunKeepsWorld(world: World, actions: seq<WorldAction>)
    requires WorldOk(world)
    ensures WorldOk(RunWorld(world, actions))
  {
    if actions != [] {
      hide WorldOk, ApplyWorld;
      RunKeepsWorld(world, actions[..|actions| - 1]);
      WorldStep(RunWorld(world, actions[..|actions| - 1]), actions[|actions| - 1]);
    }
  }

  /** The bank has the money or may still get it. */
  predicate CanStillPay(world: World, w: nat) {
    var s := BankOf(world, w);
    s == Underway || s == Paid || (s == Absent && !TooLate(world.db, w, world.db.clock))
  }

  /**
   * No run both leaves a withdrawal's money at the bank and gives it back: while the transfer is
   * paid, or can still become paid, there is no refund row; a refund is one row for the amount; and
   * SUCCESSFUL means the bank did get the money.
   */
  lemma {:induction false} NeverPaidAndRefunded(world: World, actions: seq<WorldAction>, w: nat)
    requires WorldOk(world) && w < |RunWorld(world, actions).db.withdrawals|
    ensures var world' := RunWorld(world, actions);
      var db, s := world'.db, BankOf(world', w);
      && (CanStillPay(world', w) ==> forall r: nat :: !RefundRow(db, w, r))
      && ((exists r: nat :: RefundRow(db, w, r)) <==> Refunded(db.withdrawals[w].status))
      && (forall r: nat, q: nat :: RefundRow(db, w, r) && RefundRow(db, w, q) ==> r == q)
      && (db.withdrawals[w].status == WithdrawalStatus.Successful ==> s == Paid || s == Returned)
  {
    RunKeepsWorld(world, actions);
    hide Inv, RunWorld, RefundRow;
    WorldReading(RunWorld(world, actions), w);
  }

  lemma WorldReading(world: World, w: nat)
    requires WorldOk(world) && w < |world.db.withdrawals|
    ensures CanStillPay(world, w) ==> forall r: nat :: !RefundRow(world.db, w, r)
    ensures (exists r: nat :: RefundRow(world.db, w, r)) <==> Refunded(world.db.withdrawals[w].status)
    ensures forall r: nat, q: nat :: RefundRow(world.db, w, r) && RefundRow(world.db, w, q) ==> r == q
    ensures world.db.withdrawals[w].status == WithdrawalStatus.Successful ==> BankOf(world, w) == Paid || BankOf(world, w) == Returned
  {
    hide RefundRow;
    LinksOf(world.db);
    RefundReading(world.db, w);
    hide Inv;
    assert PayoutTells(world, w);
  }

  lemma LinksOf(db: Db)
    requires Inv(db)
    ensures WithdrawalsLinked(db.rows, db.withdrawals)
  {
    hide RowsOk, ReversedOnce, TransfersPaired, ReversalsPaired, Posted, Balances, BalancedByLedger, WithdrawalsLinked, DepositsLinked, AdjustmentsLinked;
  }

  /** A reported status, acted on while the withdrawal is processing, settles it as the bank did. */
  lemma {:induction false} ReportedAnswersSettle(db: Db, w: nat, status: TransferStatus, s: BankState)
    requires Inv(db) && HasPayout(db, w) && db.withdrawals[w].user in db.wallets
    requires db.withdrawals[w].status == WithdrawalStatus.Processing && Truthful(s, Reported(status))
    ensures var after := ConfirmWithdrawal(db, w, Reported(status)).withdrawals[w].status;
      && (s == Dead <==> after == WithdrawalStatus.Failed)
      && (s == Returned <==> after == WithdrawalStatus.Reversed)
      && (s == Paid <==> after == WithdrawalStatus.Successful)
      && (s == Underway <==> after == WithdrawalStatus.Processing)
  {
    CheckWithdrawalEnd(db, w, Reported(status));
    hide Inv, Frame, ConfirmWithdrawal;
  }
}
