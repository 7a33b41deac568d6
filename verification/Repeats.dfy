/** Confirmations anywhere in a run of the engine. */
module Repeats {
  // Time passes between the asks, answers change, and everything else goes on. Only the first decisive
  // ask about a payment does anything.

  import opened Tables
  import opened Steps
  import opened Invariants
  import opened Runs
  import opened Guarantees

  // ---------- Asks ----------

  /** An action that asks Paystack about a payment, or gives up on a deposit. */
  predicate IsAsk(action: Action) {
    action.OfPayment? && (action.payment.DepositConfirmed? || action.payment.DepositAbandoned? || action.payment.WithdrawalConfirmed?)
  }

  /** Paystack says how the payment ended. */
  predicate Ended(payment: Payment) {
    payment.status != PaymentOpen && payment.status != PaymentUnreachable
  }

  /** The same for a transfer; one that is missing has ended once the grace is over. */
  predicate TransferEnded(db: Db, w: nat, answer: TransferAnswer)
    requires w < |db.withdrawals|
  {
    match answer
    case Reported(status) => status != TransferUnderway
    case Missing => PastGrace(db, w)
    case Refused4xx => false
    case NoAnswer => false
  }

  /** Only a good payment needs a wallet. */
  predicate CanSettle(db: Db, d: nat, payment: Payment)
    requires d < |db.deposits|
  {
    payment.status == PaidUp && Matches(db, d, payment) ==> db.deposits[d].user in db.wallets
  }

  /** An ask about a payment that exists, with an answer that ends it, and a wallet to credit if it needs one. */
  predicate Decisive(db: Db, action: Action) {
    match action
    case OfPayment(DepositConfirmed(d, payment)) => d < |db.deposits| && Ended(payment) && CanSettle(db, d, payment)
    case OfPayment(DepositAbandoned(d)) => d < |db.deposits|
    case OfPayment(WithdrawalConfirmed(w, answer)) =>
      HasPayout(db, w) && TransferEnded(db, w, answer) && (answer == Reported(TransferSuccess) || db.withdrawals[w].user in db.wallets)
    case _ => false
  }

  // ---------- What an ask leaves behind ----------

  /** The payment of this ask is as far as its answer takes it. */
  predicate Taken(db: Db, action: Action) {
    match action
    case OfPayment(DepositConfirmed(d, _)) => d < |db.deposits| && db.deposits[d].status != DepositStatus.Pending
    case OfPayment(DepositAbandoned(d)) => d < |db.deposits| && db.deposits[d].status != DepositStatus.Pending
    case OfPayment(WithdrawalConfirmed(w, answer)) =>
      w < |db.withdrawals| && (if answer == Reported(TransferReversed) then Refunded(db.withdrawals[w].status)
                               else db.withdrawals[w].status != WithdrawalStatus.Processing)
    case _ => false
  }

  lemma DecisiveDepositTakes(db: Db, d: nat, payment: Payment)
    requires d < |db.deposits| && Ended(payment) && CanSettle(db, d, payment)
    ensures Taken(ConfirmDeposit(db, d, payment), OfPayment(DepositConfirmed(d, payment)))
  {
  }

  lemma DecisiveCheckTakes(db: Db, w: nat, answer: TransferAnswer)
    requires HasPayout(db, w) && TransferEnded(db, w, answer)
    requires answer == Reported(TransferSuccess) || db.withdrawals[w].user in db.wallets
    ensures Taken(ConfirmWithdrawal(db, w, answer), OfPayment(WithdrawalConfirmed(w, answer)))
  {
  }

  lemma DecisiveTakes(db: Db, action: Action)
    requires Decisive(db, action)
    ensures Taken(Apply(db, action), action)
  {
    hide ConfirmDeposit, ConfirmWithdrawal;
    match action
    case OfPayment(DepositConfirmed(d, payment)) => DecisiveDepositTakes(db, d, payment);
    case OfPayment(WithdrawalConfirmed(w, answer)) => DecisiveCheckTakes(db, w, answer);
    case OfPayment(DepositAbandoned(_)) =>
  }

  lemma TakenIsIdle(db: Db, action: Action)
    requires Taken(db, action)
    ensures Apply(db, action) == db
  {
    hide SettleDeposit, RefundWithdrawal, ApplyTransferStatus;
    match action
    case OfPayment(DepositConfirmed(d, payment)) => DecidedIsLeftAlone(db, d);
    case OfPayment(DepositAbandoned(_)) =>
    case OfPayment(WithdrawalConfirmed(_, _)) =>
  }

  lemma DecidedIsLeftAlone(db: Db, d: nat)
    requires d < |db.deposits| && db.deposits[d].status != DepositStatus.Pending
    ensures SettleDeposit(db, d) == db && FailDeposit(db, d) == db
  {
  }

  /** An ask that is not decisive changes nothing either. */
  lemma UndecidedIsIdle(db: Db, action: Action)
    requires IsAsk(action) && !Decisive(db, action)
    ensures Apply(db, action) == db
  {
  }

  lemma TakenStays(db: Db, db': Db, action: Action)
    requires Taken(db, action) && StatusesForward(db, db')
    ensures Taken(db', action)
  {
    match action
    case OfPayment(DepositConfirmed(d, _)) => assert DepositsForward(db.deposits, db'.deposits);
    case OfPayment(DepositAbandoned(d)) => assert DepositsForward(db.deposits, db'.deposits);
    case OfPayment(WithdrawalConfirmed(w, _)) => assert WithdrawalsForward(db.withdrawals, db'.withdrawals);
  }

  // ---------- Asking again, any time later ----------

  lemma {:induction false} RunConcat(db: Db, a: seq<Action>, b: seq<Action>)
    ensures Run(db, a + b) == Run(Run(db, a), b)
  {
    if b == [] {
      assert a + b == a;
    } else {
      var n := |b| - 1;
      assert (a + b)[..|a + b| - 1] == a + b[..n];
      RunConcat(db, a, b[..n]);
    }
  }

  /**
   * After a decisive ask, the same ask changes nothing at all in any later state, whatever runs in
   * between: transfers, reversals, adjustments, other payments, other answers, and time.
   */
  lemma {:induction false} AskingAgainChangesNothing(db: Db, action: Action, later: seq<Action>)
    requires Decisive(db, action)
    ensures var now := Run(Apply(db, action), later);
      Taken(now, action) && Apply(now, action) == now
  {
    var after := Apply(db, action);
    hide Decisive, Taken, Apply, StatusesForward;
    DecisiveTakes(db, action);
    RunMovesForward(after, later);
    TakenStays(after, Run(after, later), action);
    TakenIsIdle(Run(after, later), action);
  }

  /** A deposit that is no longer PENDING keeps its status, and no answer about it ever changes anything again. */
  lemma {:induction false} DecidedDepositStays(db: Db, later: seq<Action>, d: nat, payment: Payment)
    requires d < |db.deposits| && db.deposits[d].status != DepositStatus.Pending
    ensures var now := Run(db, later);
      && d < |now.deposits| && now.deposits[d].status == db.deposits[d].status
      && ConfirmDeposit(now, d, payment) == now && AbandonDeposit(now, d) == now
  {
    RunMovesForward(db, later);
    var now := Run(db, later);
    hide Run, SettleDeposit;
    assert DepositsForward(db.deposits, now.deposits);
    DecidedIsLeftAlone(now, d);
  }

  /**
   * A refunded withdrawal keeps its status, and no answer about it changes anything again; a SUCCESSFUL
   * one can only still be REVERSED, and only that answer changes anything.
   */
  lemma {:induction false} DecidedWithdrawalStays(db: Db, later: seq<Action>, w: nat, answer: TransferAnswer)
    requires HasPayout(db, w) && HasPayout(Run(db, later), w) && db.withdrawals[w].status != WithdrawalStatus.Processing
    ensures var before, now := db.withdrawals[w].status, Run(db, later);
      var after := now.withdrawals[w].status;
      && (after == before || (before == WithdrawalStatus.Successful && Refunded(after)))
      && (Refunded(before) || answer != Reported(TransferReversed) ==> ConfirmWithdrawal(now, w, answer) == now)
  {
    RunMovesForward(db, later);
    var now := Run(db, later);
    hide Run, RefundWithdrawal, ApplyTransferStatus;
    assert WithdrawalsForward(db.withdrawals, now.withdrawals);
  }

  // ---------- Dropping the repeats ----------

  /** The same decisive ask was made earlier. */
  predicate MadeBefore(db: Db, earlier: seq<Action>, action: Action) {
    exists j :: 0 <= j < |earlier| && earlier[j] == action && Decisive(Run(db, earlier[..j]), action)
  }

  /** An ask that got no final answer, or repeats one that did. */
  predicate Dropped(db: Db, earlier: seq<Action>, action: Action) {
    IsAsk(action) && (!Decisive(Run(db, earlier), action) || MadeBefore(db, earlier, action))
  }

  /** A run without its unanswered and repeated asks. */
  function WithoutRepeats(db: Db, actions: seq<Action>): seq<Action> {
    if actions == [] then []
    else
      var n := |actions| - 1;
      var kept := WithoutRepeats(db, actions[..n]);
      if Dropped(db, actions[..n], actions[n]) then kept else kept + [actions[n]]
  }

  lemma RepeatIsIdle(db: Db, earlier: seq<Action>, action: Action)
    requires MadeBefore(db, earlier, action)
    ensures Apply(Run(db, earlier), action) == Run(db, earlier)
  {
    hide Decisive, Apply, Run, Taken;
    var j :| 0 <= j < |earlier| && earlier[j] == action && Decisive(Run(db, earlier[..j]), action);
    RunThrough(db, earlier, j);
    AskingAgainChangesNothing(Run(db, earlier[..j]), action, earlier[j + 1..]);
  }

  lemma RunThrough(db: Db, actions: seq<Action>, j: nat)
    requires j < |actions|
    ensures Run(db, actions) == Run(Apply(Run(db, actions[..j]), actions[j]), actions[j + 1..])
  {
    hide Apply, Run;
    assert actions == actions[..j] + ([actions[j]] + actions[j + 1..]);
    RunConcat(db, actions[..j], [actions[j]] + actions[j + 1..]);
    RunConcat(Run(db, actions[..j]), [actions[j]], actions[j + 1..]);
    RunOne(Run(db, actions[..j]), actions[j]);
  }

  lemma RunOne(db: Db, action: Action)
    ensures Run(db, [action]) == Apply(db, action)
  {
    assert [action][..0] == [];
    assert Run(db, []) == db;
  }

  /**
   * Callbacks, webhooks, retries, rechecks and passes may ask about any payment, any number of times,
   * anywhere in a run. Dropping every ask without a final answer and every repeat gives the very same
   * database: wallets, rows, journal, statuses, times and all.
   */
  lemma {:induction false} RepeatsCanBeDropped(db: Db, actions: seq<Action>)
    ensures Run(db, WithoutRepeats(db, actions)) == Run(db, actions)
  {
    hide Dropped, Apply;
    if actions != [] {
      var n := |actions| - 1;
      RepeatsCanBeDropped(db, actions[..n]);
      if Dropped(db, actions[..n], actions[n]) {
        DroppedIsIdle(db, actions[..n], actions[n]);
      } else {
        var kept := WithoutRepeats(db, actions[..n]);
        RunConcat(db, kept, [actions[n]]);
        RunOne(Run(db, kept), actions[n]);
      }
    }
  }

  lemma DroppedIsIdle(db: Db, earlier: seq<Action>, action: Action)
    requires Dropped(db, earlier, action)
    ensures Apply(Run(db, earlier), action) == Run(db, earlier)
  {
    hide Decisive, Apply, MadeBefore;
    if MadeBefore(db, earlier, action) {
      RepeatIsIdle(db, earlier, action);
    } else {
      UndecidedIsIdle(Run(db, earlier), action);
    }
  }

  predicate AllMade(db: Db, actions: seq<Action>, kept: seq<Action>) {
    forall action :: action in kept && IsAsk(action) ==> MadeBefore(db, actions, action)
  }

  predicate NoAskTwice(kept: seq<Action>) {
    forall i, j :: 0 <= i < j < |kept| && IsAsk(kept[i]) ==> kept[i] != kept[j]
  }

  ghost predicate AllLeft(db: Db, actions: seq<Action>, kept: seq<Action>) {
    forall action :: IsAsk(action) && MadeBefore(db, actions, action) ==> action in kept
  }

  /** Where in the run each action that is left was made. */
  function Places(db: Db, actions: seq<Action>): seq<nat> {
    if actions == [] then []
    else
      var n := |actions| - 1;
      var earlier := Places(db, actions[..n]);
      if Dropped(db, actions[..n], actions[n]) then earlier else earlier + [n]
  }

  /** `kept` are the actions at these places, in order, and every action that asks nothing is at one of them. */
  ghost predicate LeftAt(actions: seq<Action>, kept: seq<Action>, places: seq<nat>) {
    && |places| == |kept|
    && (forall i :: 0 <= i < |places| ==> places[i] < |actions| && kept[i] == actions[places[i]])
    && (forall i, j :: 0 <= i < j < |places| ==> places[i] < places[j])
    && (forall k :: 0 <= k < |actions| && !IsAsk(actions[k]) ==> k in places)
  }

  /**
   * What is left: every action that asks nothing, where it was; of the asks exactly those that were once made
   * with a final answer, and none of them twice.
   */
  lemma {:induction false} WhatIsLeft(db: Db, actions: seq<Action>)
    ensures LeftAt(actions, WithoutRepeats(db, actions), Places(db, actions))
    ensures AllMade(db, actions, WithoutRepeats(db, actions)) && AllLeft(db, actions, WithoutRepeats(db, actions))
    ensures NoAskTwice(WithoutRepeats(db, actions))
  {
    if actions != [] {
      hide Dropped, LeftAt, AllMade, AllLeft, NoAskTwice, MadeBefore, IsAsk;
      var n := |actions| - 1;
      WhatIsLeft(db, actions[..n]);
      OneMoreLeft(db, actions, WithoutRepeats(db, actions[..n]));
      OneMorePlace(db, actions, WithoutRepeats(db, actions[..n]), Places(db, actions[..n]));
      NothingMissed(db, actions, WithoutRepeats(db, actions[..n]));
    }
  }

  lemma OneMorePlace(db: Db, actions: seq<Action>, before: seq<Action>, places: seq<nat>)
    requires actions != [] && LeftAt(actions[..|actions| - 1], before, places)
    ensures var n := |actions| - 1;
      if Dropped(db, actions[..n], actions[n]) then LeftAt(actions, before, places) else LeftAt(actions, before + [actions[n]], places + [n])
  {
    hide MadeBefore, Decisive, Run;
    var n := |actions| - 1;
    forall k | 0 <= k < n && !IsAsk(actions[k]) ensures k in places && k in places + [n] {
      assert !IsAsk(actions[..n][k]);
    }
    assert n in places + [n] by { assert (places + [n])[|places|] == n; }
  }

  lemma NothingMissed(db: Db, actions: seq<Action>, before: seq<Action>)
    requires actions != [] && AllLeft(db, actions[..|actions| - 1], before)
    ensures var n := |actions| - 1;
      AllLeft(db, actions, if Dropped(db, actions[..n], actions[n]) then before else before + [actions[n]])
  {
    hide Decisive, Run, IsAsk;
    var n := |actions| - 1;
    var kept := if Dropped(db, actions[..n], actions[n]) then before else before + [actions[n]];
    forall action | IsAsk(action) && MadeBefore(db, actions, action) ensures action in kept {
      var j :| 0 <= j < |actions| && actions[j] == action && Decisive(Run(db, actions[..j]), action);
      if j < n {
        assert actions[..n][j] == action && actions[..n][..j] == actions[..j];
        assert MadeBefore(db, actions[..n], action);
      }
    }
  }

  lemma OneMoreLeft(db: Db, actions: seq<Action>, before: seq<Action>)
    requires actions != [] && AllMade(db, actions[..|actions| - 1], before) && NoAskTwice(before)
    ensures AllMade(db, actions, before)
    ensures var last := actions[|actions| - 1];
      !Dropped(db, actions[..|actions| - 1], last) ==> AllMade(db, actions, before + [last]) && NoAskTwice(before + [last])
  {
    hide MadeBefore, Decisive, Run;
    var n := |actions| - 1;
    var last := actions[n];
    forall action | action in before && IsAsk(action) ensures MadeBefore(db, actions, action) {
      MadeBeforeStays(db, actions, n, action);
    }
    if IsAsk(last) && Decisive(Run(db, actions[..n]), last) {
      MadeNow(db, actions);
    }
    assert forall action :: action in before + [last] <==> action in before || action == last;
  }

  lemma MadeBeforeStays(db: Db, actions: seq<Action>, n: nat, action: Action)
    requires n <= |actions| && MadeBefore(db, actions[..n], action)
    ensures MadeBefore(db, actions, action)
  {
    hide Decisive, Run;
    var j :| 0 <= j < n && actions[..n][j] == action && Decisive(Run(db, actions[..n][..j]), action);
    assert actions[..n][..j] == actions[..j];
  }

  lemma MadeNow(db: Db, actions: seq<Action>)
    requires actions != [] && Decisive(Run(db, actions[..|actions| - 1]), actions[|actions| - 1])
    ensures MadeBefore(db, actions, actions[|actions| - 1])
  {
    hide Decisive, Run;
    assert actions[|actions| - 1] == actions[|actions| - 1];
  }

  /** Paystack has one final answer about deposit `d`; before it there may be any number of open or missing ones. */
  predicate OneAnswer(actions: seq<Action>, d: nat, payment: Payment) {
    forall k :: 0 <= k < |actions| && actions[k].OfPayment? && actions[k].payment.DepositConfirmed? && actions[k].payment.d == d ==>
      actions[k].payment.payment == payment || !Ended(actions[k].payment.payment)
  }

  predicate Confirms(action: Action, d: nat) {
    action.OfPayment? && action.payment.DepositConfirmed? && action.payment.d == d
  }

  lemma DecisiveHasEnded(db: Db, action: Action)
    requires Decisive(db, action) && action.OfPayment? && action.payment.DepositConfirmed?
    ensures Ended(action.payment.payment)
  {
  }

  /** With one final answer, one confirmation of the deposit is left of all that were made, and it has that answer. */
  lemma {:induction false} OneConfirmationIsLeft(db: Db, actions: seq<Action>, d: nat, payment: Payment)
    requires OneAnswer(actions, d, payment)
    ensures var kept := WithoutRepeats(db, actions);
      && (forall i :: 0 <= i < |kept| && Confirms(kept[i], d) ==> kept[i] == OfPayment(DepositConfirmed(d, payment)))
      && (forall i, j :: 0 <= i < j < |kept| ==> !(Confirms(kept[i], d) && Confirms(kept[j], d)))
  {
    WhatIsLeft(db, actions);
    var kept := WithoutRepeats(db, actions);
    hide WithoutRepeats, Run;
    forall i | 0 <= i < |kept| && Confirms(kept[i], d) ensures kept[i] == OfPayment(DepositConfirmed(d, payment)) {
      assert MadeBefore(db, actions, kept[i]);
      var j :| 0 <= j < |actions| && actions[j] == kept[i] && Decisive(Run(db, actions[..j]), kept[i]);
      DecisiveHasEnded(Run(db, actions[..j]), kept[i]);
      assert actions[j].payment.payment == payment;
      match kept[i] {
        case OfPayment(DepositConfirmed(e, q)) => assert e == d && q == payment;
      }
    }
  }

  predicate ChecksPayout(action: Action, w: nat) {
    action.OfPayment? && action.payment.WithdrawalConfirmed? && action.payment.w == w
  }

  /** Paystack ends transfer `w` with one answer, and may reverse it later; before, between and after there may be any number of others. */
  predicate OneTransferAnswer(actions: seq<Action>, w: nat, answer: TransferAnswer) {
    forall k :: 0 <= k < |actions| && ChecksPayout(actions[k], w) ==>
      var given := actions[k].payment.answer;
      given == answer || given == Reported(TransferReversed) || given == Reported(TransferUnderway) || given == NoAnswer || given == Refused4xx
  }

  /** Then at most two checks of the withdrawal are left: one with that answer and one with the reversal. */
  lemma {:induction false} TwoChecksAreLeft(db: Db, actions: seq<Action>, w: nat, answer: TransferAnswer)
    requires OneTransferAnswer(actions, w, answer)
    ensures var kept := WithoutRepeats(db, actions);
      && (forall i :: 0 <= i < |kept| && ChecksPayout(kept[i], w) ==>
            kept[i].payment.answer == answer || kept[i].payment.answer == Reported(TransferReversed))
      && (forall i, j :: 0 <= i < j < |kept| && ChecksPayout(kept[i], w) && ChecksPayout(kept[j], w) ==>
            kept[i].payment.answer != kept[j].payment.answer)
  {
    WhatIsLeft(db, actions);
    var kept := WithoutRepeats(db, actions);
    hide WithoutRepeats, Run;
    forall i | 0 <= i < |kept| && ChecksPayout(kept[i], w)
      ensures kept[i].payment.answer == answer || kept[i].payment.answer == Reported(TransferReversed)
    {
      assert MadeBefore(db, actions, kept[i]);
      var j :| 0 <= j < |actions| && actions[j] == kept[i] && Decisive(Run(db, actions[..j]), kept[i]);
      DecisiveCheckHasEnded(Run(db, actions[..j]), kept[i]);
      assert ChecksPayout(actions[j], w);
    }
    forall i, j | 0 <= i < j < |kept| && ChecksPayout(kept[i], w) && ChecksPayout(kept[j], w)
      ensures kept[i].payment.answer != kept[j].payment.answer
    {
      SameCheck(kept[i], kept[j], w);
    }
  }

  lemma SameCheck(a: Action, b: Action, w: nat)
    requires ChecksPayout(a, w) && ChecksPayout(b, w)
    ensures a.payment.answer == b.payment.answer ==> a == b
  {
    match a {
      case OfPayment(WithdrawalConfirmed(_, x)) =>
        match b { case OfPayment(WithdrawalConfirmed(_, y)) => }
    }
  }

  lemma DecisiveCheckHasEnded(db: Db, action: Action)
    requires Decisive(db, action) && action.OfPayment? && action.payment.WithdrawalConfirmed?
    ensures var answer := action.payment.answer;
      answer != Reported(TransferUnderway) && answer != NoAnswer && answer != Refused4xx
  {
  }

  // ---------- One ask, many times ----------

  function OnlyFirst(actions: seq<Action>, ask: Action): seq<Action> {
    if actions == [] then []
    else
      var n := |actions| - 1;
      var kept := OnlyFirst(actions[..n], ask);
      if actions[n] == ask && ask in actions[..n] then kept else kept + [actions[n]]
  }

  /** The first time `ask` is made, it is decisive. */
  predicate DecisiveAtFirst(db: Db, actions: seq<Action>, ask: Action) {
    forall k :: 0 <= k < |actions| && actions[k] == ask && ask !in actions[..k] ==> Decisive(Run(db, actions[..k]), ask)
  }

  lemma {:induction false} FirstTime(actions: seq<Action>, ask: Action) returns (k: nat)
    requires ask in actions
    ensures k < |actions| && actions[k] == ask && ask !in actions[..k]
  {
    var n := |actions| - 1;
    if ask in actions[..n] {
      k := FirstTime(actions[..n], ask);
      assert actions[..n][..k] == actions[..k];
    } else {
      k := n;
    }
  }

  /** However often one confirmation is made, and wherever in a run, it is as if it had been made the first time only. */
  lemma {:induction false} ConfirmedManyTimesIsOnce(db: Db, actions: seq<Action>, ask: Action)
    requires DecisiveAtFirst(db, actions, ask)
    ensures Run(db, OnlyFirst(actions, ask)) == Run(db, actions)
  {
    if actions != [] {
      var n := |actions| - 1;
      var earlier := actions[..n];
      FirstStaysDecisive(db, actions, ask);
      ConfirmedManyTimesIsOnce(db, earlier, ask);
      var kept := OnlyFirst(earlier, ask);
      RunConcat(db, kept, [actions[n]]);
      RunOne(Run(db, kept), actions[n]);
      hide Decisive, Apply, DecisiveAtFirst;
      if actions[n] == ask && ask in earlier {
        MadeTheFirstTime(db, earlier, ask);
        RepeatIsIdle(db, earlier, ask);
      }
    }
  }

  lemma FirstStaysDecisive(db: Db, actions: seq<Action>, ask: Action)
    requires actions != [] && DecisiveAtFirst(db, actions, ask)
    ensures DecisiveAtFirst(db, actions[..|actions| - 1], ask)
  {
    hide Decisive, Run;
    var earlier := actions[..|actions| - 1];
    forall k | 0 <= k < |earlier| && earlier[k] == ask && ask !in earlier[..k] ensures Decisive(Run(db, earlier[..k]), ask) {
      assert earlier[..k] == actions[..k] && actions[k] == ask;
    }
  }

  lemma MadeTheFirstTime(db: Db, actions: seq<Action>, ask: Action)
    requires ask in actions && DecisiveAtFirst(db, actions, ask)
    ensures MadeBefore(db, actions, ask)
  {
    hide Decisive, Run;
    var k := FirstTime(actions, ask);
  }
}
