/** Paystack's webhook inbox and the periodic reconciliation. */
module Webhooks {
  import opened Basics
  import opened Tables
  import opened Steps
  import opened Invariants
  import opened Runs
  import opened Confirmations
  import opened Guarantees
  import opened Repeats
  import opened Outcomes

  // ---------- Stored events ----------

  datatype EventKind = ChargeSuccess | TransferSucceeded | TransferFailedEvent | TransferReversedEvent | OtherEvent(name: nat)

  /** A webhook body: Paystack's id and reference when it has them, and the digest of the whole body. */
  datatype Payload = Payload(kind: EventKind, id: Option<nat>, reference: Option<nat>, digest: nat)

  datatype KeySource = PaystackId(id: nat) | ByReference(reference: nat) | ByDigest(digest: nat)

  datatype EventKey = EventKey(kind: EventKind, source: KeySource)

  function EventKeyFor(p: Payload): EventKey {
    EventKey(p.kind, if p.id.Some? then PaystackId(p.id.value)
                     else if p.reference.Some? then ByReference(p.reference.value)
                     else ByDigest(p.digest))
  }

  datatype StoredEvent = StoredEvent(key: EventKey, reference: Option<nat>, processed: bool, receivedAt: int)

  /** The database together with the stored webhook events. */
  datatype Inbox = Inbox(db: Db, events: seq<StoredEvent>)

  datatype Receipt = Receipt(id: nat, duplicate: bool, processed: bool)

  function FindKey(events: seq<StoredEvent>, key: EventKey): (r: Option<nat>)
    ensures r.Some? ==> r.value < |events| && events[r.value].key == key
    ensures r.None? ==> forall k :: 0 <= k < |events| ==> events[k].key != key
  {
    if events == [] then None
    else if events[|events| - 1].key == key then Some(|events| - 1)
    else FindKey(events[..|events| - 1], key)
  }

  ghost predicate KeysUnique(events: seq<StoredEvent>) {
    forall i, j :: 0 <= i < j < |events| ==> events[i].key != events[j].key
  }

  /** Stores an event, unless one with its key is stored already. */
  function RecordEvent(inbox: Inbox, p: Payload): (Inbox, Receipt) {
    var key := EventKeyFor(p);
    var known := FindKey(inbox.events, key);
    if known.Some? then (inbox, Receipt(known.value, true, inbox.events[known.value].processed))
    else (inbox.(events := inbox.events + [StoredEvent(key, p.reference, false, inbox.db.clock)]),
          Receipt(|inbox.events|, false, false))
  }

  /** The confirmation an event asks for, if any. */
  function TriggerOf(e: StoredEvent): Option<Trigger> {
    if e.reference.None? then None
    else
      match e.key.kind
      case ChargeSuccess => Some(DepositCheck(e.reference.value))
      case TransferSucceeded => Some(WithdrawalCheck(e.reference.value))
      case TransferFailedEvent => Some(WithdrawalCheck(e.reference.value))
      case TransferReversedEvent => Some(WithdrawalCheck(e.reference.value))
      case OtherEvent(_) => None
  }

  predicate RefundThrows(db: Db, w: nat, outcome: WithdrawalStatus)
    requires w < |db.withdrawals|
  {
    Claimable(db.withdrawals[w].status, outcome) && db.withdrawals[w].user !in db.wallets
  }

  /** Applying a reported status throws exactly when its refund does. */
  predicate StatusThrows(db: Db, w: nat, status: TransferStatus)
    requires w < |db.withdrawals|
  {
    match status
    case TransferSuccess => false
    case TransferUnderway => false
    case TransferReversed => RefundThrows(db, w, WithdrawalStatus.Reversed)
    case _ => RefundThrows(db, w, WithdrawalStatus.Failed)
  }

  /** confirmWithdrawal throws: no usable answer, or a refund with no wallet to pay it into. */
  predicate PayoutThrows(db: Db, w: nat, answer: TransferAnswer)
    requires w < |db.withdrawals|
  {
    var status := db.withdrawals[w].status;
    && (status == WithdrawalStatus.Processing || status == WithdrawalStatus.Successful)
    && match answer
       case NoAnswer => true
       case Refused4xx => true
       case Missing => PastGrace(db, w) && RefundThrows(db, w, WithdrawalStatus.Failed)
       case Reported(s) => StatusThrows(db, w, s)
  }

  /** The confirmation fails with something other than an unknown reference. */
  predicate Throws(db: Db, t: Trigger, o: Oracle) {
    match t
    case DepositCheck(d) => d < |db.deposits| && CheckThrows(db, d, o.payment(d))
    case DepositSweep(d) => d < |db.deposits| && CheckThrows(db, d, o.payment(d))
    case WithdrawalCheck(w) => HasPayout(db, w) && PayoutThrows(db, w, o.transfer(w))
  }

  /** When a confirmation of a deposit throws, and when one of a withdrawal does. */
  lemma ThrowsIff(db: Db, k: nat, o: Oracle)
    ensures k < |db.deposits| ==>
              var dep, p := db.deposits[k], o.payment(k);
              Throws(db, DepositCheck(k), o) <==>
              dep.status == DepositStatus.Pending
              && (p.status == PaymentUnreachable
                  || (p.status == PaidUp && p.reference == k && p.amount == dep.amount && p.inNaira && dep.user !in db.wallets))
    ensures HasPayout(db, k) ==>
              var wd, answer := db.withdrawals[k], o.transfer(k);
              Throws(db, WithdrawalCheck(k), o) <==>
              (wd.status == WithdrawalStatus.Processing || wd.status == WithdrawalStatus.Successful)
              && (answer == NoAnswer || answer == Refused4xx
                  || (wd.user !in db.wallets && answer == Reported(TransferReversed))
                  || (wd.user !in db.wallets && wd.status == WithdrawalStatus.Processing
                      && (answer == Reported(TransferFailed) || answer == Reported(TransferAbandoned) || answer == Reported(TransferBlocked)
                          || answer == Reported(TransferRejected) || answer == Reported(TransferOtp)
                          || (answer == Missing && 600_000 < db.clock - wd.createdAt))))
  {
  }

  /** Runs a stored event. When its confirmation throws it stays unprocessed, to be retried. */
  function ProcessEvent(inbox: Inbox, id: nat, o: Oracle): Inbox {
    if |inbox.events| <= id || inbox.events[id].processed then inbox
    else
      var t := TriggerOf(inbox.events[id]);
      if t.Some? && Throws(inbox.db, t.value, o) then inbox
      else
        Inbox(if t.Some? then Fire(inbox.db, t.value, o) else inbox.db,
              inbox.events[id := inbox.events[id].(processed := true)])
  }

  // ---------- Reconciliation ----------

  const BATCH: nat := 50
  const DEPOSIT_CHECK_AFTER_MS: int := 2 * MINUTE_MS
  const WITHDRAWAL_CHECK_AFTER_MS: int := MINUTE_MS
  const EVENT_RETRY_AFTER_MS: int := 5 * MINUTE_MS

  function OverdueDeposit(now: int): Deposit -> bool {
    (d: Deposit) => d.status == DepositStatus.Pending && d.createdAt < now - DEPOSIT_CHECK_AFTER_MS
  }

  function OverdueWithdrawal(now: int): Withdrawal -> bool {
    (w: Withdrawal) => w.status == WithdrawalStatus.Processing && w.createdAt < now - WITHDRAWAL_CHECK_AFTER_MS
  }

  function OverdueEvent(now: int): StoredEvent -> bool {
    (e: StoredEvent) => !e.processed && e.receivedAt < now - EVENT_RETRY_AFTER_MS
  }

  function SweepsOf(due: seq<nat>): seq<Trigger> {
    seq(|due|, i requires 0 <= i < |due| => DepositSweep(due[i]))
  }

  function ChecksOf(due: seq<nat>): seq<Trigger> {
    seq(|due|, i requires 0 <= i < |due| => WithdrawalCheck(due[i]))
  }

  function Sweeps(db: Db): seq<Trigger> {
    SweepsOf(Take(Positions(db.deposits, OverdueDeposit(db.clock)), BATCH))
  }

  function Checks(db: Db): seq<Trigger> {
    ChecksOf(Take(Positions(db.withdrawals, OverdueWithdrawal(db.clock)), BATCH))
  }

  /** One pass: the oldest overdue deposits, then the oldest overdue withdrawals. */
  function PassTriggers(db: Db, o: Oracle): seq<Trigger> {
    Sweeps(db) + Checks(FireAll(db, Sweeps(db), o))
  }

  // ---------- Everything that asks Paystack, while everything else goes on ----------

  /** `o` holds Paystack's answers at that moment. `Acted` is any other action of the engine, time passing included. */
  datatype InboxAction =
    | Delivered(payload: Payload)
    | Worked(id: nat, o: Oracle)
    | Rechecked(t: Trigger, o: Oracle)
    | Reconciled(o: Oracle)
    | Acted(action: Action)

  function ApplyInbox(inbox: Inbox, action: InboxAction): Inbox {
    match action
    case Delivered(p) => RecordEvent(inbox, p).0
    case Worked(id, o) => ProcessEvent(inbox, id, o)
    case Rechecked(t, o) => inbox.(db := Fire(inbox.db, t, o))
    case Reconciled(o) => inbox.(db := FireAll(inbox.db, PassTriggers(inbox.db, o), o))
    case Acted(action) => inbox.(db := Apply(inbox.db, action))
  }

  function RunInbox(inbox: Inbox, history: seq<InboxAction>): Inbox {
    if history == [] then inbox
    else ApplyInbox(RunInbox(inbox, history[..|history| - 1]), history[|history| - 1])
  }

  // ---------- A history is a run of the engine ----------

  /** The asks a trigger makes; a sweep that gives up makes two. */
  function AsksOf(db: Db, t: Trigger, o: Oracle): seq<Action> {
    match t
    case DepositCheck(d) => [OfPayment(DepositConfirmed(d, o.payment(d)))]
    case DepositSweep(d) =>
      if d < |db.deposits| && SweepDeposit(db, d, o.payment(d)) != ConfirmDeposit(db, d, o.payment(d))
      then [OfPayment(DepositConfirmed(d, o.payment(d))), OfPayment(DepositAbandoned(d))]
      else [OfPayment(DepositConfirmed(d, o.payment(d)))]
    case WithdrawalCheck(w) => [OfPayment(WithdrawalConfirmed(w, o.transfer(w)))]
  }

  function AllAsksOf(db: Db, ts: seq<Trigger>, o: Oracle): seq<Action> {
    if ts == [] then []
    else AllAsksOf(db, ts[..|ts| - 1], o) + AsksOf(FireAll(db, ts[..|ts| - 1], o), ts[|ts| - 1], o)
  }

  function ActionsOf(inbox: Inbox, action: InboxAction): seq<Action> {
    match action
    case Delivered(_) => []
    case Worked(id, o) =>
      if |inbox.events| <= id || inbox.events[id].processed || TriggerOf(inbox.events[id]).None? then []
      else AsksOf(inbox.db, TriggerOf(inbox.events[id]).value, o)
    case Rechecked(t, o) => AsksOf(inbox.db, t, o)
    case Reconciled(o) => AllAsksOf(inbox.db, PassTriggers(inbox.db, o), o)
    case Acted(action) => [action]
  }

  /** Everything the engine does in a history. */
  function AllActions(inbox: Inbox, history: seq<InboxAction>): seq<Action> {
    if history == [] then []
    else
      var earlier := history[..|history| - 1];
      AllActions(inbox, earlier) + ActionsOf(RunInbox(inbox, earlier), history[|history| - 1])
  }

  lemma {:induction false} FireAllConcat(db: Db, ts: seq<Trigger>, us: seq<Trigger>, o: Oracle)
    ensures FireAll(db, ts + us, o) == FireAll(FireAll(db, ts, o), us, o)
  {
    if us == [] {
      assert ts + us == ts;
    } else {
      var n := |us| - 1;
      assert (ts + us)[..|ts + us| - 1] == ts + us[..n];
      FireAllConcat(db, ts, us[..n], o);
    }
  }

  /** A confirmation that throws has changed nothing. */
  lemma ThrowingChangesNothing(db: Db, t: Trigger, o: Oracle)
    requires Throws(db, t, o)
    ensures Fire(db, t, o) == db
  {
  }

  lemma RunTwo(db: Db, first: Action, second: Action)
    ensures Run(db, [first, second]) == Apply(Apply(db, first), second)
  {
    hide Apply;
    assert [first, second] == [first] + [second];
    RunConcat(db, [first], [second]);
    RunOne(db, first);
    RunOne(Apply(db, first), second);
  }

  lemma SweepIsAsks(db: Db, d: nat, o: Oracle)
    requires d < |db.deposits|
    ensures Run(db, AsksOf(db, DepositSweep(d), o)) == SweepDeposit(db, d, o.payment(d))
  {
    hide ConfirmDeposit, Run, SweepDeposit, AbandonDeposit;
    var confirm, abandon := OfPayment(DepositConfirmed(d, o.payment(d))), OfPayment(DepositAbandoned(d));
    SweepIsOneOrTwo(db, d, o.payment(d));
    RunOne(db, confirm);
    RunTwo(db, confirm, abandon);
  }

  lemma SweepIsOneOrTwo(db: Db, d: nat, payment: Payment)
    requires d < |db.deposits|
    ensures var checked, swept := ConfirmDeposit(db, d, payment), SweepDeposit(db, d, payment);
      d < |checked.deposits| && (swept == checked || swept == AbandonDeposit(checked, d))
  {
    if CheckThrows(db, d, payment) { ThrownCheck(db, d, payment); }
    CheckDepositEnd(db, d, payment);
    hide ConfirmDeposit, AbandonDeposit, Kept;
  }

  lemma ThrownCheck(db: Db, d: nat, payment: Payment)
    requires d < |db.deposits| && CheckThrows(db, d, payment)
    ensures ConfirmDeposit(db, d, payment) == db
  {
  }

  lemma FireIsAsks(db: Db, t: Trigger, o: Oracle)
    ensures Run(db, AsksOf(db, t, o)) == Fire(db, t, o)
  {
    hide ConfirmDeposit, ConfirmWithdrawal, SweepDeposit, Run;
    match t
    case DepositCheck(d) => RunOne(db, OfPayment(DepositConfirmed(d, o.payment(d))));
    case DepositSweep(d) =>
      if d < |db.deposits| { SweepIsAsks(db, d, o); } else { RunOne(db, OfPayment(DepositConfirmed(d, o.payment(d)))); }
    case WithdrawalCheck(w) => RunOne(db, OfPayment(WithdrawalConfirmed(w, o.transfer(w))));
  }

  lemma {:induction false} FireAllIsAsks(db: Db, ts: seq<Trigger>, o: Oracle)
    ensures Run(db, AllAsksOf(db, ts, o)) == FireAll(db, ts, o)
  {
    hide Fire, AsksOf;
    if ts != [] {
      var earlier, last := ts[..|ts| - 1], ts[|ts| - 1];
      FireAllIsAsks(db, earlier, o);
      FireIsAsks(FireAll(db, earlier, o), last, o);
      RunConcat(db, AllAsksOf(db, earlier, o), AsksOf(FireAll(db, earlier, o), last, o));
    }
  }

  lemma WorkIsAsks(inbox: Inbox, id: nat, o: Oracle)
    ensures ProcessEvent(inbox, id, o).db == Run(inbox.db, ActionsOf(inbox, Worked(id, o)))
  {
    hide Fire, AsksOf, Throws;
    if id < |inbox.events| && !inbox.events[id].processed && TriggerOf(inbox.events[id]).Some? {
      var t := TriggerOf(inbox.events[id]).value;
      FireIsAsks(inbox.db, t, o);
      if Throws(inbox.db, t, o) { ThrowingChangesNothing(inbox.db, t, o); }
    }
  }

  lemma InboxStepIsActions(inbox: Inbox, action: InboxAction)
    ensures ApplyInbox(inbox, action).db == Run(inbox.db, ActionsOf(inbox, action))
  {
    hide AsksOf, Fire, ProcessEvent, PassTriggers, AllAsksOf, FireAll, Apply;
    match action
    case Delivered(_) =>
    case Worked(id, o) => WorkIsAsks(inbox, id, o);
    case Rechecked(t, o) => FireIsAsks(inbox.db, t, o);
    case Reconciled(o) => FireAllIsAsks(inbox.db, PassTriggers(inbox.db, o), o);
    case Acted(a) => RunOne(inbox.db, a);
  }

  /** What one action does to the stored events: they stay, in place, and are only ever marked. */
  ghost predicate EventsForward(a: seq<StoredEvent>, b: seq<StoredEvent>) {
    |a| <= |b| && forall i :: 0 <= i < |a| ==>
                     b[i].key == a[i].key && b[i].reference == a[i].reference && (a[i].processed ==> b[i].processed)
  }

  /** `action` handles event `e`: its confirmation, if it asks for one, did not throw. */
  predicate Handles(inbox: Inbox, action: InboxAction, e: nat) {
    && action.Worked? && action.id == e && e < |inbox.events|
    && (TriggerOf(inbox.events[e]).Some? ==> !Throws(inbox.db, TriggerOf(inbox.events[e]).value, action.o))
  }

  lemma InboxStepEvents(inbox: Inbox, action: InboxAction)
    requires KeysUnique(inbox.events)
    ensures var inbox' := ApplyInbox(inbox, action);
      && KeysUnique(inbox'.events) && EventsForward(inbox.events, inbox'.events)
      && forall i :: 0 <= i < |inbox'.events| && inbox'.events[i].processed && !(i < |inbox.events| && inbox.events[i].processed) ==>
           Handles(inbox, action, i)
  {
    hide Fire, Throws, FireAll, Apply;
  }

  /** Every event marked processed since the start was handled at some moment of the history. */
  ghost predicate ProcessedWereHandled(inbox: Inbox, history: seq<InboxAction>) {
    var inbox' := RunInbox(inbox, history);
    forall e :: 0 <= e < |inbox'.events| && inbox'.events[e].processed && !(e < |inbox.events| && inbox.events[e].processed) ==>
      exists k :: 0 <= k < |history| && Handles(RunInbox(inbox, history[..k]), history[k], e)
  }

  lemma OneMoreHandled(inbox: Inbox, history: seq<InboxAction>)
    requires history != [] && KeysUnique(RunInbox(inbox, history[..|history| - 1]).events)
    requires ProcessedWereHandled(inbox, history[..|history| - 1])
    ensures ProcessedWereHandled(inbox, history)
  {
    hide ApplyInbox, Handles;
    var n := |history| - 1;
    var earlier := history[..n];
    var mid, inbox' := RunInbox(inbox, earlier), RunInbox(inbox, history);
    InboxStepEvents(mid, history[n]);
    forall e | 0 <= e < |inbox'.events| && inbox'.events[e].processed && !(e < |inbox.events| && inbox.events[e].processed)
      ensures exists k :: 0 <= k < |history| && Handles(RunInbox(inbox, history[..k]), history[k], e)
    {
      if e < |mid.events| && mid.events[e].processed {
        var k :| 0 <= k < n && Handles(RunInbox(inbox, earlier[..k]), earlier[k], e);
        assert earlier[..k] == history[..k] && earlier[k] == history[k];
      } else {
        assert Handles(RunInbox(inbox, history[..n]), history[n], e);
      }
    }
  }

  /**
   * Deliveries, retries, rechecks and passes, with the answers of their moment and with everything else
   * the engine does in between, are one run of the engine; redeliveries are never stored twice; and an
   * event is marked processed only when its confirmation was made and did not throw.
   */
  lemma {:induction false} InboxRunIsARun(inbox: Inbox, history: seq<InboxAction>)
    requires KeysUnique(inbox.events)
    ensures var inbox' := RunInbox(inbox, history);
      && inbox'.db == Run(inbox.db, AllActions(inbox, history))
      && KeysUnique(inbox'.events) && EventsForward(inbox.events, inbox'.events)
      && ProcessedWereHandled(inbox, history)
  {
    hide ActionsOf, ApplyInbox, ProcessedWereHandled;
    if history == [] {
      NothingHandled(inbox);
    } else {
      var n := |history| - 1;
      var earlier := history[..n];
      InboxRunIsARun(inbox, earlier);
      var mid := RunInbox(inbox, earlier);
      InboxStepIsActions(mid, history[n]);
      InboxStepEvents(mid, history[n]);
      OneMoreHandled(inbox, history);
      RunConcat(inbox.db, AllActions(inbox, earlier), ActionsOf(mid, history[n]));
    }
  }

  lemma NothingHandled(inbox: Inbox)
    ensures ProcessedWereHandled(inbox, [])
  {
  }

  lemma {:induction false} RunInboxConcat(inbox: Inbox, a: seq<InboxAction>, b: seq<InboxAction>)
    ensures RunInbox(inbox, a + b) == RunInbox(RunInbox(inbox, a), b)
  {
    if b == [] {
      assert a + b == a;
    } else {
      var n := |b| - 1;
      assert (a + b)[..|a + b| - 1] == a + b[..n];
      RunInboxConcat(inbox, a, b[..n]);
    }
  }

  lemma RunInboxFrom(inbox: Inbox, history: seq<InboxAction>, k: nat)
    requires k < |history|
    ensures RunInbox(inbox, history) == RunInbox(ApplyInbox(RunInbox(inbox, history[..k]), history[k]), history[k + 1..])
  {
    hide ApplyInbox;
    assert history[..k + 1][..k] == history[..k];
    assert history == history[..k + 1] + history[k + 1..];
    RunInboxConcat(inbox, history[..k + 1], history[k + 1..]);
  }

  /** The payment event `e` is about is decided for good by what Paystack answered when it was handled, if that was a final answer. */
  predicate SettledFor(before: Inbox, o: Oracle, e: nat, now: Db)
    requires e < |before.events|
  {
    match TriggerOf(before.events[e])
    case None => true
    case Some(DepositCheck(d)) =>
      Decisive(before.db, OfPayment(DepositConfirmed(d, o.payment(d)))) ==>
        && d < |now.deposits|
        && now.deposits[d].status == DepositEnd(before.db, d, o.payment(d), true, false)
        && now.deposits[d].status != DepositStatus.Pending
    case Some(WithdrawalCheck(w)) =>
      Decisive(before.db, OfPayment(WithdrawalConfirmed(w, o.transfer(w)))) ==>
        && w < |now.withdrawals|
        && (now.withdrawals[w].status == WithdrawalEnd(before.db, w, o.transfer(w), true) || Refunded(now.withdrawals[w].status))
        && now.withdrawals[w].status != WithdrawalStatus.Processing
    case Some(DepositSweep(_)) => true
  }

  lemma HandledIsSettled(before: Inbox, o: Oracle, e: nat, later: seq<Action>)
    requires Handles(before, Worked(e, o), e) && !before.events[e].processed
    ensures SettledFor(before, o, e, Run(ProcessEvent(before, e, o).db, later))
  {
    var db := before.db;
    var after := ProcessEvent(before, e, o).db;
    match TriggerOf(before.events[e])
    case None =>
    case Some(DepositSweep(_)) =>
    case Some(DepositCheck(d)) =>
      if Decisive(db, OfPayment(DepositConfirmed(d, o.payment(d)))) {
        assert after == ConfirmDeposit(db, d, o.payment(d));
        CheckDepositEnd(db, d, o.payment(d));
        DecisiveTakes(db, OfPayment(DepositConfirmed(d, o.payment(d))));
        hide ConfirmDeposit, Frame, ProcessEvent;
        DecidedDepositStays(after, later, d, o.payment(d));
      }
    case Some(WithdrawalCheck(w)) =>
      if Decisive(db, OfPayment(WithdrawalConfirmed(w, o.transfer(w)))) {
        assert after == ConfirmWithdrawal(db, w, o.transfer(w));
        CheckWithdrawalEnd(db, w, o.transfer(w));
        DecisiveTakes(db, OfPayment(WithdrawalConfirmed(w, o.transfer(w))));
        hide ConfirmWithdrawal, Frame, ProcessEvent;
        RunMovesForward(after, later);
        assert WithdrawalsForward(after.withdrawals, Run(after, later).withdrawals);
      }
  }

  /**
   * The payment behind every processed event: if Paystack's answer when it was handled was final, the
   * payment ended as that answer says and has stayed there, however long ago that was.
   */
  lemma {:induction false} ProcessedEventsAreSettled(inbox: Inbox, history: seq<InboxAction>, e: nat)
    requires inbox.events == []
    requires e < |RunInbox(inbox, history).events| && RunInbox(inbox, history).events[e].processed
    ensures exists k :: 0 <= k < |history| && SettledAt(inbox, history, k, e)
  {
    InboxRunIsARun(inbox, history);
    var k := FirstHandled(inbox, history, e);
    var before := RunInbox(inbox, history[..k]);
    var after := ApplyInbox(before, history[k]);
    InboxRunIsARun(inbox, history[..k]);
    InboxStepEvents(before, history[k]);
    RunInboxFrom(inbox, history, k);
    InboxRunIsARun(after, history[k + 1..]);
    hide Handles, SettledFor, ProcessEvent, RunInbox, ProcessedWereHandled;
    HandledIsSettled(before, history[k].o, e, AllActions(after, history[k + 1..]));
    assert SettledAt(inbox, history, k, e);
  }

  /** At moment `k` event `e` was handled, and the payment is where that left it for good. */
  predicate SettledAt(inbox: Inbox, history: seq<InboxAction>, k: nat, e: nat)
    requires k < |history|
  {
    var before := RunInbox(inbox, history[..k]);
    && Handles(before, history[k], e) && !before.events[e].processed
    && SettledFor(before, history[k].o, e, RunInbox(inbox, history).db)
  }

  /** The moment at which an event was marked. */
  lemma {:induction false} FirstHandled(inbox: Inbox, history: seq<InboxAction>, e: nat) returns (k: nat)
    requires inbox.events == []
    requires e < |RunInbox(inbox, history).events| && RunInbox(inbox, history).events[e].processed
    ensures k < |history|
    ensures Handles(RunInbox(inbox, history[..k]), history[k], e) && !RunInbox(inbox, history[..k]).events[e].processed
  {
    hide Throws, TriggerOf, ApplyInbox, ProcessedWereHandled, EventsForward, AllActions;
    var n := |history| - 1;
    var mid := RunInbox(inbox, history[..n]);
    InboxRunIsARun(inbox, history[..n]);
    InboxStepEvents(mid, history[n]);
    if e < |mid.events| && mid.events[e].processed {
      k := FirstHandled(inbox, history[..n], e);
      assert history[..n][..k] == history[..k];
    } else {
      k := n;
    }
  }

  /**
   * Two histories that do the same once their unanswered and repeated asks are dropped end in the very
   * same database: every wallet, row, entry, status and time.
   */
  lemma {:induction false} HistoriesAgree(inbox: Inbox, one: seq<InboxAction>, two: seq<InboxAction>)
    requires KeysUnique(inbox.events)
    requires WithoutRepeats(inbox.db, AllActions(inbox, one)) == WithoutRepeats(inbox.db, AllActions(inbox, two))
    ensures RunInbox(inbox, one).db == RunInbox(inbox, two).db
  {
    InboxRunIsARun(inbox, one);
    InboxRunIsARun(inbox, two);
    RepeatsCanBeDropped(inbox.db, AllActions(inbox, one));
    RepeatsCanBeDropped(inbox.db, AllActions(inbox, two));
  }

  /** Redelivering a body, at once or after anything else, stores nothing. */
  lemma RedeliveryIsADuplicate(inbox: Inbox, p: Payload, history: seq<InboxAction>)
    requires KeysUnique(inbox.events)
    ensures var later := RunInbox(RecordEvent(inbox, p).0, history);
      var (again, receipt) := RecordEvent(later, p);
      && again == later && receipt.duplicate && receipt.id == RecordEvent(inbox, p).1.id
      && receipt.processed == later.events[receipt.id].processed
  {
    hide ProcessedWereHandled, RunInbox, AllActions, ApplyInbox;
    var (first, receipt) := RecordEvent(inbox, p);
    Recorded(inbox, p);
    InboxRunIsARun(first, history);
    KeyIsFound(RunInbox(first, history).events, EventKeyFor(p), receipt.id);
    hide KeysUnique;
  }

  lemma Recorded(inbox: Inbox, p: Payload)
    requires KeysUnique(inbox.events)
    ensures var (first, receipt) := RecordEvent(inbox, p);
      KeysUnique(first.events) && receipt.id < |first.events| && first.events[receipt.id].key == EventKeyFor(p)
  {
  }

  lemma KeyIsFound(events: seq<StoredEvent>, key: EventKey, id: nat)
    requires KeysUnique(events) && id < |events| && events[id].key == key
    ensures FindKey(events, key) == Some(id)
  {
    hide FindKey;
    var found := FindKey(events, key);
    assert found.Some?;
  }

  // ---------- What one pass settles ----------

  /** A pass leaves no deposit of its batch where Paystack's answer would move it, and abandons stale open ones. */
  lemma PassSettlesItsBatch(db: Db, o: Oracle, d: nat)
    requires Inv(db) && d in Take(Positions(db.deposits, OverdueDeposit(db.clock)), BATCH)
    ensures var db' := FireAll(db, PassTriggers(db, o), o);
      && d < |db.deposits| == |db'.deposits|
      && db'.deposits[d].status == DepositEnd(db, d, o.payment(d), false, true)
  {
    PayoutRows(db);
    FireAllEnds(db, PassTriggers(db, o), o);
    var due := Take(Positions(db.deposits, OverdueDeposit(db.clock)), BATCH);
    var i :| 0 <= i < |due| && due[i] == d;
    assert Sweeps(db)[i] == DepositSweep(d);
    assert PassTriggers(db, o)[i] == DepositSweep(d);
    forall t | t in PassTriggers(db, o) ensures !t.DepositCheck? {
      assert t in Sweeps(db) || t in Checks(FireAll(db, Sweeps(db), o));
    }
    hide Inv, FireAll, Kept;
  }

  /** The batch is the first fifty overdue deposits, so a pass with no more than fifty overdue covers them all. */
  lemma BatchCoversAll(db: Db, d: nat)
    requires d < |db.deposits| && OverdueDeposit(db.clock)(db.deposits[d])
    ensures var due := Positions(db.deposits, OverdueDeposit(db.clock));
      && d in due
      && (|due| <= BATCH ==> d in Take(due, BATCH))
  {
    PositionsComplete(db.deposits, OverdueDeposit(db.clock), d);
  }

  /**
   * Which payments and events a pass takes up, when no more than fifty of a kind are overdue: deposits PENDING
   * for more than two minutes, withdrawals PROCESSING for more than one, events unprocessed for more than five.
   */
  lemma PassTakesUp(db: Db, events: seq<StoredEvent>, o: Oracle, k: nat)
    requires |Positions(db.deposits, OverdueDeposit(db.clock))| <= BATCH && |Positions(db.withdrawals, OverdueWithdrawal(db.clock))| <= BATCH
    requires |Positions(events, OverdueEvent(db.clock))| <= BATCH
    ensures DepositSweep(k) in Sweeps(db) <==>
            k < |db.deposits| && db.deposits[k].status == DepositStatus.Pending && 120_000 < db.clock - db.deposits[k].createdAt
    ensures WithdrawalCheck(k) in Checks(db) <==>
            k < |db.withdrawals| && db.withdrawals[k].status == WithdrawalStatus.Processing && 60_000 < db.clock - db.withdrawals[k].createdAt
    ensures k in Take(Positions(events, OverdueEvent(db.clock)), BATCH) <==>
            k < |events| && !events[k].processed && 300_000 < db.clock - events[k].receivedAt
  {
    InPositions(db.deposits, OverdueDeposit(db.clock), k);
    InPositions(db.withdrawals, OverdueWithdrawal(db.clock), k);
    InPositions(events, OverdueEvent(db.clock), k);
    var deposits, withdrawals := Positions(db.deposits, OverdueDeposit(db.clock)), Positions(db.withdrawals, OverdueWithdrawal(db.clock));
    hide Positions;
    if k in deposits {
      var i :| 0 <= i < |deposits| && deposits[i] == k;
      assert Sweeps(db)[i] == DepositSweep(k);
    }
    if k in withdrawals {
      var i :| 0 <= i < |withdrawals| && withdrawals[i] == k;
      assert Checks(db)[i] == WithdrawalCheck(k);
    }
  }

  lemma InPositions<T>(s: seq<T>, p: T -> bool, k: nat)
    ensures k in Positions(s, p) <==> k < |s| && p(s[k])
  {
    if k < |s| && p(s[k]) {
      PositionsComplete(s, p, k);
    }
  }

  /** With more than fifty, the first fifty are taken, which are the oldest. */
  lemma PassTakesTheFirst(db: Db, k: nat)
    ensures BATCH == 50
    ensures var due := Positions(db.deposits, OverdueDeposit(db.clock));
      k < |due| && k < 50 ==> k < |Sweeps(db)| <= 50 && Sweeps(db)[k] == DepositSweep(due[k])
    ensures var due := Positions(db.withdrawals, OverdueWithdrawal(db.clock));
      k < |due| && k < 50 ==> k < |Checks(db)| <= 50 && Checks(db)[k] == WithdrawalCheck(due[k])
  {
    hide Positions;
  }

  /** A sweep gives up on a deposit exactly when it is PENDING, Paystack says it is still open, and it is more than a day old. */
  lemma SweepGivesUpIff(db: Db, d: nat, p: Payment)
    requires d < |db.deposits|
    ensures var db' := SweepDeposit(db, d, p);
      && |db'.deposits| == |db.deposits|
      && (db.deposits[d].status != DepositStatus.Abandoned ==>
            (db'.deposits[d].status == DepositStatus.Abandoned <==>
               db.deposits[d].status == DepositStatus.Pending && p.status == PaymentOpen && 86_400_000 < db.clock - db.deposits[d].createdAt))
      && (db'.deposits[d].status != DepositStatus.Abandoned ==> db' == ConfirmDeposit(db, d, p))
  {
    hide ConfirmDeposit, Kept;
    SweepDepositEnd(db, d, p);
    SweepWithoutGivingUp(db, d, p);
    hide SweepDeposit, Frame;
  }

  lemma SweepWithoutGivingUp(db: Db, d: nat, p: Payment)
    requires d < |db.deposits|
    ensures var db' := SweepDeposit(db, d, p);
      |db'.deposits| == |db.deposits| && (db'.deposits[d].status != DepositStatus.Abandoned ==> db' == ConfirmDeposit(db, d, p))
  {
    ThrownLeaves(db, d, p);
    CheckDepositEnd(db, d, p);
    hide ConfirmDeposit, Frame;
  }

  lemma ThrownLeaves(db: Db, d: nat, p: Payment)
    requires d < |db.deposits|
    ensures CheckThrows(db, d, p) ==> ConfirmDeposit(db, d, p) == db
  {
  }
}
