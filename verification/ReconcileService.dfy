/** The webhook inbox and the periodic pass, as the code runs them. */
module ReconcileService {
  import opened Basics
  import opened Tables
  import opened Steps
  import opened Runs
  import opened Confirmations
  import opened Webhooks
  import opened BusyLocks
  import opened Database
  import opened PaymentServices

  class EventStore {
    var events: seq<StoredEvent>

    constructor ()
      ensures events == []
    {
      events := [];
    }
  }

  // ---------- Webhooks ----------

  method Record(db: Store, store: EventStore, p: Payload) returns (receipt: Receipt)
    modifies store
    ensures (Inbox(db.State(), store.events), receipt) == RecordEvent(Inbox(old(db.State()), old(store.events)), p)
  {
    var key := EventKeyFor(p);
    var known := FindKey(store.events, key);
    if known.Some? {
      return Receipt(known.value, true, store.events[known.value].processed);
    }
    store.events := store.events + [StoredEvent(key, p.reference, false, db.clock)];
    receipt := Receipt(|store.events| - 1, false, false);
  }

  ghost predicate PayoutRowsExist(db: Store)
    reads db
  {
    PayoutsHaveRows(db.State())
  }

  /** Runs one confirmation; `thrown` when it failed for another reason than an unknown reference. */
  method Confirm(db: Store, t: Trigger, o: Oracle, locks: Locks) returns (thrown: bool)
    requires !t.DepositSweep? && PayoutRowsExist(db)
    modifies db
    ensures db.State() == Fire(old(db.State()), t, Heard(old(db.State()), o, locks))
    ensures thrown <==> Throws(old(db.State()), t, Heard(old(db.State()), o, locks))
  {
    hide ConfirmDeposit, ConfirmWithdrawal;
    match t {
      case DepositCheck(d) =>
        var r := CheckDeposit(db, d, o.payment(d), locks.deposit(d));
        thrown := r.Err? && r.error != PaymentNotFound;
      case WithdrawalCheck(w) =>
        assert w < |db.withdrawals| ==> HasPayout(db.State(), w);
        var r := CheckWithdrawal(db, w, o.transfer(w), locks.withdrawal(w));
        thrown := r.Err? && r.error != PaymentNotFound;
    }
  }

  /** The queue worker's handling of a stored event; `retry` when it throws. */
  method Process(db: Store, store: EventStore, id: nat, o: Oracle, locks: Locks) returns (retry: bool)
    requires PayoutRowsExist(db)
    modifies db, store
    ensures Inbox(db.State(), store.events) == ProcessEvent(Inbox(old(db.State()), old(store.events)), id, Heard(old(db.State()), o, locks))
    ensures retry ==> db.State() == old(db.State()) && id < |store.events| && !store.events[id].processed
  {
    retry := false;
    if |store.events| <= id || store.events[id].processed {
      return;
    }
    var row := store.events[id];
    hide Fire, Throws, Heard;
    if row.reference.Some? && row.key.kind == ChargeSuccess {
      retry := Confirm(db, DepositCheck(row.reference.value), o, locks);
    } else if row.reference.Some? && !row.key.kind.OtherEvent? {
      retry := Confirm(db, WithdrawalCheck(row.reference.value), o, locks);
    }
    if retry {
      ThrowingChangesNothing(old(db.State()), TriggerOf(row).value, Heard(old(db.State()), o, locks));
      return;
    }
    store.events := store.events[id := row.(processed := true)];
  }

  // ---------- The periodic pass ----------

  datatype PassSummary = PassSummary(deposits: nat, abandoned: nat, withdrawals: nat, events: nat, errors: nat)

  lemma FireNext(db: Db, ts: seq<Trigger>, i: nat, o: Oracle)
    requires i < |ts|
    ensures FireAll(db, ts[..i + 1], o) == Fire(FireAll(db, ts[..i], o), ts[i], o)
  {
    assert ts[..i + 1][..i] == ts[..i];
  }

  /** Confirms one overdue deposit, and gives up on it when it is a day old and still open. */
  method Sweep(db: Store, d: nat, payment: Payment, busy: bool) returns (thrown: bool, abandoned: bool)
    requires d < |db.deposits|
    modifies db
    ensures db.State() == SweepDeposit(old(db.State()), d, HeardPayment(old(db.State()), d, payment, busy))
    ensures thrown <==> CheckThrows(old(db.State()), d, HeardPayment(old(db.State()), d, payment, busy))
    ensures abandoned ==> !thrown && db.deposits[d].status == DepositStatus.Abandoned
    ensures !thrown && !abandoned ==> db.State() == ConfirmDeposit(old(db.State()), d, HeardPayment(old(db.State()), d, payment, busy))
  {
    hide ConfirmDeposit;
    ghost var was := db.State();
    var r := CheckDeposit(db, d, payment, busy);
    if r.Err? {
      ThrowIsNoChange(was, d, HeardPayment(was, d, payment, busy));
      return true, false;
    }
    thrown, abandoned := false, false;
    if r.value == DepositStatus.Pending && db.deposits[d].createdAt < db.clock - ABANDON_DEPOSITS_AFTER_MS {
      db.deposits := db.deposits[d := db.deposits[d].(status := DepositStatus.Abandoned)];
      abandoned := true;
    }
  }

  lemma ThrowIsNoChange(db: Db, d: nat, payment: Payment)
    requires d < |db.deposits| && CheckThrows(db, d, payment)
    ensures ConfirmDeposit(db, d, payment) == db
  {
  }

  /** The oldest overdue deposits, one by one; a failure is counted and the walk goes on. */
  method SweepDeposits(db: Store, o: Oracle, locks: Locks, due: seq<nat>) returns (deposits: nat, abandoned: nat, errors: nat)
    requires PayoutRowsExist(db) && forall i :: 0 <= i < |due| ==> due[i] < |db.deposits|
    modifies db
    ensures db.State() == FireAll(old(db.State()), SweepsOf(due), Heard(old(db.State()), o, locks))
    ensures deposits + errors == |due| && abandoned <= deposits
    ensures PayoutRowsExist(db) && db.withdrawals == old(db.withdrawals) && db.clock == old(db.clock)
  {
    deposits, abandoned, errors := 0, 0, 0;
    ghost var start, ts := db.State(), SweepsOf(due);
    ghost var heard := Heard(start, o, locks);
    hide Fire, FireAll, SweepDeposit, PayoutsHaveRows, Heard, HeardPayment;
    FireNone(start, ts, heard);
    for i := 0 to |due|
      invariant db.State() == FireAll(start, ts[..i], heard)
      invariant deposits + errors == i && abandoned <= deposits
      invariant |db.deposits| == |start.deposits| && db.withdrawals == start.withdrawals
    {
      FireNext(start, ts, i, heard);
      FireIsSweep(db.State(), due[i], heard);
      FiredLengths(start, ts[..i], heard);
      FiredLengths(start, ts[..i + 1], heard);
      HeardAt(start, o, locks, due[i]);
      SameHeardPayment(start, db.State(), due[i], o.payment(due[i]), locks.deposit(due[i]));
      SweepLeavesWithdrawals(db.State(), due[i], heard.payment(due[i]));
      var thrown, gaveUp := Sweep(db, due[i], o.payment(due[i]), locks.deposit(due[i]));
      if thrown {
        errors := errors + 1;
      } else {
        deposits := deposits + 1;
        if gaveUp { abandoned := abandoned + 1; }
      }
    }
    assert ts[..|due|] == ts;
    FiredLengths(start, ts, heard);
  }

  lemma SameHeardPayment(start: Db, now: Db, d: nat, payment: Payment, busy: bool)
    requires Frame(start, now) && d < |start.deposits|
    ensures HeardPayment(now, d, payment, busy) == HeardPayment(start, d, payment, busy)
  {
    assert SameDeposit(start.deposits[d], now.deposits[d]);
  }

  lemma SweepLeavesWithdrawals(db: Db, d: nat, payment: Payment)
    requires d < |db.deposits|
    ensures SweepDeposit(db, d, payment).withdrawals == db.withdrawals
  {
  }

  lemma FireNone(db: Db, ts: seq<Trigger>, o: Oracle)
    ensures FireAll(db, ts[..0], o) == db
  {
  }

  lemma FireIsSweep(db: Db, d: nat, o: Oracle)
    requires d < |db.deposits|
    ensures Fire(db, DepositSweep(d), o) == SweepDeposit(db, d, o.payment(d))
  {
  }

  lemma FiredLengths(db: Db, ts: seq<Trigger>, o: Oracle)
    requires PayoutsHaveRows(db)
    ensures var db' := FireAll(db, ts, o);
      Frame(db, db') && |db'.deposits| == |db.deposits| && |db'.withdrawals| == |db.withdrawals| && PayoutsHaveRows(db') && db'.clock == db.clock
  {
    FireAllEnds(db, ts, o);
    LengthsKept(db, FireAll(db, ts, o));
  }

  /** The oldest overdue withdrawals, one by one; what is heard about them is what was to be heard at `start`. */
  method CheckWithdrawals(db: Store, o: Oracle, locks: Locks, due: seq<nat>, ghost start: Db) returns (withdrawals: nat, errors: nat)
    requires PayoutRowsExist(db) && db.withdrawals == start.withdrawals && db.clock == start.clock
    requires forall i :: 0 <= i < |due| ==> due[i] < |db.withdrawals|
    requires forall i, j :: 0 <= i < j < |due| ==> due[i] < due[j]
    modifies db
    ensures db.State() == FireAll(old(db.State()), ChecksOf(due), Heard(start, o, locks))
    ensures withdrawals + errors == |due|
    ensures PayoutRowsExist(db)
  {
    withdrawals, errors := 0, 0;
    ghost var mid, ts := db.State(), ChecksOf(due);
    ghost var heard := Heard(start, o, locks);
    hide Fire, FireAll, PayoutsHaveRows, Throws, Heard, HeardTransfer;
    FireNone(mid, ts, heard);
    for i := 0 to |due|
      invariant db.State() == FireAll(mid, ts[..i], heard)
      invariant withdrawals + errors == i && PayoutRowsExist(db)
      invariant db.clock == start.clock && |db.withdrawals| == |start.withdrawals|
      invariant forall j :: i <= j < |due| ==> db.withdrawals[due[j]] == start.withdrawals[due[j]]
    {
      FireNext(mid, ts, i, heard);
      FiredLengths(mid, ts[..i + 1], heard);
      SameCheck(start, db.State(), due[i], o, locks);
      OneChecked(db.State(), due[i], Heard(db.State(), o, locks));
      var thrown := Confirm(db, WithdrawalCheck(due[i]), o, locks);
      if thrown { errors := errors + 1; } else { withdrawals := withdrawals + 1; }
    }
    assert ts[..|due|] == ts;
    FiredLengths(mid, ts, heard);
  }

  lemma SameCheck(start: Db, now: Db, w: nat, o: Oracle, locks: Locks)
    requires w < |start.withdrawals| == |now.withdrawals| && now.withdrawals[w] == start.withdrawals[w] && now.clock == start.clock
    ensures Fire(now, WithdrawalCheck(w), Heard(now, o, locks)) == Fire(now, WithdrawalCheck(w), Heard(start, o, locks))
  {
    hide ConfirmWithdrawal, Heard;
    HeardAt(now, o, locks, w);
    HeardAt(start, o, locks, w);
    assert HeardTransfer(now, w, o.transfer(w), locks.withdrawal(w)) == HeardTransfer(start, w, o.transfer(w), locks.withdrawal(w));
  }

  lemma OneChecked(db: Db, w: nat, o: Oracle)
    requires HasPayout(db, w)
    ensures OtherWithdrawalsStay(db, Fire(db, WithdrawalCheck(w), o), w)
  {
    CheckWithdrawalEnd(db, w, o.transfer(w));
    hide ConfirmWithdrawal;
  }

  /**
   * One pass: it leaves the database as the confirmations of its two batches do, hands the oldest
   * overdue events back to the queue, and counts everything it looked at.
   */
  method ReconcilePayments(db: Store, store: EventStore, o: Oracle, locks: Locks) returns (summary: PassSummary, queued: seq<nat>)
    requires PayoutRowsExist(db)
    modifies db
    ensures var heard := Heard(old(db.State()), o, locks);
      && db.State() == FireAll(old(db.State()), PassTriggers(old(db.State()), heard), heard)
      && summary.deposits + summary.withdrawals + summary.errors == |PassTriggers(old(db.State()), heard)|
    ensures queued == Take(Positions(store.events, OverdueEvent(db.clock)), BATCH) && summary.events == |queued|
    ensures summary.abandoned <= summary.deposits
  {
    ghost var start := db.State();
    ghost var heard := Heard(start, o, locks);
    var dueDeposits := Take(Positions(db.deposits, OverdueDeposit(db.clock)), BATCH);
    var deposits, abandoned, sweepErrors := SweepDeposits(db, o, locks, dueDeposits);
    ghost var mid := db.State();
    var dueWithdrawals := Take(Positions(db.withdrawals, OverdueWithdrawal(db.clock)), BATCH);
    var withdrawals, checkErrors := CheckWithdrawals(db, o, locks, dueWithdrawals, start);
    hide FireAll, Positions, Take, Heard;
    assert SweepsOf(dueDeposits) == Sweeps(start) && ChecksOf(dueWithdrawals) == Checks(mid);
    FireAllConcat(start, Sweeps(start), Checks(mid), heard);
    queued := Take(Positions(store.events, OverdueEvent(db.clock)), BATCH);
    summary := PassSummary(deposits, abandoned, withdrawals, |queued|, sweepErrors + checkErrors);
  }
}
