/** Which webhook deliveries are one event. */
module EventKeys {
  import opened Basics
  import opened Tables
  import opened Steps
  import opened Runs
  import opened Confirmations
  import opened Webhooks

  /** Two bodies about the same event: same kind and id, or without an id the same reference, or without either the same digest. */
  predicate SameEvent(p: Payload, q: Payload) {
    && p.kind == q.kind
    && (|| (p.id.Some? && q.id.Some? && p.id.value == q.id.value)
        || (p.id.None? && q.id.None? && p.reference.Some? && q.reference.Some? && p.reference.value == q.reference.value)
        || (p.id.None? && q.id.None? && p.reference.None? && q.reference.None? && p.digest == q.digest))
  }

  /** They share a key exactly then. */
  lemma SameKeyIff(p: Payload, q: Payload)
    ensures EventKeyFor(p) == EventKeyFor(q) <==>
            && p.kind == q.kind
            && (|| (p.id.Some? && q.id.Some? && p.id.value == q.id.value)
                || (p.id.None? && q.id.None? && p.reference.Some? && q.reference.Some? && p.reference.value == q.reference.value)
                || (p.id.None? && q.id.None? && p.reference.None? && q.reference.None? && p.digest == q.digest))
  {
  }

  predicate DeliveredBefore(history: seq<InboxAction>, key: EventKey) {
    exists k :: 0 <= k < |history| && history[k].Delivered? && EventKeyFor(history[k].payload) == key
  }

  predicate HasKey(events: seq<StoredEvent>, key: EventKey) {
    exists e :: 0 <= e < |events| && events[e].key == key
  }

  /** What has been stored is what has been delivered. */
  lemma {:induction false} StoredWereDelivered(db: Db, history: seq<InboxAction>, key: EventKey)
    ensures HasKey(RunInbox(Inbox(db, []), history).events, key) <==> DeliveredBefore(history, key)
  {
    if history != [] {
      var n := |history| - 1;
      hide RunInbox, ApplyInbox, HasKey, DeliveredBefore, EventKeyFor;
      StoredWereDelivered(db, history[..n], key);
      StepStores(RunInbox(Inbox(db, []), history[..n]), history[n], key);
      OneMoreDelivered(history, key);
      RunInboxLast(Inbox(db, []), history);
    }
  }

  lemma RunInboxLast(inbox: Inbox, history: seq<InboxAction>)
    requires history != []
    ensures RunInbox(inbox, history) == ApplyInbox(RunInbox(inbox, history[..|history| - 1]), history[|history| - 1])
  {
  }

  lemma OneMoreDelivered(history: seq<InboxAction>, key: EventKey)
    requires history != []
    ensures var n := |history| - 1;
      DeliveredBefore(history, key) <==>
      DeliveredBefore(history[..n], key) || (history[n].Delivered? && EventKeyFor(history[n].payload) == key)
  {
    hide EventKeyFor;
    var n := |history| - 1;
    if k :| 0 <= k < n && history[..n][k].Delivered? && EventKeyFor(history[..n][k].payload) == key {
      assert history[k] == history[..n][k];
    }
    if k :| 0 <= k < |history| && history[k].Delivered? && EventKeyFor(history[k].payload) == key {
      if k < n { assert history[..n][k] == history[k]; }
    }
  }

  lemma StepStores(inbox: Inbox, action: InboxAction, key: EventKey)
    ensures HasKey(ApplyInbox(inbox, action).events, key) <==>
            HasKey(inbox.events, key) || (action.Delivered? && EventKeyFor(action.payload) == key)
  {
    hide Fire, Throws, FireAll, Apply, EventKeyFor;
    var after := ApplyInbox(inbox, action).events;
    if e :| 0 <= e < |inbox.events| && inbox.events[e].key == key {
      assert after[e].key == key;
    }
    if action.Delivered? && EventKeyFor(action.payload) == key {
      DeliveryIsStored(inbox, action.payload);
    }
    if e :| 0 <= e < |after| && after[e].key == key {
      assert e < |inbox.events| ==> inbox.events[e].key == key;
    }
  }

  lemma DeliveryIsStored(inbox: Inbox, p: Payload)
    ensures HasKey(RecordEvent(inbox, p).0.events, EventKeyFor(p))
  {
    hide EventKeyFor;
    var known := FindKey(inbox.events, EventKeyFor(p));
    if known.None? {
      assert RecordEvent(inbox, p).0.events[|inbox.events|].key == EventKeyFor(p);
    }
  }

  /**
   * From an empty inbox on, a delivery is a duplicate exactly when one about the same event came before. Otherwise
   * it is stored as a new, unprocessed event with its own kind and reference, and asks about the payment it names.
   */
  lemma DuplicateIff(db: Db, history: seq<InboxAction>, p: Payload)
    ensures var inbox := RunInbox(Inbox(db, []), history);
      var (after, receipt) := RecordEvent(inbox, p);
      && (receipt.duplicate <==> exists k :: 0 <= k < |history| && history[k].Delivered? && SameEvent(history[k].payload, p))
      && (receipt.duplicate ==> after == inbox && receipt.id < |inbox.events| && receipt.processed == inbox.events[receipt.id].processed)
      && (!receipt.duplicate ==>
            && receipt.id == |inbox.events| && !receipt.processed
            && after.db == inbox.db && |after.events| == |inbox.events| + 1 && after.events[..|inbox.events|] == inbox.events
            && var e := after.events[receipt.id];
               && e.key.kind == p.kind && e.reference == p.reference && !e.processed && e.receivedAt == inbox.db.clock
               && TriggerOf(e) == AsksAbout(p))
  {
    hide RunInbox, EventKeyFor;
    var inbox := RunInbox(Inbox(db, []), history);
    StoredWereDelivered(db, history, EventKeyFor(p));
    SameDelivered(history, p);
    KeyKeepsKind(p);
    NewKey(inbox, p);
    hide FindKey, DeliveredBefore, SameEvent;
  }

  lemma NewKey(inbox: Inbox, p: Payload)
    ensures FindKey(inbox.events, EventKeyFor(p)).Some? <==> HasKey(inbox.events, EventKeyFor(p))
  {
    hide EventKeyFor;
  }

  lemma KeyKeepsKind(p: Payload)
    ensures EventKeyFor(p).kind == p.kind
  {
  }

  lemma SameDelivered(history: seq<InboxAction>, p: Payload)
    ensures DeliveredBefore(history, EventKeyFor(p)) <==>
            exists k :: 0 <= k < |history| && history[k].Delivered? && SameEvent(history[k].payload, p)
  {
    hide EventKeyFor;
    forall k | 0 <= k < |history| && history[k].Delivered?
      ensures EventKeyFor(history[k].payload) == EventKeyFor(p) <==> SameEvent(history[k].payload, p)
    {
      SameKeyIff(history[k].payload, p);
    }
  }

  /** A charge asks about the deposit it names, an outcome of a transfer about the withdrawal, and nothing else asks. */
  function AsksAbout(p: Payload): Option<Trigger> {
    if p.reference.Some? && p.kind == ChargeSuccess then Some(DepositCheck(p.reference.value))
    else if p.reference.Some? && (p.kind == TransferSucceeded || p.kind == TransferFailedEvent || p.kind == TransferReversedEvent)
    then Some(WithdrawalCheck(p.reference.value))
    else None
  }
}
