/** What each step of the lock protocol does. */
module LockSteps {
  import opened Basics
  import opened LockProtocol

  /** An idle client starts on an operation by sorting its keys, and holds nothing yet. */
  lemma BeginTells(s: System, c: nat, op: Op)
    requires c < |s.clients| && s.clients[c].phase == Idle
    requires op.users != [] && forall k :: k in op.deltas ==> k in op.users
    ensures var s' := Next(s, Begin(c, op));
      && s' == s.(clients := s.clients[c := s'.clients[c]])
      && var client := s'.clients[c];
         && client.phase == Acquiring && client.op == op && client.next == 0 && client.taken == map[] && client.seen == map[]
         && (forall k :: k in client.keys <==> k in op.users)
         && forall i, j :: 0 <= i < j < |client.keys| ==> client.keys[i] < client.keys[j]
  {
  }

  /** The next key is taken exactly when nobody holds it or its lock has expired, for ten seconds and under a new token. */
  lemma TryLockTells(s: System, c: nat)
    requires c < |s.clients| && s.clients[c].phase == Acquiring && s.clients[c].next < |s.clients[c].keys|
    ensures var s', before := Next(s, TryLock(c)), s.clients[c];
      var k, token := before.keys[before.next], Token(c, before.serial);
      if k !in s.redis || s.redis[k].expires <= s.now
      then s' == s.(redis := s.redis[k := Lock(token, s.now + 10_000)],
                    clients := s.clients[c := before.(next := before.next + 1, taken := before.taken[k := token], serial := before.serial + 1,
                                                      phase := if before.next + 1 == |before.keys| then Working else Acquiring)])
      else s' == s
  {
  }

  /** A working client reads the stored balance; without that wallet its work throws. */
  lemma ReadTells(s: System, c: nat, k: Key)
    requires c < |s.clients| && s.clients[c].phase == Working && k in s.clients[c].op.deltas
    ensures Next(s, Read(c, k)) ==
            if k in s.wallets then s.(clients := s.clients[c := s.clients[c].(seen := s.clients[c].seen[k := s.wallets[k]])])
            else Next(s, GiveUp(c))
  {
  }

  /**
   * Having read all its balances, a client commits exactly when none it debits would go below zero: each balance
   * becomes what was read plus the change, and no other one moves. Otherwise it only leaves.
   */
  lemma FinishTells(s: System, c: nat)
    requires c < |s.clients| && s.clients[c].phase == Working
    requires forall k :: k in s.clients[c].op.deltas ==> k in s.clients[c].seen
    ensures var s', client := Next(s, Finish(c)), s.clients[c];
      var accepted := forall k :: k in client.op.deltas && client.op.deltas[k] < 0 ==> 0 <= client.seen[k] + client.op.deltas[k];
      && s'.clients == Next(s, GiveUp(c)).clients && s'.redis == s.redis && s'.now == s.now
      && s'.log == (if accepted then s.log + [client.op] else s.log)
      && s'.wallets.Keys == s.wallets.Keys
      && forall k :: k in s.wallets ==>
           s'.wallets[k] == if accepted && k in client.op.deltas then client.seen[k] + client.op.deltas[k] else s.wallets[k]
  {
    var client := s.clients[c];
    assert Affordable(client.seen, client.op) <==>
           forall k :: k in client.op.deltas && client.op.deltas[k] < 0 ==> 0 <= client.seen[k] + client.op.deltas[k];
  }

  /** A client that gives up goes on to release what it took, if anything. */
  lemma GiveUpTells(s: System, c: nat)
    requires c < |s.clients|
    ensures var client := s.clients[c];
      Next(s, GiveUp(c)) ==
      if client.phase == Acquiring || client.phase == Working
      then s.(clients := s.clients[c := client.(phase := if client.taken == map[] then Idle else Leaving)]) else s
  {
  }

  /** Releasing deletes the key exactly while it carries the token it was taken with. */
  lemma ReleaseTells(s: System, c: nat, k: Key)
    requires c < |s.clients| && s.clients[c].phase == Leaving && k in s.clients[c].taken
    ensures var s', client := Next(s, Release(c, k)), s.clients[c];
      && s'.wallets == s.wallets && s'.log == s.log && s'.now == s.now
      && s'.redis == (if k in s.redis && s.redis[k].token == client.taken[k] then s.redis - {k} else s.redis)
      && s'.clients == s.clients[c := client.(taken := client.taken - {k}, phase := if client.taken - {k} == map[] then Idle else Leaving)]
  {
  }

  /** A client waits for the one whose token is on the key it wants: that is when trying again does nothing. */
  lemma WaitingMeans(s: System, c: nat, d: nat)
    requires TokensOk(s) && c < |s.clients| && d < |s.clients|
    ensures WaitsFor(s, c, d) <==>
            && s.clients[c].phase == Acquiring && s.clients[c].next < |s.clients[c].keys|
            && Next(s, TryLock(c)) == s
            && s.redis[s.clients[c].keys[s.clients[c].next]].token.client == d
  {
    var client := s.clients[c];
    if client.phase == Acquiring && client.next < |client.keys| {
      var k := client.keys[client.next];
      if k !in s.redis || s.redis[k].expires <= s.now {
        TryLockTells(s, c);
        assert Next(s, TryLock(c)).clients[c].next != client.next;
      }
    }
  }

  /** Operations one after the other are each accepted on the balances that the ones before have left. */
  lemma SerialAccepts(w: map<Key, int>, log: seq<Op>, op: Op)
    ensures Serial(w, []) == Some(w)
    ensures var before, after := Serial(w, log), Serial(w, log + [op]);
      && (after.Some? <==>
            before.Some? && forall k :: k in op.deltas ==> k in before.value && (op.deltas[k] < 0 ==> 0 <= before.value[k] + op.deltas[k]))
      && (after.Some? ==>
            after.value.Keys == before.value.Keys
            && forall k :: k in before.value ==> after.value[k] == before.value[k] + if k in op.deltas then op.deltas[k] else 0)
  {
    assert (log + [op])[..|log|] == log;
  }
}
