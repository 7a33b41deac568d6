/** Wallet locks in Redis, with separate reads and writes. */
module LockProtocol {
  // Every client's reads and writes of balances are steps of their own. Keys are taken in sorted order,
  // carry a token, and expire.

  import opened Basics

  type Key = nat

  const LOCK_TTL_MS: int := 10_000

  /** A random token: nobody else ever draws it. */
  datatype Token = Token(client: nat, serial: nat)

  datatype Lock = Lock(token: Token, expires: int)

  /** A read-then-write operation: the users it locks and what it adds to their balances. */
  datatype Op = Op(users: seq<Key>, deltas: map<Key, int>)

  datatype Phase = Idle | Acquiring | Working | Leaving

  /** `taken` are the keys acquired and not yet released, `seen` the balances read so far. */
  datatype Client = Client(phase: Phase, op: Op, keys: seq<Key>, next: nat, taken: map<Key, Token>, seen: map<Key, int>, serial: nat)

  /** `log` is a history variable: the operations committed so far. */
  datatype System = System(now: int, redis: map<Key, Lock>, clients: seq<Client>, wallets: map<Key, int>, log: seq<Op>)

  datatype Step =
    | Begin(c: nat, op: Op)
    | TryLock(c: nat)
    | GiveUp(c: nat)
    | Read(c: nat, k: Key)
    | Finish(c: nat)
    | Release(c: nat, key: Key)
    | Tick(ms: nat)

  // ---------- Sorted distinct keys ----------

  predicate Ascending(s: seq<Key>) {
    forall i, j :: 0 <= i < j < |s| ==> s[i] < s[j]
  }

  function Insert(x: Key, s: seq<Key>): (r: seq<Key>)
    requires Ascending(s)
    ensures Ascending(r)
    ensures forall k :: k in r <==> k == x || k in s
  {
    if s == [] then [x]
    else if x < s[0] then [x] + s
    else if x == s[0] then s
    else
      var rest := Insert(x, s[1..]);
      assert forall k :: k in s <==> k == s[0] || k in s[1..];
      SmallestFirst(s[0], rest);
      [s[0]] + rest
  }

  lemma SmallestFirst(x: Key, s: seq<Key>)
    requires Ascending(s) && forall k :: k in s ==> x < k
    ensures Ascending([x] + s)
  {
    forall i, j | 0 <= i < j < |[x] + s| ensures ([x] + s)[i] < ([x] + s)[j] {
      assert ([x] + s)[j] in s;
    }
  }

  /** The distinct ids in order. */
  function SortedKeys(ids: seq<Key>): (r: seq<Key>)
    ensures Ascending(r)
    ensures forall k :: k in r <==> k in ids
  {
    if ids == [] then []
    else
      assert forall k :: k in ids <==> k == ids[0] || k in ids[1..];
      Insert(ids[0], SortedKeys(ids[1..]))
  }

  // ---------- Steps ----------

  predicate Free(s: System, k: Key) {
    k !in s.redis || s.redis[k].expires <= s.now
  }

  function SetClient(s: System, c: nat, client: Client): System
    requires c < |s.clients|
  {
    s.(clients := s.clients[c := client])
  }

  function BeginOp(s: System, c: nat, op: Op): System
    requires c < |s.clients|
  {
    var client := s.clients[c];
    if client.phase != Idle || op.users == [] || !(forall k :: k in op.deltas ==> k in op.users) then s
    else SetClient(s, c, client.(phase := Acquiring, op := op, keys := SortedKeys(op.users), next := 0, taken := map[], seen := map[]))
  }

  /** SET key token PX ttl NX, for the next key in order. */
  function TryNext(s: System, c: nat): System
    requires c < |s.clients|
  {
    var client := s.clients[c];
    if client.phase != Acquiring || |client.keys| <= client.next || !Free(s, client.keys[client.next]) then s
    else
      var k, token := client.keys[client.next], Token(c, client.serial);
      SetClient(s, c, client.(next := client.next + 1, taken := client.taken[k := token], serial := client.serial + 1,
                              phase := if client.next + 1 == |client.keys| then Working else Acquiring))
      .(redis := s.redis[k := Lock(token, s.now + LOCK_TTL_MS)])
  }

  /** A key stayed busy for too long, or the work threw: go and release what was taken. */
  function Leave(s: System, c: nat): System
    requires c < |s.clients|
  {
    var client := s.clients[c];
    if client.phase != Acquiring && client.phase != Working then s
    else SetClient(s, c, client.(phase := if client.taken == map[] then Idle else Leaving))
  }

  /** Reads one balance of the operation; a missing wallet throws. */
  function ReadBalance(s: System, c: nat, k: Key): System
    requires c < |s.clients|
  {
    var client := s.clients[c];
    if client.phase != Working || k !in client.op.deltas then s
    else if k !in s.wallets then Leave(s, c)
    else SetClient(s, c, client.(seen := client.seen[k := s.wallets[k]]))
  }

  /** A debit may not take a balance below zero. */
  predicate Affordable(balances: map<Key, int>, op: Op) {
    forall k :: k in op.deltas ==> k in balances && (op.deltas[k] < 0 ==> 0 <= balances[k] + op.deltas[k])
  }

  /** `wallets` with the balances of `op` replaced by what was read plus what `op` adds. */
  function Written(wallets: map<Key, int>, read: map<Key, int>, op: Op): map<Key, int> {
    map k | k in wallets :: if k in op.deltas && k in read then read[k] + op.deltas[k] else wallets[k]
  }

  /** Writes balances computed from those read, all at once, or throws; then releases. */
  function FinishOp(s: System, c: nat): System
    requires c < |s.clients|
  {
    var client := s.clients[c];
    if client.phase != Working || !(forall k :: k in client.op.deltas ==> k in client.seen) then s
    else if !Affordable(client.seen, client.op) then Leave(s, c)
    else Leave(s, c).(wallets := Written(s.wallets, client.seen, client.op), log := s.log + [client.op])
  }

  /** The release script: delete the key only while it still carries our token. */
  function ReleaseKey(s: System, c: nat, k: Key): System
    requires c < |s.clients|
  {
    var client := s.clients[c];
    if client.phase != Leaving || k !in client.taken then s
    else
      var left := client.taken - {k};
      var redis := if k in s.redis && s.redis[k].token == client.taken[k] then s.redis - {k} else s.redis;
      SetClient(s, c, client.(taken := left, phase := if left == map[] then Idle else Leaving)).(redis := redis)
  }

  function Next(s: System, step: Step): System {
    match step
    case Begin(c, op) => if c < |s.clients| then BeginOp(s, c, op) else s
    case TryLock(c) => if c < |s.clients| then TryNext(s, c) else s
    case GiveUp(c) => if c < |s.clients| then Leave(s, c) else s
    case Read(c, k) => if c < |s.clients| then ReadBalance(s, c, k) else s
    case Finish(c) => if c < |s.clients| then FinishOp(s, c) else s
    case Release(c, k) => if c < |s.clients| then ReleaseKey(s, c, k) else s
    case Tick(ms) => s.(now := s.now + ms)
  }

  function Execute(s: System, steps: seq<Step>): System {
    if steps == [] then s else Next(Execute(s, steps[..|steps| - 1]), steps[|steps| - 1])
  }

  // ---------- Tokens: true whatever the timing ----------

  ghost predicate ClientOk(client: Client, c: nat) {
    && Ascending(client.keys) && client.next <= |client.keys|
    && (client.phase == Idle ==> client.taken == map[])
    && (client.phase == Acquiring || client.phase == Working ==>
          && (forall k :: k in client.taken <==> k in client.keys[..client.next])
          && (forall k :: k in client.op.deltas ==> k in client.keys))
    && (client.phase == Working ==> client.next == |client.keys|)
    && (client.phase == Acquiring ==> client.next < |client.keys|)
    && (forall k :: k in client.taken ==> client.taken[k].client == c && client.taken[k].serial < client.serial)
  }

  /** Every key carrying a client's token is one the client has taken and not yet released. */
  ghost predicate TokensOk(s: System) {
    && (forall c :: 0 <= c < |s.clients| ==> ClientOk(s.clients[c], c))
    && (forall k :: k in s.redis && s.redis[k].token.client < |s.clients| ==>
          var client := s.clients[s.redis[k].token.client];
          k in client.taken && client.taken[k] == s.redis[k].token)
  }

  lemma BeginKeepsTokens(s: System, c: nat, op: Op)
    requires TokensOk(s) && c < |s.clients|
    ensures TokensOk(BeginOp(s, c, op))
  {
    assert ClientOk(s.clients[c], c);
    if op.users != [] {
      assert op.users[0] in SortedKeys(op.users);
      assert ClientOk(BeginOp(s, c, op).clients[c], c);
    }
  }

  lemma TryKeepsTokens(s: System, c: nat)
    requires TokensOk(s) && c < |s.clients|
    ensures TokensOk(TryNext(s, c))
  {
    var client, client' := s.clients[c], TryNext(s, c).clients[c];
    assert ClientOk(client, c);
    if client' != client {
      var n := client.next;
      assert client.keys[..n + 1] == client.keys[..n] + [client.keys[n]];
      assert client.keys[n] !in client.keys[..n];
      assert client'.next == |client.keys| ==> client.keys[..n + 1] == client.keys;
      assert ClientOk(client', c);
    }
  }

  lemma LeaveKeepsTokens(s: System, c: nat)
    requires TokensOk(s) && c < |s.clients|
    ensures TokensOk(Leave(s, c))
  {
    assert ClientOk(s.clients[c], c);
  }

  lemma ReleaseKeepsTokens(s: System, c: nat, k: Key)
    requires TokensOk(s) && c < |s.clients|
    ensures TokensOk(ReleaseKey(s, c, k))
  {
    assert ClientOk(s.clients[c], c);
  }

  lemma ReadKeepsTokens(s: System, c: nat, k: Key)
    requires TokensOk(s) && c < |s.clients|
    ensures TokensOk(ReadBalance(s, c, k))
  {
    assert ClientOk(s.clients[c], c);
    LeaveKeepsTokens(s, c);
    hide Leave;
  }

  lemma FinishKeepsTokens(s: System, c: nat)
    requires TokensOk(s) && c < |s.clients|
    ensures TokensOk(FinishOp(s, c))
  {
    LeaveKeepsTokens(s, c);
    hide Leave, Affordable, Written;
  }

  lemma NextKeepsTokens(s: System, step: Step)
    requires TokensOk(s)
    ensures TokensOk(Next(s, step)) && |Next(s, step).clients| == |s.clients|
  {
    SameClients(s, step);
    match step
    case Begin(c, op) => if c < |s.clients| { BeginKeepsTokens(s, c, op); hide TokensOk, BeginOp; }
    case TryLock(c) => if c < |s.clients| { TryKeepsTokens(s, c); hide TokensOk, TryNext; }
    case GiveUp(c) => if c < |s.clients| { LeaveKeepsTokens(s, c); hide TokensOk, Leave; }
    case Read(c, k) => if c < |s.clients| { ReadKeepsTokens(s, c, k); hide TokensOk, ReadBalance; }
    case Finish(c) => if c < |s.clients| { FinishKeepsTokens(s, c); hide TokensOk, FinishOp; }
    case Release(c, k) => if c < |s.clients| { ReleaseKeepsTokens(s, c, k); hide TokensOk, ReleaseKey; }
    case Tick(ms) =>
  }

  lemma SameClients(s: System, step: Step)
    ensures |Next(s, step).clients| == |s.clients|
  {
    hide Affordable, Written, SortedKeys, Free;
  }

  lemma {:induction false} ExecuteKeepsTokens(s: System, steps: seq<Step>)
    requires TokensOk(s)
    ensures TokensOk(Execute(s, steps)) && |Execute(s, steps).clients| == |s.clients|
  {
    if steps != [] {
      hide TokensOk, Next;
      ExecuteKeepsTokens(s, steps[..|steps| - 1]);
      NextKeepsTokens(Execute(s, steps[..|steps| - 1]), steps[|steps| - 1]);
    }
  }

  /**
   * In every run, on time or not: once a client has left, however it left, no key carries its token;
   * until then every key carrying its token is one it took.
   */
  lemma {:induction false} LeavingReleasesExactlyOwnKeys(s: System, steps: seq<Step>, c: nat, k: Key)
    requires TokensOk(s) && c < |s.clients|
    ensures var s' := Execute(s, steps);
      && |s'.clients| == |s.clients|
      && (k in s'.redis && s'.redis[k].token.client == c ==> k in s'.clients[c].taken && s'.clients[c].taken[k] == s'.redis[k].token)
      && (s'.clients[c].phase == Idle ==> !(k in s'.redis && s'.redis[k].token.client == c))
  {
    ExecuteKeepsTokens(s, steps);
    assert ClientOk(Execute(s, steps).clients[c], c);
  }

  /** A step of client `c` takes a lock away from nobody else unless it had expired, and releasing never does. */
  lemma {:induction false} OnlyExpiredLocksAreLost(s: System, step: Step, k: Key)
    requires TokensOk(s) && k in s.redis
    ensures || (k in Next(s, step).redis && Next(s, step).redis[k] == s.redis[k])
            || (step.Release? && step.key == k && s.redis[k].token.client == step.c)
            || (step.TryLock? && s.redis[k].expires <= s.now)
  {
    match step
    case Release(c, key) => if c < |s.clients| { assert ClientOk(s.clients[c], c); }
    case _ =>
  }

  // ---------- Deadlock ----------

  /** Client `c` wants a key that client `d` has taken and still has in Redis. */
  predicate WaitsFor(s: System, c: nat, d: nat) {
    && c < |s.clients| && d < |s.clients|
    && s.clients[c].phase == Acquiring && s.clients[c].next < |s.clients[c].keys|
    && var k := Wanted(s.clients[c]);
       !Free(s, k) && k in s.clients[d].taken && s.redis[k].token == s.clients[d].taken[k]
  }

  function Wanted(client: Client): Key {
    if client.next < |client.keys| then client.keys[client.next] else 0
  }

  /** A client that waits for one that waits itself wants a smaller key. */
  lemma WantedGrows(s: System, c: nat, d: nat, e: nat)
    requires TokensOk(s) && WaitsFor(s, c, d) && WaitsFor(s, d, e)
    ensures Wanted(s.clients[c]) < Wanted(s.clients[d])
  {
    var client := s.clients[d];
    assert ClientOk(client, d);
    var k := Wanted(s.clients[c]);
    assert k in client.keys[..client.next];
  }

  ghost predicate WaitChain(s: System, path: seq<nat>) {
    forall i :: 0 <= i < |path| - 1 ==> WaitsFor(s, path[i], path[i + 1])
  }

  lemma {:induction false} ChainGrows(s: System, path: seq<nat>, e: nat)
    requires TokensOk(s) && 2 <= |path| && WaitChain(s, path) && WaitsFor(s, path[|path| - 1], e)
    requires path[0] < |s.clients|
    ensures Wanted(s.clients[path[0]]) < Wanted(s.clients[path[|path| - 1]])
  {
    var n := |path| - 1;
    assert WaitsFor(s, path[n - 1], path[n - 1 + 1]);
    WantedGrows(s, path[n - 1], path[n], e);
    if 1 < n {
      forall i | 0 <= i < n - 1 ensures WaitsFor(s, path[..n][i], path[..n][i + 1]) {
        assert WaitsFor(s, path[i], path[i + 1]);
      }
      ChainGrows(s, path[..n], path[n]);
    }
  }

  /** No run ever has clients waiting for each other in a circle. */
  lemma NoDeadlock(s: System, steps: seq<Step>, path: seq<nat>)
    requires TokensOk(s) && 2 <= |path| && WaitChain(Execute(s, steps), path)
    ensures path[0] != path[|path| - 1]
  {
    var s' := Execute(s, steps);
    ExecuteKeepsTokens(s, steps);
    if path[0] == path[|path| - 1] {
      assert WaitsFor(s', path[0], path[0 + 1]);
      ChainGrows(s', path, path[1]);
    }
  }

  function MostWanted(clients: seq<Client>): (m: nat)
    ensures forall c :: 0 <= c < |clients| ==> Wanted(clients[c]) <= m
  {
    if clients == [] then 0
    else
      var m := MostWanted(clients[..|clients| - 1]);
      var w := Wanted(clients[|clients| - 1]);
      if m < w then w else m
  }

  predicate Blocked(s: System, c: nat) {
    exists d :: 0 <= d < |s.clients| && WaitsFor(s, c, d)
  }

  /** Whenever a client is waiting for another, some client that holds a key is not itself waiting. */
  lemma {:induction false} SomeHolderCanProceed(s: System, c: nat)
    requires TokensOk(s) && Blocked(s, c)
    ensures exists d :: 0 <= d < |s.clients| && s.clients[d].taken != map[] && !Blocked(s, d)
    decreases MostWanted(s.clients) - Wanted(s.clients[c])
  {
    var d :| 0 <= d < |s.clients| && WaitsFor(s, c, d);
    if Blocked(s, d) {
      var e :| 0 <= e < |s.clients| && WaitsFor(s, d, e);
      WantedGrows(s, c, d, e);
      SomeHolderCanProceed(s, d);
    } else {
      assert s.clients[d].taken != map[];
    }
  }

  // ---------- On time: mutual exclusion, and no lost update ----------

  /** Whoever is acquiring or working still has all its keys in Redis, unexpired, and what it read is still there. */
  predicate Holds(s: System, client: Client, k: Key) {
    k in client.taken && k in s.redis && s.redis[k].token == client.taken[k] && s.now < s.redis[k].expires
  }

  ghost predicate ClientExclusive(s: System, client: Client) {
    && (client.phase == Acquiring || client.phase == Working ==> forall k :: k in client.taken ==> Holds(s, client, k))
    && (client.phase == Working ==> forall k :: k in client.seen ==>
          k in client.op.deltas && k in s.wallets && client.seen[k] == s.wallets[k])
    && (client.phase == Acquiring ==> client.seen == map[])
  }

  ghost predicate Exclusive(s: System) {
    forall c :: 0 <= c < |s.clients| ==> ClientExclusive(s, s.clients[c])
  }

  /** The timing assumption: time passes only as far as no acquiring or working client's lock expires. */
  predicate OnTime(s: System, step: Step) {
    step.Tick? ==>
      forall c :: 0 <= c < |s.clients| && (s.clients[c].phase == Acquiring || s.clients[c].phase == Working) ==>
        forall k :: k in s.clients[c].taken && k in s.redis ==> s.now + step.ms < s.redis[k].expires
  }

  function Applied(w: map<Key, int>, op: Op): map<Key, int> {
    Written(w, w, op)
  }

  /** The operations of `log` one after the other, each on the balances the one before it left. */
  function Serial(w: map<Key, int>, log: seq<Op>): Option<map<Key, int>> {
    if log == [] then Some(w)
    else
      var before := Serial(w, log[..|log| - 1]);
      var op := log[|log| - 1];
      if before.Some? && Affordable(before.value, op) then Some(Applied(before.value, op)) else None
  }

  /** Two acquiring or working clients never have the same key. */
  lemma HoldersDiffer(s: System, c: nat, d: nat, k: Key)
    requires TokensOk(s) && c < |s.clients| && d < |s.clients|
    requires Holds(s, s.clients[c], k) && Holds(s, s.clients[d], k)
    ensures c == d
  {
    assert ClientOk(s.clients[c], c) && ClientOk(s.clients[d], d);
  }

  lemma TryKeepsExclusive(s: System, c: nat)
    requires TokensOk(s) && Exclusive(s) && c < |s.clients|
    ensures Exclusive(TryNext(s, c))
  {
    var s' := TryNext(s, c);
    assert ClientOk(s.clients[c], c);
    forall d | 0 <= d < |s'.clients| ensures ClientExclusive(s', s'.clients[d]) {
      assert ClientExclusive(s, s.clients[d]) && ClientExclusive(s, s.clients[c]);
    }
  }

  lemma ReleaseKeepsExclusive(s: System, c: nat, k: Key)
    requires TokensOk(s) && Exclusive(s) && c < |s.clients|
    ensures Exclusive(ReleaseKey(s, c, k))
  {
    var s' := ReleaseKey(s, c, k);
    assert ClientOk(s.clients[c], c);
    forall d | 0 <= d < |s'.clients| ensures ClientExclusive(s', s'.clients[d]) {
      assert ClientExclusive(s, s.clients[d]) && ClientOk(s.clients[d], d);
    }
  }

  lemma ReadKeepsExclusive(s: System, c: nat, k: Key)
    requires Exclusive(s) && c < |s.clients|
    ensures Exclusive(ReadBalance(s, c, k))
  {
    var s' := ReadBalance(s, c, k);
    forall d | 0 <= d < |s'.clients| ensures ClientExclusive(s', s'.clients[d]) {
      assert ClientExclusive(s, s.clients[d]);
    }
  }

  /** A working client's balances, once read, are its own: no other working client has read them. */
  lemma ReadersDiffer(s: System, c: nat, d: nat, k: Key)
    requires TokensOk(s) && Exclusive(s) && c < |s.clients| && d < |s.clients|
    requires s.clients[c].phase == Working && s.clients[d].phase == Working
    requires k in s.clients[c].op.deltas && k in s.clients[d].op.deltas
    ensures c == d
  {
    forall e | e == c || e == d ensures Holds(s, s.clients[e], k) {
      var client := s.clients[e];
      assert ClientOk(client, e) && ClientExclusive(s, client);
      assert client.keys[..client.next] == client.keys;
    }
    HoldersDiffer(s, c, d, k);
  }

  lemma FinishKeepsExclusive(s: System, c: nat)
    requires TokensOk(s) && Exclusive(s) && c < |s.clients|
    ensures Exclusive(FinishOp(s, c))
  {
    var s' := FinishOp(s, c);
    forall d | 0 <= d < |s'.clients| ensures ClientExclusive(s', s'.clients[d]) {
      assert ClientExclusive(s, s.clients[d]);
      forall k | d != c && s.clients[d].phase == Working && k in s.clients[d].seen && s.clients[c].phase == Working
        ensures k in s'.wallets && s'.wallets[k] == s.wallets[k]
      {
        if k in s.clients[c].op.deltas {
          ReadersDiffer(s, c, d, k);
        }
      }
      assert s'.redis == s.redis && s'.now == s.now;
    }
  }

  lemma NextKeepsExclusive(s: System, step: Step)
    requires TokensOk(s) && Exclusive(s) && OnTime(s, step)
    ensures Exclusive(Next(s, step))
  {
    match step
    case TryLock(c) => if c < |s.clients| { TryKeepsExclusive(s, c); hide Exclusive, TryNext, TokensOk; }
    case Release(c, k) => if c < |s.clients| { ReleaseKeepsExclusive(s, c, k); hide Exclusive, ReleaseKey, TokensOk; }
    case Read(c, k) => if c < |s.clients| { ReadKeepsExclusive(s, c, k); hide Exclusive, ReadBalance, TokensOk; }
    case Finish(c) => if c < |s.clients| { FinishKeepsExclusive(s, c); hide Exclusive, FinishOp, TokensOk; }
    case Begin(c, op) => if c < |s.clients| { OthersKeepExclusive(s, step); }
    case GiveUp(c) => if c < |s.clients| { OthersKeepExclusive(s, step); }
    case Tick(ms) => OthersKeepExclusive(s, step);
  }

  lemma OthersKeepExclusive(s: System, step: Step)
    requires Exclusive(s) && OnTime(s, step) && (step.Begin? || step.GiveUp? || step.Tick?)
    ensures Exclusive(Next(s, step))
  {
    var s' := Next(s, step);
    hide SortedKeys;
    forall d | 0 <= d < |s'.clients| ensures ClientExclusive(s', s'.clients[d]) {
      assert ClientExclusive(s, s.clients[d]);
    }
  }

  ghost predicate OnTimeRun(s: System, steps: seq<Step>) {
    forall i :: 0 <= i < |steps| ==> OnTime(Execute(s, steps[..i]), steps[i])
  }

  predicate NonNegative(wallets: map<Key, int>) {
    forall k :: k in wallets ==> 0 <= wallets[k]
  }

  /** A committed operation is one serial step on the stored balances. */
  lemma CommitIsSerial(s: System, step: Step)
    requires TokensOk(s) && Exclusive(s)
    ensures var s' := Next(s, step);
      || (s'.log == s.log && s'.wallets == s.wallets)
      || (step.Finish? && step.c < |s.clients| && s'.log == s.log + [s.clients[step.c].op]
          && Affordable(s.wallets, s.clients[step.c].op) && s'.wallets == Applied(s.wallets, s.clients[step.c].op))
  {
    match step
    case Finish(c) => if c < |s.clients| { FinishIsSerial(s, c); }
    case _ => hide SortedKeys, TokensOk, Exclusive, Affordable, Written;
  }

  lemma FinishIsSerial(s: System, c: nat)
    requires c < |s.clients| && ClientExclusive(s, s.clients[c])
    ensures var s', op := FinishOp(s, c), s.clients[c].op;
      || (s'.log == s.log && s'.wallets == s.wallets)
      || (s'.log == s.log + [op] && Affordable(s.wallets, op) && s'.wallets == Applied(s.wallets, op))
  {
  }

  /** The state every on-time run keeps. */
  ghost predicate Sound(s: System, wallets: map<Key, int>) {
    TokensOk(s) && Exclusive(s) && NonNegative(s.wallets) && Serial(wallets, s.log) == Some(s.wallets)
  }

  lemma NextIsSound(s: System, step: Step, wallets: map<Key, int>)
    requires Sound(s, wallets) && OnTime(s, step)
    ensures Sound(Next(s, step), wallets)
  {
    NextKeepsTokens(s, step);
    NextKeepsExclusive(s, step);
    CommitIsSerial(s, step);
    hide TokensOk, Exclusive, Next;
    var s' := Next(s, step);
    if s'.log != s.log {
      assert s'.log[..|s'.log| - 1] == s.log;
    }
  }

  /**
   * Every on-time interleaving of any number of clients ends as some serial order of the commits:
   * running the committed operations one after the other is accepted each time and gives the stored
   * balances. None is negative, and a working client's reading of a balance is always the stored one.
   */
  lemma {:induction false} LocksSerialize(s: System, steps: seq<Step>)
    requires TokensOk(s) && Exclusive(s) && NonNegative(s.wallets) && s.log == [] && OnTimeRun(s, steps)
    ensures Sound(Execute(s, steps), s.wallets)
  {
    if steps != [] {
      var n := |steps| - 1;
      forall i | 0 <= i < n ensures OnTime(Execute(s, steps[..n][..i]), steps[..n][i]) {
        assert steps[..n][..i] == steps[..i];
        assert OnTime(Execute(s, steps[..i]), steps[i]);
      }
      LocksSerialize(s, steps[..n]);
      hide Sound, OnTime, Next;
      NextIsSound(Execute(s, steps[..n]), steps[n], s.wallets);
    }
  }

  function DeltaOn(k: Key): Op -> int {
    (op: Op) => if k in op.deltas then op.deltas[k] else 0
  }

  lemma {:induction false} SerialAddsUp(w: map<Key, int>, log: seq<Op>, k: Key)
    requires Serial(w, log).Some?
    ensures Serial(w, log).value.Keys == w.Keys
    ensures k in w ==> Serial(w, log).value[k] == w[k] + SumBy(log, DeltaOn(k))
  {
    if log != [] {
      SerialAddsUp(w, log[..|log| - 1], k);
    }
  }

  /** No update is lost: each balance is what it was plus everything committed on it, and what a lock holder read is true. */
  lemma {:induction false} NoUpdateIsLost(s: System, steps: seq<Step>, k: Key)
    requires TokensOk(s) && Exclusive(s) && NonNegative(s.wallets) && s.log == [] && OnTimeRun(s, steps) && k in s.wallets
    ensures var s' := Execute(s, steps);
      && k in s'.wallets && 0 <= s'.wallets[k] == s.wallets[k] + SumBy(s'.log, DeltaOn(k))
      && forall c :: 0 <= c < |s'.clients| && s'.clients[c].phase == Working && k in s'.clients[c].seen ==>
           s'.clients[c].seen[k] == s'.wallets[k]
  {
    var s' := Execute(s, steps);
    LocksSerialize(s, steps);
    SerialAddsUp(s.wallets, s'.log, k);
    hide Execute, TokensOk, OnTimeRun;
    forall c | 0 <= c < |s'.clients| && s'.clients[c].phase == Working && k in s'.clients[c].seen
      ensures s'.clients[c].seen[k] == s'.wallets[k]
    {
      assert ClientExclusive(s', s'.clients[c]);
    }
  }

  // ---------- Why holders have to be on time ----------

  function FreshClient(): Client {
    Client(Idle, Op([], map[]), [], 0, map[], map[], 0)
  }

  function TwoClients(): System {
    System(0, map[], [FreshClient(), FreshClient()], map[7 := 100], [])
  }

  const LATE_RUN: seq<Step> :=
    [Begin(0, TEN), TryLock(0), Read(0, 7), Tick(LOCK_TTL_MS),
     Begin(1, TEN), TryLock(1), Read(1, 7), Finish(1), Finish(0)]

  lemma ExecuteTake(s: System, steps: seq<Step>, n: nat)
    requires n < |steps|
    ensures Execute(s, steps[..n + 1]) == Next(Execute(s, steps[..n]), steps[n])
  {
    assert steps[..n + 1][..n] == steps[..n];
  }

  /** A holder that outlives its lock overwrites another's update: two credits of 10 to 100 leave 110. */
  lemma LateHolderLosesAnUpdate()
    ensures TokensOk(TwoClients()) && Exclusive(TwoClients())
    ensures var s := Execute(TwoClients(), LATE_RUN);
      s.log == [TEN, TEN] && s.wallets == map[7 := 110]
  {
    hide Next, Execute, TokensOk, Exclusive, TwoClients, Stalled, LATE_RUN;
    TwoClientsAreIdle();
    FirstHalf();
    SecondHalf();
    LastFive();
    ExecuteFive(TwoClients(), LATE_RUN, 4);
    assert LATE_RUN[..9] == LATE_RUN;
  }

  lemma TwoClientsAreIdle()
    ensures TokensOk(TwoClients()) && Exclusive(TwoClients())
  {
  }

  lemma ExecuteFive(s: System, steps: seq<Step>, n: nat)
    requires n + 5 <= |steps|
    ensures Execute(s, steps[..n + 5]) ==
            Next(Next(Next(Next(Next(Execute(s, steps[..n]), steps[n]), steps[n + 1]), steps[n + 2]), steps[n + 3]), steps[n + 4])
  {
    ExecuteTake(s, steps, n);
    ExecuteTake(s, steps, n + 1);
    ExecuteTake(s, steps, n + 2);
    ExecuteTake(s, steps, n + 3);
    ExecuteTake(s, steps, n + 4);
    hide Next, Execute;
  }

  lemma LastFive()
    ensures |LATE_RUN| == 9
    ensures LATE_RUN[4] == Begin(1, TEN) && LATE_RUN[5] == TryLock(1) && LATE_RUN[6] == Read(1, 7)
    ensures LATE_RUN[7] == Finish(1) && LATE_RUN[8] == Finish(0)
  {
  }

  const TEN: Op := Op([7], map[7 := 10])

  /** The first client has read 100, and its lock has just expired. */
  function Stalled(): System {
    System(LOCK_TTL_MS, map[7 := Lock(Token(0, 0), LOCK_TTL_MS)],
           [Client(Working, TEN, [7], 1, map[7 := Token(0, 0)], map[7 := 100], 1), FreshClient()],
           map[7 := 100], [])
  }

  /** The second client has read 100 too. */
  function BothRead(): System {
    Stalled().(redis := map[7 := Lock(Token(1, 0), 2 * LOCK_TTL_MS)],
               clients := Stalled().clients[1 := Client(Working, TEN, [7], 1, map[7 := Token(1, 0)], map[7 := 100], 1)])
  }

  lemma SecondLocks()
    ensures Next(Next(Next(Stalled(), Begin(1, TEN)), TryLock(1)), Read(1, 7)) == BothRead()
  {
    assert SortedKeys([7]) == [7];
    var begun := Next(Stalled(), Begin(1, TEN));
    assert begun.clients[1] == Client(Acquiring, TEN, [7], 0, map[], map[], 0);
    var locked := Next(begun, TryLock(1));
    assert locked.clients[1] == Client(Working, TEN, [7], 1, map[7 := Token(1, 0)], map[], 1);
    assert locked.redis == map[7 := Lock(Token(1, 0), 2 * LOCK_TTL_MS)];
  }

  lemma SecondHalf()
    ensures var s := Next(Next(Next(Next(Next(Stalled(), Begin(1, TEN)), TryLock(1)), Read(1, 7)), Finish(1)), Finish(0));
      s.log == [TEN, TEN] && s.wallets == map[7 := 110]
  {
    SecondLocks();
    OneFinishes(BothRead(), 1);
    OneFinishes(Next(BothRead(), Finish(1)), 0);
    assert BothRead().clients[1].op == TEN && BothRead().clients[0].op == TEN;
    hide Next;
  }

  /** A client that read 100 writes 110, whatever is stored. */
  lemma OneFinishes(s: System, c: nat)
    requires c < |s.clients| && s.clients[c].phase == Working && s.clients[c].op == TEN && s.clients[c].seen == map[7 := 100]
    requires s.wallets.Keys == {7}
    ensures var s' := Next(s, Finish(c));
      && s'.wallets == map[7 := 110] && s'.log == s.log + [TEN] && |s'.clients| == |s.clients|
      && forall d :: 0 <= d < |s.clients| && d != c ==> s'.clients[d] == s.clients[d]
  {
  }

  lemma FirstSteps()
    ensures |LATE_RUN| == 9
    ensures LATE_RUN[0] == Begin(0, TEN) && LATE_RUN[1] == TryLock(0) && LATE_RUN[2] == Read(0, 7) && LATE_RUN[3] == Tick(LOCK_TTL_MS)
  {
  }

  lemma FourMore(s: System, steps: seq<Step>)
    requires 4 <= |steps|
    ensures Execute(s, steps[..4]) == Next(Next(Next(Next(s, steps[0]), steps[1]), steps[2]), steps[3])
  {
    hide Next, Execute;
    assert steps[..0] == [];
    ExecuteNone(s);
    ExecuteTake(s, steps, 0);
    ExecuteTake(s, steps, 1);
    ExecuteTake(s, steps, 2);
    ExecuteTake(s, steps, 3);
  }

  lemma FirstHalf()
    ensures Execute(TwoClients(), LATE_RUN[..4]) == Stalled()
  {
    hide Next, LATE_RUN, TwoClients, Stalled;
    FirstLocks();
    FirstSteps();
    FourMore(TwoClients(), LATE_RUN);
  }

  lemma ExecuteNone(s: System)
    ensures Execute(s, []) == s
  {
  }

  lemma FirstLocks()
    ensures Next(Next(Next(Next(TwoClients(), Begin(0, TEN)), TryLock(0)), Read(0, 7)), Tick(LOCK_TTL_MS)) == Stalled()
  {
    assert SortedKeys([7]) == [7];
    var begun := Next(TwoClients(), Begin(0, TEN));
    assert begun.clients[0] == Client(Acquiring, TEN, [7], 0, map[], map[], 0);
    var locked := Next(begun, TryLock(0));
    assert locked.clients[0] == Client(Working, TEN, [7], 1, map[7 := Token(0, 0)], map[], 1);
    assert locked.redis == map[7 := Lock(Token(0, 0), LOCK_TTL_MS)];
  }
}
