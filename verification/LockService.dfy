/** Taking and releasing wallet locks, call by call, while other clients keep using the same Redis. */
module LockService {
  import opened Basics
  import opened LockProtocol

  const LOCK_RETRY_COUNT: nat := 50
  const LOCK_RETRY_DELAY_MS: nat := 100

  predicate Mine(store: map<Key, Lock>, me: nat, k: Key) {
    k in store && store[k].token.client == me
  }

  /** What may happen while `me` waits: time passes, others take free keys and release their own, expired keys go. */
  ghost predicate OthersActed(me: nat, before: map<Key, Lock>, earlier: int, after: map<Key, Lock>, now: int) {
    && earlier <= now
    && (forall k :: Mine(after, me, k) ==> k in before && after[k] == before[k])
    && (forall k :: Mine(before, me, k) && now < before[k].expires ==> k in after && after[k] == before[k])
  }

  class Redis {
    var store: map<Key, Lock>
    var now: int
    var drawn: nat

    constructor ()
      ensures store == map[]
    {
      store := map[];
      now := 0;
      drawn := 0;
    }

    /** SET key token PX ttl NX. */
    method SetIfFree(key: Key, token: Token, ttl: int) returns (ok: bool)
      modifies this`store
      ensures ok <==> old(key !in store || store[key].expires <= now)
      ensures store == if ok then old(store)[key := Lock(token, now + ttl)] else old(store)
    {
      ok := key !in store || store[key].expires <= now;
      if ok {
        store := store[key := Lock(token, now + ttl)];
      }
    }

    /** The release script. A key that was never taken is released with no token, which matches nothing. */
    method DeleteIfOwn(key: Key, token: Option<Token>)
      modifies this`store
      ensures store == if key in old(store) && token == Some(old(store)[key].token) then old(store) - {key} else old(store)
    {
      if key in store && token == Some(store[key].token) {
        store := store - {key};
      }
    }

    /** Other clients act while `me` waits for at least `ms`. */
    method Await(me: nat, ms: nat)
      modifies this`store, this`now
      ensures OthersActed(me, old(store), old(now), store, now) && old(now) + ms <= now
    {
      now := now + ms;
      var later: map<Key, Lock> := *;
      if (forall k | k in later :: later[k].token.client == me ==> k in store && later[k] == store[k])
         && (forall k | k in store :: store[k].token.client == me && now < store[k].expires ==> k in later && later[k] == store[k])
      {
        store := later;
      }
    }

    method AcquireLock(me: nat, key: Key) returns (token: Option<Token>)
      modifies this`store, this`drawn
      ensures drawn == old(drawn) + 1
      ensures token.Some? <==> old(key !in store || store[key].expires <= now)
      ensures token.Some? ==> token.value == Token(me, old(drawn)) && store == old(store)[key := Lock(token.value, now + LOCK_TTL_MS)]
      ensures token.None? ==> store == old(store)
    {
      var mine := Token(me, drawn);
      drawn := drawn + 1;
      var ok := SetIfFree(key, mine, LOCK_TTL_MS);
      token := if ok then Some(mine) else None;
    }

    /** Tries a key up to 51 times, 100 ms apart. */
    method AcquireWithRetries(me: nat, key: Key) returns (token: Option<Token>)
      requires !Mine(store, me, key)
      modifies this
      ensures old(now) <= now
      ensures token.Some? ==> key in store && store[key] == Lock(token.value, now + LOCK_TTL_MS) && token.value.client == me
      ensures token.None? ==> !Mine(store, me, key)
      ensures forall k :: k != key && Mine(store, me, k) ==> k in old(store) && store[k] == old(store)[k]
      ensures forall k :: k != key && Mine(old(store), me, k) && now < old(store)[k].expires ==> k in store && store[k] == old(store)[k]
      ensures token.None? ==> old(now) + 5_000 <= now
    {
      token := None;
      var attempt: nat := 0;
      while attempt <= LOCK_RETRY_COUNT && token.None?
        invariant attempt <= LOCK_RETRY_COUNT + 1
        invariant old(now) <= now
        invariant token.Some? ==> key in store && store[key] == Lock(token.value, now + LOCK_TTL_MS) && token.value.client == me
        invariant token.None? ==> !Mine(store, me, key)
        invariant forall k :: k != key && Mine(store, me, k) ==> k in old(store) && store[k] == old(store)[k]
        invariant forall k :: k != key && Mine(old(store), me, k) && now < old(store)[k].expires ==> k in store && store[k] == old(store)[k]
        invariant token.None? ==>
                    old(now) + (if attempt <= LOCK_RETRY_COUNT then attempt else LOCK_RETRY_COUNT) * LOCK_RETRY_DELAY_MS <= now
      {
        token := AcquireLock(me, key);
        if token.None? && attempt < LOCK_RETRY_COUNT {
          Await(me, LOCK_RETRY_DELAY_MS);
        }
        attempt := attempt + 1;
      }
    }

    /** Releases every key, taken or not, while others keep acting. */
    method ReleaseAll(me: nat, keys: seq<Key>, tokens: seq<Token>)
      requires Ascending(keys) && |tokens| <= |keys|
      requires forall k :: Mine(store, me, k) ==> exists i :: 0 <= i < |tokens| && keys[i] == k && store[k].token == tokens[i]
      modifies this`store, this`now
      ensures forall k :: !Mine(store, me, k)
      ensures old(now) <= now
    {
      var i := 0;
      while i < |keys|
        invariant i <= |keys| && old(now) <= now
        invariant forall k :: Mine(store, me, k) ==> exists j :: i <= j < |tokens| && keys[j] == k && store[k].token == tokens[j]
      {
        DeleteIfOwn(keys[i], if i < |tokens| then Some(tokens[i]) else None);
        Await(me, 0);
        i := i + 1;
      }
    }

    /**
     * Runs some work under the locks of all the users. `works` says whether the work itself succeeds.
     * However it ends, no key carries a token of `me` afterwards. If the locks were taken within one
     * TTL, the work started (`at`) with every one of them held (`held`).
     */
    method WithMultiLock(me: nat, userIds: seq<Key>, works: bool)
      returns (ran: bool, done: bool, ghost held: map<Key, Lock>, ghost at: int)
      requires forall k :: !Mine(store, me, k)
      modifies this
      ensures forall k :: !Mine(store, me, k)
      ensures done <==> ran && works
      ensures old(now) <= at <= now
      ensures ran && at < old(now) + LOCK_TTL_MS ==> forall k :: k in userIds ==> Mine(held, me, k) && at < held[k].expires
      ensures !ran ==> old(now) + 5_000 <= at
    {
      var keys := SortedKeys(userIds);
      var tokens: seq<Token> := [];
      var failed := false;
      ghost var start := now;
      while |tokens| < |keys| && !failed
        invariant |tokens| <= |keys| && start <= now
        invariant forall k :: Mine(store, me, k) ==> exists i :: 0 <= i < |tokens| && keys[i] == k && store[k].token == tokens[i]
        invariant now < start + LOCK_TTL_MS ==>
                    forall i :: 0 <= i < |tokens| ==> Mine(store, me, keys[i]) && start + LOCK_TTL_MS <= store[keys[i]].expires
        invariant failed ==> start + LOCK_RETRY_COUNT * LOCK_RETRY_DELAY_MS <= now
        decreases |keys| - |tokens|, if failed then 0 else 1
      {
        ghost var before := store;
        assert !Mine(store, me, keys[|tokens|]);
        var token := AcquireWithRetries(me, keys[|tokens|]);
        if token.None? {
          failed := true;
        } else {
          tokens := tokens + [token.value];
        }
      }
      ran := !failed;
      done := ran && works;
      held := store;
      at := now;
      if ran {
        Await(me, 0);
      }
      ReleaseAll(me, keys, tokens);
    }

    /** The same for one user. */
    method WithLock(me: nat, userId: Key, works: bool)
      returns (ran: bool, done: bool, ghost held: map<Key, Lock>, ghost at: int)
      requires forall k :: !Mine(store, me, k)
      modifies this
      ensures forall k :: !Mine(store, me, k)
      ensures done <==> ran && works
      ensures old(now) <= at <= now
      ensures ran ==> Mine(held, me, userId) && at < held[userId].expires
      ensures !ran ==> old(now) + 5_000 <= at
    {
      var token := AcquireWithRetries(me, userId);
      ran := token.Some?;
      done := ran && works;
      held := store;
      at := now;
      if ran {
        Await(me, 0);
        DeleteIfOwn(userId, token);
      }
    }
  }
}
