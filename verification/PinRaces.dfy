/** PIN checks of many requests at once. */
module PinRaces {
  // The lock is read first, the comparison takes its time, the counter goes up in one update, and the
  // lock is set in another.

  import opened Basics
  import opened Pin

  /** One request with a wrong PIN. */
  datatype Phase = Waiting | Compared | MustLock | Done

  /** `compared` counts the comparisons made so far. */
  datatype Race = Race(pin: PinState, requests: seq<Phase>, compared: nat)

  datatype RaceStep = Look(c: nat, at: int) | Increment(c: nat) | SetLock(c: nat, at: int)

  function NextRace(r: Race, step: RaceStep): Race {
    match step
    case Look(c, at) =>
      if c < |r.requests| && r.requests[c] == Waiting then
        if LockInForce(r.pin, at) then r.(requests := r.requests[c := Done])
        else r.(requests := r.requests[c := Compared], compared := r.compared + 1)
      else r
    case Increment(c) =>
      if c < |r.requests| && r.requests[c] == Compared then
        var attempts := r.pin.failedAttempts + 1;
        r.(pin := r.pin.(failedAttempts := attempts), requests := r.requests[c := if MAX_ATTEMPTS <= attempts then MustLock else Done])
      else r
    case SetLock(c, at) =>
      if c < |r.requests| && r.requests[c] == MustLock
      then r.(pin := r.pin.(failedAttempts := 0, lockedUntil := Some(at + LOCK_MS)), requests := r.requests[c := Done])
      else r
  }

  function RunRace(r: Race, steps: seq<RaceStep>): Race {
    if steps == [] then r else NextRace(RunRace(r, steps[..|steps| - 1]), steps[|steps| - 1])
  }

  /** `n` requests before any of them starts, on an account that can lock and is not locked at `start`. */
  function Begun(s: PinState, n: nat): Race {
    Race(s, seq(n, _ => Waiting), 0)
  }

  predicate OpenAt(s: PinState, start: int) {
    s.isSet && !s.demo && s.failedAttempts < MAX_ATTEMPTS && !LockInForce(s, start)
  }

  /** Every step falls in the half hour from `start`, so that a lock set in it holds to its end. */
  predicate InWindow(steps: seq<RaceStep>, start: int) {
    forall k :: 0 <= k < |steps| && !steps[k].Increment? ==> start <= steps[k].at < start + LOCK_MS
  }

  // ---------- Counting requests ----------

  function Is(p: Phase): Phase -> int {
    (q: Phase) => if q == p then 1 else 0
  }

  function CountOf(requests: seq<Phase>, p: Phase): int {
    SumBy(requests, Is(p))
  }

  function InFlight(requests: seq<Phase>): int {
    CountOf(requests, Compared) + CountOf(requests, MustLock)
  }

  lemma Moved(requests: seq<Phase>, c: nat, q: Phase, p: Phase)
    requires c < |requests|
    ensures CountOf(requests[c := q], p) == CountOf(requests, p) - Is(p)(requests[c]) + Is(p)(q)
  {
    SumUpdate(requests, c, q, Is(p));
  }

  lemma CountsArePositive(requests: seq<Phase>, p: Phase)
    ensures 0 <= CountOf(requests, p)
  {
    SumNonNegative(requests, Is(p));
  }

  lemma {:induction false} AllWaiting(n: nat)
    ensures var requests := seq(n, _ => Waiting);
      CountOf(requests, Waiting) == n && CountOf(requests, Compared) == 0 && CountOf(requests, MustLock) == 0
  {
    var requests := seq(n, _ => Waiting);
    if 0 < n {
      AllWaiting(n - 1);
      assert requests[..n - 1] == seq(n - 1, _ => Waiting);
    }
  }

  // ---------- What every interleaving keeps ----------

  /** Before the first lock the counter and the requests in flight account for every comparison. */
  predicate Counted(r: Race, f: nat) {
    && r.compared == r.pin.failedAttempts - f + CountOf(r.requests, Compared)
    && CountOf(r.requests, MustLock) == Max(0, r.pin.failedAttempts - (MAX_ATTEMPTS - 1))
    && f <= r.pin.failedAttempts
  }

  /** No lock has been set yet, or one that outlasts the window is in force. */
  ghost predicate RaceOk(r: Race, s: PinState, n: nat, start: int, flights: int) {
    && r.pin.isSet && !r.pin.demo
    && r.compared + CountOf(r.requests, Waiting) <= n
    && r.compared <= Max(0, MAX_ATTEMPTS - 1 - s.failedAttempts + flights)
    && (r.pin.lockedUntil == s.lockedUntil ==> Counted(r, s.failedAttempts))
    && (r.pin.lockedUntil != s.lockedUntil ==> r.pin.lockedUntil.Some? && start + LOCK_MS <= r.pin.lockedUntil.value)
  }

  lemma NextIsOk(r: Race, step: RaceStep, s: PinState, n: nat, start: int, flights: int)
    requires OpenAt(s, start) && RaceOk(r, s, n, start, flights) && 0 <= flights
    requires step.Increment? || start <= step.at < start + LOCK_MS
    requires InFlight(NextRace(r, step).requests) <= flights
    ensures RaceOk(NextRace(r, step), s, n, start, flights)
  {
    var c := step.c;
    if c < |r.requests| {
      var q := NextRace(r, step).requests[c];
      Moved(r.requests, c, q, Waiting);
      Moved(r.requests, c, q, Compared);
      Moved(r.requests, c, q, MustLock);
      CountsArePositive(NextRace(r, step).requests, MustLock);
    }
    hide CountOf;
  }

  /** At most `flights` requests are ever between their look and their last update. */
  ghost predicate AtMost(r: Race, steps: seq<RaceStep>, flights: int) {
    forall k :: 0 <= k <= |steps| ==> InFlight(RunRace(r, steps[..k]).requests) <= flights
  }

  lemma {:induction false} RaceStaysOk(s: PinState, n: nat, steps: seq<RaceStep>, start: int, flights: int)
    requires OpenAt(s, start) && InWindow(steps, start) && AtMost(Begun(s, n), steps, flights) && 0 <= flights
    ensures RaceOk(RunRace(Begun(s, n), steps), s, n, start, flights)
  {
    if steps == [] {
      AllWaiting(n);
    } else {
      var m := |steps| - 1;
      ShorterWindow(s, n, steps, start, flights);
      RaceStaysOk(s, n, steps[..m], start, flights);
      hide RaceOk, NextRace, OpenAt, AtMost, InFlight;
      NextIsOk(RunRace(Begun(s, n), steps[..m]), steps[m], s, n, start, flights);
    }
  }

  lemma ShorterWindow(s: PinState, n: nat, steps: seq<RaceStep>, start: int, flights: int)
    requires steps != [] && InWindow(steps, start) && AtMost(Begun(s, n), steps, flights)
    ensures var m := |steps| - 1;
      && InWindow(steps[..m], start) && AtMost(Begun(s, n), steps[..m], flights)
      && InFlight(NextRace(RunRace(Begun(s, n), steps[..m]), steps[m]).requests) <= flights
      && (steps[m].Increment? || start <= steps[m].at < start + LOCK_MS)
  {
    hide InFlight, NextRace;
    var m := |steps| - 1;
    forall k | 0 <= k <= m ensures InFlight(RunRace(Begun(s, n), steps[..m][..k]).requests) <= flights {
      assert steps[..m][..k] == steps[..k];
    }
    assert steps[..m + 1] == steps;
    assert InFlight(RunRace(Begun(s, n), steps[..m + 1]).requests) <= flights;
  }

  /**
   * In any interleaving of any number of requests in half an hour, with at most `flights` of them in
   * flight at once, at most four guesses less the failures so far, plus `flights`, are compared.
   */
  lemma {:induction false} ComparisonsAreBounded(s: PinState, n: nat, steps: seq<RaceStep>, start: int, flights: nat)
    requires OpenAt(s, start) && InWindow(steps, start) && AtMost(Begun(s, n), steps, flights)
    ensures RunRace(Begun(s, n), steps).compared <= MAX_ATTEMPTS - 1 - s.failedAttempts + flights
    ensures RunRace(Begun(s, n), steps).compared <= n
  {
    RaceStaysOk(s, n, steps, start, flights);
    CountsArePositive(RunRace(Begun(s, n), steps).requests, Waiting);
    hide RunRace, AtMost, Counted;
  }

  // ---------- The bound is reached ----------

  /** The first `k` requests come one after the other. */
  function OneByOne(k: nat, at: int): seq<RaceStep> {
    if k == 0 then [] else OneByOne(k - 1, at) + [Look(k - 1, at)] + [Increment(k - 1)]
  }

  /** Requests `first` up to `last` all look before any goes on. */
  function Together(first: nat, last: nat, at: int): seq<RaceStep>
    requires first <= last
    decreases last
  {
    if first == last then [] else Together(first, last - 1, at) + [Look(last - 1, at)]
  }

  /** The first `k` requests are done, the next up to `m` have compared, and the others wait. */
  function Phases(n: nat, k: nat, m: nat): seq<Phase> {
    seq(n, i => if i < k then Done else if i < m then Compared else Waiting)
  }

  lemma RunLast(r: Race, steps: seq<RaceStep>, step: RaceStep)
    ensures RunRace(r, steps + [step]) == NextRace(RunRace(r, steps), step)
  {
    assert (steps + [step])[..|steps|] == steps;
  }

  lemma LookOne(r: Race, s: PinState, n: nat, k: nat, m: nat, start: int)
    requires OpenAt(s, start) && k <= m < n && r.requests == Phases(n, k, m)
    requires r.pin == s.(failedAttempts := r.pin.failedAttempts)
    ensures NextRace(r, Look(m, start)) == r.(requests := Phases(n, k, m + 1), compared := r.compared + 1)
  {
    assert Phases(n, k, m)[m := Compared] == Phases(n, k, m + 1);
  }

  lemma {:induction false} OneByOneCompares(s: PinState, n: nat, k: nat, start: int)
    requires OpenAt(s, start) && k <= n && s.failedAttempts + k < MAX_ATTEMPTS
    ensures RunRace(Begun(s, n), OneByOne(k, start)) == Race(s.(failedAttempts := s.failedAttempts + k), Phases(n, k, k), k)
  {
    if k == 0 {
      assert seq(n, _ => Waiting) == Phases(n, 0, 0);
    } else {
      var earlier := OneByOne(k - 1, start);
      OneByOneCompares(s, n, k - 1, start);
      var before := RunRace(Begun(s, n), earlier);
      RunLast(Begun(s, n), earlier, Look(k - 1, start));
      RunLast(Begun(s, n), earlier + [Look(k - 1, start)], Increment(k - 1));
      LookOne(before, s, n, k - 1, k - 1, start);
      assert Phases(n, k - 1, k)[k - 1 := Done] == Phases(n, k, k);
      hide RunRace;
    }
  }

  lemma LookNext(s: PinState, n: nat, k: nat, m: nat, start: int, earlier: seq<RaceStep>)
    requires OpenAt(s, start) && k <= m < n
    requires RunRace(Begun(s, n), earlier) == Race(s.(failedAttempts := s.failedAttempts + k), Phases(n, k, m), m)
    ensures RunRace(Begun(s, n), earlier + [Look(m, start)]) == Race(s.(failedAttempts := s.failedAttempts + k), Phases(n, k, m + 1), m + 1)
  {
    RunLast(Begun(s, n), earlier, Look(m, start));
    LookOne(RunRace(Begun(s, n), earlier), s, n, k, m, start);
    hide RunRace, NextRace, Phases;
  }

  lemma NoneTogether(k: nat, start: int)
    ensures OneByOne(k, start) + Together(k, k, start) == OneByOne(k, start)
  {
  }

  lemma TogetherGrows(k: nat, m: nat, start: int)
    requires k < m
    ensures OneByOne(k, start) + Together(k, m, start) == OneByOne(k, start) + Together(k, m - 1, start) + [Look(m - 1, start)]
  {
  }

  lemma {:induction false} TogetherCompare(s: PinState, n: nat, k: nat, m: nat, start: int)
    requires OpenAt(s, start) && k <= m <= n && s.failedAttempts + k < MAX_ATTEMPTS
    ensures RunRace(Begun(s, n), OneByOne(k, start) + Together(k, m, start))
            == Race(s.(failedAttempts := s.failedAttempts + k), Phases(n, k, m), m)
  {
    hide RunRace, OneByOne, Together, Phases, OpenAt, MAX_ATTEMPTS;
    if m == k {
      NoneTogether(k, start);
      OneByOneCompares(s, n, k, start);
    } else {
      TogetherGrows(k, m, start);
      TogetherCompare(s, n, k, m - 1, start);
      LookNext(s, n, k, m - 1, start, OneByOne(k, start) + Together(k, m - 1, start));
    }
  }

  /** Every request looks before any counter moves: all of them are compared, however many. */
  lemma AllCompare(s: PinState, n: nat, start: int)
    requires OpenAt(s, start)
    ensures RunRace(Begun(s, n), Together(0, n, start)).compared == n
    ensures InWindow(Together(0, n, start), start)
  {
    TogetherCompare(s, n, 0, n, start);
    assert OneByOne(0, start) + Together(0, n, start) == Together(0, n, start);
    TogetherInWindow(0, n, start);
    hide RunRace, Together;
  }

  lemma {:induction false} TogetherInWindow(first: nat, last: nat, start: int)
    requires first <= last
    ensures InWindow(Together(first, last, start), start)
    decreases last
  {
    if first < last {
      TogetherInWindow(first, last - 1, start);
    }
  }

  /** What is left of the allowance of five. */
  predicate WithinAllowance(s: PinState, r: Race) {
    r.compared <= MAX_ATTEMPTS - s.failedAttempts
  }

  /**
   * `n` requests stay within the allowance however they overlap if and only if there are no more of
   * them than guesses left.
   */
  lemma {:induction false} OverlapIsSafeIff(s: PinState, n: nat, start: int)
    requires OpenAt(s, start)
    ensures (forall steps: seq<RaceStep> :: InWindow(steps, start) ==> WithinAllowance(s, RunRace(Begun(s, n), steps)))
            <==> n <= MAX_ATTEMPTS - s.failedAttempts
  {
    if n <= MAX_ATTEMPTS - s.failedAttempts {
      forall steps: seq<RaceStep> | InWindow(steps, start) ensures WithinAllowance(s, RunRace(Begun(s, n), steps)) {
        FlightsAreRequests(s, n, steps);
        ComparisonsAreBounded(s, n, steps, start, n);
      }
    } else {
      AllCompare(s, n, start);
      assert !WithinAllowance(s, RunRace(Begun(s, n), Together(0, n, start)));
    }
  }

  lemma {:induction false} RequestsStay(r: Race, steps: seq<RaceStep>)
    ensures |RunRace(r, steps).requests| == |r.requests|
  {
    if steps != [] {
      RequestsStay(r, steps[..|steps| - 1]);
    }
  }

  lemma {:induction false} FlightsFit(requests: seq<Phase>)
    ensures InFlight(requests) <= |requests|
  {
    if requests != [] {
      FlightsFit(requests[..|requests| - 1]);
    }
  }

  lemma FlightsAreRequests(s: PinState, n: nat, steps: seq<RaceStep>)
    ensures AtMost(Begun(s, n), steps, n)
  {
    forall k | 0 <= k <= |steps| ensures InFlight(RunRace(Begun(s, n), steps[..k]).requests) <= n {
      RequestsStay(Begun(s, n), steps[..k]);
      FlightsFit(RunRace(Begun(s, n), steps[..k]).requests);
    }
  }

  // ---------- One request at a time ----------

  /** With enough requests, they stay within the allowance in every interleaving that keeps at most `flights` in flight if and only if that is one. */
  lemma {:induction false} OneInFlightIsSafeIff(s: PinState, n: nat, start: int, flights: nat)
    requires OpenAt(s, start) && 1 <= flights && MAX_ATTEMPTS - s.failedAttempts < n
    ensures (forall steps: seq<RaceStep> :: InWindow(steps, start) && AtMost(Begun(s, n), steps, flights) ==>
               WithinAllowance(s, RunRace(Begun(s, n), steps)))
            <==> flights == 1
  {
    if flights == 1 {
      forall steps: seq<RaceStep> | InWindow(steps, start) && AtMost(Begun(s, n), steps, flights)
        ensures WithinAllowance(s, RunRace(Begun(s, n), steps))
      {
        ComparisonsAreBounded(s, n, steps, start, flights);
      }
    } else {
      var k := MAX_ATTEMPTS - 1 - s.failedAttempts;
      var steps := OneByOne(k, start) + Together(k, k + 2, start);
      TogetherCompare(s, n, k, k + 2, start);
      TwoInFlight(s, n, k, start, flights);
      hide RunRace, AtMost, InWindow;
      assert !WithinAllowance(s, RunRace(Begun(s, n), steps));
    }
  }

  lemma {:induction false} OneByOneInWindow(k: nat, start: int)
    ensures InWindow(OneByOne(k, start), start)
  {
    if 0 < k {
      OneByOneInWindow(k - 1, start);
    }
  }

  /** Requests in flight after `k` are done and `m - k` more have compared. */
  lemma {:induction false} FlightsOfPhases(n: nat, k: nat, m: nat)
    requires k <= m <= n
    ensures InFlight(Phases(n, k, m)) == m - k
    decreases n
  {
    if n == 0 {
    } else {
      assert Phases(n, k, m)[..n - 1] == Phases(n - 1, if k < n then k else n - 1, if m < n then m else n - 1);
      FlightsOfPhases(n - 1, if k < n then k else n - 1, if m < n then m else n - 1);
    }
  }

  lemma OneMoreAtMost(r: Race, steps: seq<RaceStep>, step: RaceStep, flights: int)
    requires AtMost(r, steps, flights) && InFlight(RunRace(r, steps + [step]).requests) <= flights
    ensures AtMost(r, steps + [step], flights)
  {
    hide InFlight, RunRace;
    var all := steps + [step];
    forall k | 0 <= k <= |all| ensures InFlight(RunRace(r, all[..k]).requests) <= flights {
      if k <= |steps| {
        assert all[..k] == steps[..k];
      } else {
        assert all[..k] == all;
      }
    }
  }

  lemma OneMoreByOne(k: nat, start: int)
    requires 1 <= k
    ensures OneByOne(k, start) == OneByOne(k - 1, start) + [Look(k - 1, start)] + [Increment(k - 1)]
  {
  }

  lemma NoneInFlight(s: PinState, n: nat, k: nat, start: int)
    requires OpenAt(s, start) && k <= n && s.failedAttempts + k < MAX_ATTEMPTS
    ensures InFlight(RunRace(Begun(s, n), OneByOne(k, start)).requests) == 0
  {
    hide RunRace, InFlight, Phases, OpenAt, OneByOne, MAX_ATTEMPTS;
    OneByOneCompares(s, n, k, start);
    FlightsOfPhases(n, k, k);
  }

  lemma OneLooks(s: PinState, n: nat, k: nat, start: int)
    requires OpenAt(s, start) && 1 <= k <= n && s.failedAttempts + k < MAX_ATTEMPTS
    ensures InFlight(RunRace(Begun(s, n), OneByOne(k - 1, start) + [Look(k - 1, start)]).requests) == 1
  {
    hide RunRace, InFlight, Phases, OpenAt, OneByOne;
    OneByOneCompares(s, n, k - 1, start);
    FlightsOfPhases(n, k - 1, k);
    LookNext(s, n, k - 1, k - 1, start, OneByOne(k - 1, start));
  }

  lemma NobodyAtMost(s: PinState, n: nat, start: int, flights: int)
    requires 0 <= flights
    ensures AtMost(Begun(s, n), OneByOne(0, start), flights)
  {
    AllWaiting(n);
    assert OneByOne(0, start)[..0] == OneByOne(0, start);
  }

  lemma {:induction false} OneByOneAtMost(s: PinState, n: nat, k: nat, start: int, flights: int)
    requires OpenAt(s, start) && k <= n && s.failedAttempts + k < MAX_ATTEMPTS && 1 <= flights
    ensures AtMost(Begun(s, n), OneByOne(k, start), flights)
  {
    hide RunRace, AtMost, InFlight, OpenAt, OneByOne, MAX_ATTEMPTS, Begun;
    if k == 0 {
      NobodyAtMost(s, n, start, flights);
    } else {
      var earlier := OneByOne(k - 1, start);
      OneMoreByOne(k, start);
      OneByOneAtMost(s, n, k - 1, start, flights);
      OneLooks(s, n, k, start);
      NoneInFlight(s, n, k, start);
      OneMoreAtMost(Begun(s, n), earlier, Look(k - 1, start), flights);
      OneMoreAtMost(Begun(s, n), earlier + [Look(k - 1, start)], Increment(k - 1), flights);
    }
  }

  lemma TogetherTwo(k: nat, start: int)
    ensures Together(k, k + 1, start) == [Look(k, start)] && Together(k, k + 2, start) == [Look(k, start)] + [Look(k + 1, start)]
  {
  }

  lemma TwoInWindow(steps: seq<RaceStep>, k: nat, start: int)
    requires InWindow(steps, start)
    ensures InWindow(steps + [Look(k, start)] + [Look(k + 1, start)], start)
  {
  }

  lemma TwoInFlight(s: PinState, n: nat, k: nat, start: int, flights: int)
    requires OpenAt(s, start) && k + 2 <= n && s.failedAttempts + k < MAX_ATTEMPTS && 2 <= flights
    ensures var steps := OneByOne(k, start) + Together(k, k + 2, start);
      InWindow(steps, start) && AtMost(Begun(s, n), steps, flights)
  {
    hide RunRace, AtMost, InFlight, Phases, OpenAt, InWindow, Together, OneByOne;
    var one := OneByOne(k, start);
    OneByOneInWindow(k, start);
    TwoInWindow(one, k, start);
    TogetherTwo(k, start);
    OneByOneAtMost(s, n, k, start, flights);
    TogetherCompare(s, n, k, k + 1, start);
    TogetherCompare(s, n, k, k + 2, start);
    FlightsOfPhases(n, k, k + 1);
    FlightsOfPhases(n, k, k + 2);
    OneMoreAtMost(Begun(s, n), one, Look(k, start), flights);
    assert one + ([Look(k, start)] + [Look(k + 1, start)]) == one + [Look(k, start)] + [Look(k + 1, start)];
    OneMoreAtMost(Begun(s, n), one + [Look(k, start)], Look(k + 1, start), flights);
  }

  /** A request whose steps are not interrupted does what one call of the check does. */
  lemma UninterruptedIsCheck(s: PinState, at: int)
    requires s.isSet && !s.demo
    ensures NextRace(NextRace(NextRace(Begun(s, 1), Look(0, at)), Increment(0)), SetLock(0, at)).pin == Check(s, at, false).0
    ensures NextRace(Begun(s, 1), Look(0, at)).compared == if WrongGuess(s, Attempt(at, false)) then 1 else 0
  {
  }

  // ---------- Seven at once ----------

  function NewPin(): PinState {
    PinState(true, 0, None, false)
  }

  const SEVEN_AT_ONCE: seq<RaceStep> :=
    [Look(0, 0), Look(1, 0), Look(2, 0), Look(3, 0), Look(4, 0), Look(5, 0), Look(6, 0),
     Increment(0), Increment(1), Increment(2), Increment(3), Increment(4), Increment(5), Increment(6)]

  /** Seven requests from zero failures: all seven are compared, and the counter goes to seven before anyone sets the lock. */
  lemma SevenAreCompared()
    ensures var r := RunRace(Begun(NewPin(), 7), SEVEN_AT_ONCE);
      r.compared == 7 && r.pin.failedAttempts == 7 && r.pin.lockedUntil.None?
  {
    var looks := Together(0, 7, 0);
    TogetherCompare(NewPin(), 7, 0, 7, 0);
    assert OneByOne(0, 0) + looks == looks;
    SevenLooks();
    SevenIncrements();
    hide RunRace, NextRace, Together, Phases;
    RunRaceConcat(Begun(NewPin(), 7), looks, AllIncrements(7));
  }

  function AllIncrements(n: nat): seq<RaceStep> {
    if n == 0 then [] else AllIncrements(n - 1) + [Increment(n - 1)]
  }

  lemma SevenLooks()
    ensures SEVEN_AT_ONCE == Together(0, 7, 0) + AllIncrements(7)
  {
    assert Together(0, 2, 0) == [Look(0, 0), Look(1, 0)];
    assert Together(0, 4, 0) == Together(0, 2, 0) + [Look(2, 0), Look(3, 0)];
    assert Together(0, 6, 0) == Together(0, 4, 0) + [Look(4, 0), Look(5, 0)];
    assert AllIncrements(2) == [Increment(0), Increment(1)];
    assert AllIncrements(4) == AllIncrements(2) + [Increment(2), Increment(3)];
    assert AllIncrements(6) == AllIncrements(4) + [Increment(4), Increment(5)];
  }

  lemma {:induction false} RunRaceConcat(r: Race, a: seq<RaceStep>, b: seq<RaceStep>)
    ensures RunRace(r, a + b) == RunRace(RunRace(r, a), b)
  {
    if b == [] {
      assert a + b == a;
    } else {
      var n := |b| - 1;
      assert (a + b)[..|a + b| - 1] == a + b[..n];
      RunRaceConcat(r, a, b[..n]);
    }
  }

  lemma RunNothing(r: Race)
    ensures RunRace(r, []) == r
  {
  }

  lemma AllCompared(n: nat)
    ensures |Phases(n, 0, n)| == n && forall i :: 0 <= i < n ==> Phases(n, 0, n)[i] == Compared
  {
  }

  lemma {:induction false} IncrementsCount(s: PinState, n: nat, m: nat)
    requires m <= n
    ensures var r := RunRace(Race(s, Phases(n, 0, n), n), AllIncrements(m));
      && r.pin == s.(failedAttempts := s.failedAttempts + m) && r.compared == n
      && |r.requests| == n && forall i :: m <= i < n ==> r.requests[i] == Compared
  {
    hide RunRace, Phases;
    if m == 0 {
      RunNothing(Race(s, Phases(n, 0, n), n));
      AllCompared(n);
    } else {
      IncrementsCount(s, n, m - 1);
      RunLast(Race(s, Phases(n, 0, n), n), AllIncrements(m - 1), Increment(m - 1));
    }
  }

  lemma SevenIncrements()
    ensures var r := RunRace(Race(NewPin(), Phases(7, 0, 7), 7), AllIncrements(7));
      r.pin == NewPin().(failedAttempts := 7) && r.compared == 7
  {
    IncrementsCount(NewPin(), 7, 7);
  }
}
