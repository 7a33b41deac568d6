/** The transaction PIN: attempts, the lock, and how many guesses the lock lets through. */
module Pin {
  import opened Basics

  const MAX_ATTEMPTS: int := 5
  const LOCK_MS: int := 30 * 60_000

  /** An account's PIN fields. A shared demo account never locks. */
  datatype PinState = PinState(isSet: bool, failedAttempts: nat, lockedUntil: Option<int>, demo: bool)

  datatype Outcome =
    | Accepted
    | NotSet
    | Locked(until: int)
    | Incorrect(left: int)
    | DemoIncorrect

  predicate LockInForce(s: PinState, now: int) {
    s.lockedUntil.Some? && now < s.lockedUntil.value
  }

  /** One check of a PIN: the new state and what the caller is told. */
  function Check(s: PinState, now: int, correct: bool): (PinState, Outcome) {
    if !s.isSet then (s, NotSet)
    else if LockInForce(s, now) then (s, Locked(s.lockedUntil.value))
    else if correct then (s.(failedAttempts := 0, lockedUntil := None), Accepted)
    else if s.demo then (s, DemoIncorrect)
    else if MAX_ATTEMPTS <= s.failedAttempts + 1
    then (s.(failedAttempts := 0, lockedUntil := Some(now + LOCK_MS)), Locked(now + LOCK_MS))
    else (s.(failedAttempts := s.failedAttempts + 1), Incorrect(MAX_ATTEMPTS - s.failedAttempts - 1))
  }

  /**
   * What a check does, case by case. Without a PIN, or under a lock in force, nothing is compared and nothing
   * changes, however right the guess. The right PIN clears the counter and an old lock. A wrong one counts,
   * and the fifth in a row locks for half an hour and starts the counter again; a demo account only refuses.
   */
  lemma CheckTells(s: PinState, now: int, correct: bool)
    ensures var (after, outcome) := Check(s, now, correct);
      var locked := s.lockedUntil.Some? && now < s.lockedUntil.value;
      && (outcome == NotSet <==> !s.isSet)
      && (!s.isSet || locked ==> after == s)
      && (s.isSet && locked ==> outcome == Locked(s.lockedUntil.value))
      && (outcome == Accepted <==> s.isSet && !locked && correct)
      && (outcome == Accepted ==> after == s.(failedAttempts := 0, lockedUntil := None))
      && (outcome == DemoIncorrect <==> s.isSet && !locked && !correct && s.demo)
      && (outcome == DemoIncorrect ==> after == s)
      && (s.isSet && !locked && !correct && !s.demo ==>
            if s.failedAttempts < 4
            then outcome == Incorrect(4 - s.failedAttempts) && after == s.(failedAttempts := s.failedAttempts + 1)
            else outcome == Locked(now + 1_800_000) && after == s.(failedAttempts := 0, lockedUntil := Some(now + 1_800_000)))
  {
  }

  /** A user's row, as the service updates it. */
  class User {
    var pinSet: bool
    var pinFailedAttempts: nat
    var pinLockedUntil: Option<int>
    const demo: bool

    constructor (demo: bool)
      ensures this.demo == demo && State() == PinState(false, 0, None, demo)
    {
      this.demo := demo;
      pinSet := false;
      pinFailedAttempts := 0;
      pinLockedUntil := None;
    }

    function State(): PinState
      reads this
    {
      PinState(pinSet, pinFailedAttempts, pinLockedUntil, demo)
    }

    method SetPin(passwordCorrect: bool) returns (r: PinChange)
      modifies this`pinSet, this`pinFailedAttempts, this`pinLockedUntil
      ensures r == if old(pinSet) then PinExists else if passwordCorrect then Changed else PasswordIncorrect
      ensures State() == if r == Changed then Fresh(old(State())) else old(State())
    {
      if pinSet {
        return PinExists;
      }
      if !passwordCorrect {
        return PasswordIncorrect;
      }
      pinSet, pinFailedAttempts, pinLockedUntil := true, 0, None;
      r := Changed;
    }

    /** A wrong current PIN counts as a failed attempt; a lock is lifted only by the password. */
    method ChangePin(now: int, proof: Proof) returns (r: PinChange)
      modifies this`pinSet, this`pinFailedAttempts, this`pinLockedUntil
      ensures r == Changed <==> (proof.CurrentPin? && Check(old(State()), now, proof.correct).1 == Accepted) || (proof.Password? && proof.correct)
      ensures r == Changed ==> State() == Fresh(old(State()))
      ensures r != Changed ==> State() == if proof.CurrentPin? then Check(old(State()), now, proof.correct).0 else old(State())
    {
      match proof {
        case CurrentPin(correct) =>
          var outcome := VerifyPin(now, correct);
          if outcome != Accepted {
            return PinRefused(outcome);
          }
        case Password(correct) =>
          if !correct {
            return PasswordIncorrect;
          }
        case NoProof =>
          return ProofMissing;
      }
      pinSet, pinFailedAttempts, pinLockedUntil := true, 0, None;
      r := Changed;
    }

    method VerifyPin(now: int, correct: bool) returns (outcome: Outcome)
      modifies this`pinFailedAttempts, this`pinLockedUntil
      ensures (State(), outcome) == Check(old(State()), now, correct)
    {
      if !pinSet {
        return NotSet;
      }
      if pinLockedUntil.Some? && now < pinLockedUntil.value {
        return Locked(pinLockedUntil.value);
      }
      if correct {
        if 0 < pinFailedAttempts || pinLockedUntil.Some? {
          pinFailedAttempts := 0;
          pinLockedUntil := None;
        }
        return Accepted;
      }
      if demo {
        return DemoIncorrect;
      }
      pinFailedAttempts := pinFailedAttempts + 1;
      if MAX_ATTEMPTS <= pinFailedAttempts {
        var until := now + LOCK_MS;
        pinFailedAttempts := 0;
        pinLockedUntil := Some(until);
        return Locked(until);
      }
      return Incorrect(MAX_ATTEMPTS - pinFailedAttempts);
    }
  }

  /** How someone changing a PIN shows who they are. */
  datatype Proof = CurrentPin(correct: bool) | Password(correct: bool) | NoProof

  datatype PinChange = Changed | PinExists | PasswordIncorrect | ProofMissing | PinRefused(outcome: Outcome)

  /** Setting or changing a PIN starts again with no failed attempts and no lock. */
  function Fresh(s: PinState): PinState {
    s.(isSet := true, failedAttempts := 0, lockedUntil := None)
  }

  // ---------- How many guesses get through ----------

  datatype Attempt = Attempt(at: int, correct: bool)

  /** The PIN was compared, and it was wrong. */
  predicate WrongGuess(s: PinState, a: Attempt) {
    s.isSet && !LockInForce(s, a.at) && !a.correct
  }

  /** The PIN was compared, and it was right. */
  predicate RightGuess(s: PinState, a: Attempt) {
    s.isSet && !LockInForce(s, a.at) && a.correct
  }

  /** A guess is compared exactly when there is a PIN and no lock in force, and then it is wrong or right. */
  lemma GuessesMean(s: PinState, a: Attempt)
    ensures WrongGuess(s, a) <==> s.isSet && (s.lockedUntil.Some? ==> s.lockedUntil.value <= a.at) && !a.correct
    ensures RightGuess(s, a) <==> s.isSet && (s.lockedUntil.Some? ==> s.lockedUntil.value <= a.at) && a.correct
    ensures RightGuess(s, a) <==> Check(s, a.at, a.correct).1 == Accepted
  {
  }

  function After(s: PinState, attempts: seq<Attempt>): PinState {
    if attempts == [] then s
    else
      var last := attempts[|attempts| - 1];
      Check(After(s, attempts[..|attempts| - 1]), last.at, last.correct).0
  }

  function WrongGuesses(s: PinState, attempts: seq<Attempt>): nat {
    if attempts == [] then 0
    else
      var n := |attempts| - 1;
      WrongGuesses(s, attempts[..n]) + if WrongGuess(After(s, attempts[..n]), attempts[n]) then 1 else 0
  }

  /** The attempts come one after the other, from `start` on. */
  predicate Timed(start: int, attempts: seq<Attempt>) {
    && (forall i :: 0 <= i < |attempts| ==> start <= attempts[i].at)
    && (forall i, j :: 0 <= i < j < |attempts| ==> attempts[i].at <= attempts[j].at)
  }

  /** No right guess resets the counter. */
  ghost predicate NeverRight(s: PinState, attempts: seq<Attempt>) {
    forall i :: 0 <= i < |attempts| ==> !RightGuess(After(s, attempts[..i]), attempts[i])
  }

  /** `locks` full rounds of guesses and a part of the next, with the lock of the last round still counted from its end. */
  predicate Progress(s: PinState, start: int, locks: nat, guesses: nat) {
    && s.isSet && !s.demo && s.failedAttempts < MAX_ATTEMPTS
    && guesses == MAX_ATTEMPTS * locks + s.failedAttempts
    && (0 < locks ==> s.lockedUntil.Some? && start + LOCK_MS * locks <= s.lockedUntil.value)
  }

  /** The full half hours in `t`. */
  function Rounds(t: int): int {
    t / LOCK_MS
  }

  lemma RoundsBound(locks: nat, t: int)
    requires LOCK_MS * locks <= t
    ensures locks <= Rounds(t)
  {
  }

  lemma RoundsMonotone(t: int, u: int)
    requires t <= u
    ensures Rounds(t) <= Rounds(u)
  {
  }

  lemma StepProgress(s: PinState, a: Attempt, start: int, locks: nat, guesses: nat) returns (locks': nat)
    requires Progress(s, start, locks, guesses) && start <= a.at && !RightGuess(s, a)
    ensures Progress(Check(s, a.at, a.correct).0, start, locks', guesses + if WrongGuess(s, a) then 1 else 0)
    ensures WrongGuess(s, a) ==> LOCK_MS * locks <= a.at - start && guesses + 1 <= 5 * (locks + 1)
  {
    locks' := if WrongGuess(s, a) && s.failedAttempts + 1 == MAX_ATTEMPTS then locks + 1 else locks;
  }

  lemma NoAttempts(s: PinState)
    ensures After(s, []) == s && WrongGuesses(s, []) == 0
  {
  }

  lemma GuessOnce(s: PinState, attempts: seq<Attempt>, a: Attempt)
    ensures After(s, attempts + [a]) == Check(After(s, attempts), a.at, a.correct).0
    ensures WrongGuesses(s, attempts + [a]) == WrongGuesses(s, attempts) + if WrongGuess(After(s, attempts), a) then 1 else 0
  {
    assert (attempts + [a])[..|attempts|] == attempts;
  }

  lemma PrefixNeverRight(s: PinState, start: int, attempts: seq<Attempt>, n: nat)
    requires n < |attempts| && Timed(start, attempts) && NeverRight(s, attempts)
    ensures Timed(start, attempts[..n]) && NeverRight(s, attempts[..n]) && !RightGuess(After(s, attempts[..n]), attempts[n])
  {
    forall i | 0 <= i < n ensures !RightGuess(After(s, attempts[..n][..i]), attempts[..n][i]) {
      assert attempts[..n][..i] == attempts[..i];
      assert !RightGuess(After(s, attempts[..i]), attempts[i]);
    }
  }

  /** At most five guesses, and five for every full half hour of `t`. */
  predicate Within(guesses: nat, t: int) {
    guesses <= 5 * (Rounds(t) + 1)
  }

  /** One more attempt keeps the guesses within five per full half hour and five. */
  lemma GuessesFit(s: PinState, a: Attempt, start: int, locks: nat, guesses: nat, previous: int)
    requires Progress(s, start, locks, guesses) && start <= a.at && previous <= a.at && !RightGuess(s, a)
    requires guesses == 0 || Within(guesses, previous - start)
    ensures Within(guesses + if WrongGuess(s, a) then 1 else 0, a.at - start)
  {
    var locks' := StepProgress(s, a, start, locks, guesses);
    RoundsMonotone(0, a.at - start);
    RoundsMonotone(previous - start, a.at - start);
    if WrongGuess(s, a) { RoundsBound(locks, a.at - start); }
  }

  lemma StartsEmpty(s: PinState, start: int, attempts: seq<Attempt>, n: nat)
    requires n < |attempts| && Timed(start, attempts)
    ensures n == 0 ==> WrongGuesses(s, attempts[..n]) == 0
    ensures start <= attempts[n].at && (0 < n ==> attempts[n - 1].at <= attempts[n].at)
  {
  }

  lemma NoProgress(s: PinState, start: int)
    requires s.isSet && !s.demo && s.failedAttempts == 0
    ensures Progress(s, start, 0, 0)
  {
  }

  lemma {:induction false} RoundsAreLocked(s: PinState, start: int, attempts: seq<Attempt>) returns (locks: nat)
    requires s.isSet && !s.demo && s.failedAttempts == 0
    requires Timed(start, attempts) && NeverRight(s, attempts)
    ensures Progress(After(s, attempts), start, locks, WrongGuesses(s, attempts))
    ensures attempts != [] ==> Within(WrongGuesses(s, attempts), attempts[|attempts| - 1].at - start)
  {
    hide Progress, Check, WrongGuess, RightGuess, Within, NeverRight, Timed, After, WrongGuesses;
    if attempts == [] {
      NoAttempts(s);
      NoProgress(s, start);
      locks := 0;
    } else {
      var n := |attempts| - 1;
      StartsEmpty(s, start, attempts, n);
      PrefixNeverRight(s, start, attempts, n);
      var earlier := RoundsAreLocked(s, start, attempts[..n]);
      var before, last, guesses := After(s, attempts[..n]), attempts[n], WrongGuesses(s, attempts[..n]);
      locks := StepProgress(before, last, start, earlier, guesses);
      GuessesFit(before, last, start, earlier, guesses, if n == 0 then start else attempts[n - 1].at);
      GuessOnce(s, attempts[..n], last);
      assert attempts == attempts[..n] + [last];
    }
  }

  /**
   * However the attempts are spread, `minutes` minutes let at most five wrong guesses through, plus
   * five for every full half hour.
   */
  lemma {:induction false} GuessesAreBounded(s: PinState, start: int, minutes: nat, attempts: seq<Attempt>)
    requires s.isSet && !s.demo && s.failedAttempts == 0
    requires Timed(start, attempts) && NeverRight(s, attempts)
    requires forall i :: 0 <= i < |attempts| ==> attempts[i].at <= start + minutes * 60_000
    ensures WrongGuesses(s, attempts) <= 5 * (minutes / 30 + 1)
  {
    var locks := RoundsAreLocked(s, start, attempts);
    if attempts != [] {
      WithinMinutes(WrongGuesses(s, attempts), attempts[|attempts| - 1].at - start, minutes);
    }
    hide Progress, After, NeverRight, Within;
  }

  lemma WithinMinutes(guesses: nat, t: int, minutes: nat)
    requires Within(guesses, t) && t <= minutes * 60_000
    ensures guesses <= 5 * (minutes / 30 + 1)
  {
    RoundsMonotone(t, minutes * 60_000);
    MinutesToRounds(minutes);
    hide Rounds;
  }

  lemma MinutesToRounds(minutes: nat)
    ensures Rounds(minutes * 60_000) == minutes / 30
  {
    var q, r := minutes / 30, minutes % 30;
    assert minutes * 60_000 == q * LOCK_MS + r * 60_000;
    assert 0 <= r * 60_000 < LOCK_MS;
  }

  // ---------- The bound is reached ----------

  /** Five wrong guesses at the start of each of the first `rounds` half hours. */
  function FiveAt(t: int): seq<Attempt> {
    seq(5, _ => Attempt(t, false))
  }

  /** When the half hour after so many others starts. */
  function RoundStart(start: int, rounds: nat): int {
    start + rounds * LOCK_MS
  }

  function Greedy(start: int, rounds: nat): seq<Attempt> {
    if rounds == 0 then [] else Greedy(start, rounds - 1) + FiveAt(RoundStart(start, rounds - 1))
  }

  lemma {:induction false} AfterConcat(s: PinState, a: seq<Attempt>, b: seq<Attempt>)
    ensures After(s, a + b) == After(After(s, a), b)
    ensures WrongGuesses(s, a + b) == WrongGuesses(s, a) + WrongGuesses(After(s, a), b)
  {
    if b == [] {
      assert a + b == a;
    } else {
      var n := |b| - 1;
      assert (a + b)[..|a + b| - 1] == a + b[..n];
      AfterConcat(s, a, b[..n]);
    }
  }

  lemma OneRound(s: PinState, t: int)
    requires s.isSet && !s.demo && s.failedAttempts == 0 && !LockInForce(s, t)
    ensures var five := FiveAt(t);
      && After(s, five) == s.(lockedUntil := Some(t + LOCK_MS))
      && WrongGuesses(s, five) == 5
  {
    var a := Attempt(t, false);
    assert s.(failedAttempts := 0) == s;
    GuessOnce(s, [], a);
    GuessOnce(s, [a], a);
    GuessOnce(s, [a, a], a);
    GuessOnce(s, [a, a, a], a);
    GuessOnce(s, [a, a, a, a], a);
    assert FiveAt(t) == [a, a, a, a] + [a];
    assert [a, a, a, a] == [a, a, a] + [a] && [a, a, a] == [a, a] + [a] && [a, a] == [a] + [a] && [a] == [] + [a];
    NoAttempts(s);
    FiveGuesses(s, a);
    hide After, WrongGuesses, Check;
  }

  lemma FiveGuesses(s: PinState, a: Attempt)
    requires s.isSet && !s.demo && s.failedAttempts == 0 && !LockInForce(s, a.at) && !a.correct
    ensures WrongGuess(s, a) && Check(s, a.at, false).0 == s.(failedAttempts := 1)
    ensures forall n: nat :: n < 4 ==> WrongGuess(s.(failedAttempts := n), a) && Check(s.(failedAttempts := n), a.at, false).0 == s.(failedAttempts := n + 1)
    ensures WrongGuess(s.(failedAttempts := 4), a) && Check(s.(failedAttempts := 4), a.at, false).0 == s.(lockedUntil := Some(a.at + LOCK_MS))
  {
  }

  /** The bound is exact: for every number of half hours there is a run that reaches it. */
  lemma {:induction false} BoundIsReached(s: PinState, start: int, rounds: nat)
    requires s.isSet && !s.demo && s.failedAttempts == 0 && s.lockedUntil.None?
    ensures var attempts := Greedy(start, rounds);
      && WrongGuesses(s, attempts) == 5 * rounds
      && After(s, attempts) == s.(lockedUntil := if rounds == 0 then None else Some(RoundStart(start, rounds)))
      && (forall i :: 0 <= i < |attempts| ==> start <= attempts[i].at < RoundStart(start, rounds) && !attempts[i].correct)
      && Timed(start, attempts)
  {
    if 0 < rounds {
      hide After, WrongGuesses, LOCK_MS, Timed, FiveAt, RoundStart;
      var earlier, t := Greedy(start, rounds - 1), RoundStart(start, rounds - 1);
      BoundIsReached(s, start, rounds - 1);
      RoundsFollow(start, rounds - 1);
      AfterARound(s, earlier, t);
      GreedyTimes(start, earlier, t);
    }
  }

  lemma AfterARound(s: PinState, earlier: seq<Attempt>, t: int)
    requires s.isSet && !s.demo && s.failedAttempts == 0 && s.lockedUntil.None?
    requires After(s, earlier) == s || After(s, earlier) == s.(lockedUntil := Some(t))
    ensures After(s, earlier + FiveAt(t)) == s.(lockedUntil := Some(t + LOCK_MS))
    ensures WrongGuesses(s, earlier + FiveAt(t)) == WrongGuesses(s, earlier) + 5
  {
    hide After, WrongGuesses, FiveAt;
    OneRound(After(s, earlier), t);
    AfterConcat(s, earlier, FiveAt(t));
  }

  lemma RoundsFollow(start: int, rounds: nat)
    ensures RoundStart(start, rounds + 1) == RoundStart(start, rounds) + LOCK_MS && start <= RoundStart(start, rounds)
  {
  }

  lemma GreedyTimes(start: int, earlier: seq<Attempt>, t: int)
    requires Timed(start, earlier) && (forall i :: 0 <= i < |earlier| ==> start <= earlier[i].at < t && !earlier[i].correct) && start <= t
    ensures var attempts := earlier + FiveAt(t);
      && Timed(start, attempts)
      && forall i :: 0 <= i < |attempts| ==> start <= attempts[i].at < t + LOCK_MS && !attempts[i].correct
  {
    hide LOCK_MS;
    LockIsPositive();
  }

  lemma LockIsPositive()
    ensures 0 < LOCK_MS
  {
  }
}
