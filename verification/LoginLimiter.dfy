/** The failed-login throttle: per address, per account and over all sources. */
module LoginLimiter {
  import opened SlidingWindow

  const FREE_FAILURES: nat := 3
  const BACKOFF_BASE_SEC: real := 1.0
  const BACKOFF_FACTOR: real := 2.0
  const MAX_BACKOFF_SEC: real := 300.0
  const LOCKOUT_FAILURES: nat := 12
  const LOCKOUT_SEC: real := 1800.0
  const GLOBAL_MAX_FAILURES: nat := 50
  const GLOBAL_WINDOW_SEC: real := 300.0

  datatype Key = Ip(host: string) | Account

  datatype State = State(
    fails: map<Key, nat>,
    nextAllowed: map<Key, real>,
    globalFails: seq<real>,
    globalNext: real)

  function Power(b: real, n: nat): real {
    if n == 0 then 1.0 else b * Power(b, n - 1)
  }

  function Min(x: real, y: real): real { if x < y then x else y }
  function Max(x: real, y: real): real { if x < y then y else x }

  /** The wait armed by the n-th consecutive failure. */
  function Delay(n: nat): real {
    if n > LOCKOUT_FAILURES then LOCKOUT_SEC
    else if n > FREE_FAILURES then
      Min(BACKOFF_BASE_SEC * Power(BACKOFF_FACTOR, n - FREE_FAILURES - 1), MAX_BACKOFF_SEC)
    else 0.0
  }

  function FailsOf(s: State, k: Key): nat { if k in s.fails then s.fails[k] else 0 }
  function NextOf(s: State, k: Key): real { if k in s.nextAllowed then s.nextAllowed[k] else 0.0 }

  function RetryAfter(s: State, k: Key, now: real): real {
    if now < s.globalNext then s.globalNext - now
    else if now < NextOf(s, k) then NextOf(s, k) - now
    else 0.0
  }

  function Recent(ts: seq<real>, now: real): seq<real> {
    Within(ts, GLOBAL_WINDOW_SEC, now)
  }

  function Failed(s: State, k: Key, now: real): State {
    var n := FailsOf(s, k) + 1;
    var all := Recent(s.globalFails, now) + [now];
    State(s.fails[k := n],
          if n > FREE_FAILURES then s.nextAllowed[k := now + Delay(n)] else s.nextAllowed,
          all,
          if |all| >= GLOBAL_MAX_FAILURES then now + LOCKOUT_SEC else s.globalNext)
  }

  function Succeeded(s: State, k: Key): State {
    s.(fails := s.fails - {k}, nextAllowed := s.nextAllowed - {k})
  }

  /** One call of login: checked at `at`, and its outcome recorded at `done`. */
  datatype Attempt = Attempt(host: string, at: real, done: real, valid: bool)

  predicate IsProcessed(s: State, a: Attempt) {
    Max(RetryAfter(s, Ip(a.host), a.at), RetryAfter(s, Account, a.at)) <= 0.0
  }

  function LoggedIn(s: State, a: Attempt): State {
    if IsProcessed(s, a) && a.valid then Succeeded(Succeeded(s, Ip(a.host)), Account)
    else Failed(Failed(s, Ip(a.host), a.done), Account, a.done)
  }

  // ---- The object ------------------------------------------------------------------

  datatype Outcome = Throttled | WrongPassword | Accepted

  class Limiter {
    var fails: map<Key, nat>
    var nextAllowed: map<Key, real>
    var globalFails: seq<real>
    var globalNext: real

    constructor ()
      ensures Now() == State(map[], map[], [], 0.0)
    {
      fails, nextAllowed, globalFails, globalNext := map[], map[], [], 0.0;
    }

    ghost function Now(): State
      reads this
    {
      State(fails, nextAllowed, globalFails, globalNext)
    }

    method Check(key: Key, now: real) returns (retry: real)
      ensures retry == RetryAfter(Now(), key, now)
    {
      if now < globalNext {
        return globalNext - now;
      }
      var next := if key in nextAllowed then nextAllowed[key] else 0.0;
      if now < next {
        return next - now;
      }
      retry := 0.0;
    }

    method Fail(key: Key, now: real)
      modifies this
      ensures Now() == Failed(old(Now()), key, now)
    {
      ArmKey(key, now);
      ArmBreaker(now);
    }

    method ArmKey(key: Key, now: real)
      modifies this`fails, this`nextAllowed
      ensures var n := FailsOf(old(Now()), key) + 1;
              && fails == old(fails)[key := n]
              && nextAllowed == (if n > FREE_FAILURES then old(nextAllowed)[key := now + Delay(n)] else old(nextAllowed))
    {
      var n: nat := (if key in fails then fails[key] else 0) + 1;
      fails := fails[key := n];
      if n > LOCKOUT_FAILURES {
        nextAllowed := nextAllowed[key := now + LOCKOUT_SEC];
      } else if n > FREE_FAILURES {
        var delay := BACKOFF_BASE_SEC * Power(BACKOFF_FACTOR, n - FREE_FAILURES - 1);
        nextAllowed := nextAllowed[key := now + Min(delay, MAX_BACKOFF_SEC)];
      }
    }

    method ArmBreaker(now: real)
      modifies this`globalFails, this`globalNext
      ensures globalFails == Recent(old(globalFails), now) + [now]
      ensures globalNext == if |globalFails| >= GLOBAL_MAX_FAILURES then now + LOCKOUT_SEC else old(globalNext)
    {
      var kept := RecentFailures(now);
      globalFails := kept + [now];
      if |globalFails| >= GLOBAL_MAX_FAILURES {
        globalNext := now + LOCKOUT_SEC;
      }
    }

    method RecentFailures(now: real) returns (kept: seq<real>)
      ensures kept == Recent(globalFails, now)
    {
      kept := [];
      for i := 0 to |globalFails|
        invariant kept == Recent(globalFails[..i], now)
      {
        assert globalFails[..i + 1][..i] == globalFails[..i];
        if now - globalFails[i] <= GLOBAL_WINDOW_SEC {
          kept := kept + [globalFails[i]];
        }
      }
      assert globalFails[..|globalFails|] == globalFails;
    }

    method Success(key: Key)
      modifies this
      ensures Now() == Succeeded(old(Now()), key)
    {
      fails := fails - {key};
      nextAllowed := nextAllowed - {key};
    }

    method Login(a: Attempt) returns (outcome: Outcome)
      modifies this
      ensures Now() == LoggedIn(old(Now()), a)
      ensures outcome == if !IsProcessed(old(Now()), a) then Throttled
                         else if a.valid then Accepted else WrongPassword
    {
      var byIp := Check(Ip(a.host), a.at);
      var byAccount := Check(Account, a.at);
      if Max(byIp, byAccount) > 0.0 {
        Fail(Ip(a.host), a.done);
        Fail(Account, a.done);
        outcome := Throttled;
      } else if !a.valid {
        Fail(Ip(a.host), a.done);
        Fail(Account, a.done);
        outcome := WrongPassword;
      } else {
        Success(Ip(a.host));
        Success(Account);
        outcome := Accepted;
      }
    }
  }

  // ---- Every run without a success --------------------------------------------------------

  const FRESH: State := State(map[], map[], [], 0.0)

  function After(attempts: seq<Attempt>): State {
    if attempts == [] then FRESH
    else LoggedIn(After(attempts[..|attempts| - 1]), attempts[|attempts| - 1])
  }

  /** When the attempts that reached the password check were made. */
  function Guesses(attempts: seq<Attempt>): seq<real> {
    if attempts == [] then []
    else
      var l := |attempts| - 1;
      Guesses(attempts[..l]) + if IsProcessed(After(attempts[..l]), attempts[l]) then [attempts[l].at] else []
  }

  function LastDone(attempts: seq<Attempt>): real {
    if attempts == [] then 0.0 else attempts[|attempts| - 1].done
  }

  /** Attempts are handled one at a time, from any addresses, and those that reach
      the password check have the wrong password. */
  predicate Sequential(attempts: seq<Attempt>) {
    attempts != [] ==>
      var l := |attempts| - 1;
      && Sequential(attempts[..l])
      && LastDone(attempts[..l]) <= attempts[l].at <= attempts[l].done
      && (IsProcessed(After(attempts[..l]), attempts[l]) ==> !attempts[l].valid)
  }

  lemma DelayMonotone(a: nat, b: nat)
    requires a <= b
    ensures 0.0 <= Delay(a) <= Delay(b)
    decreases b - a
  {
    if a < b {
      DelayMonotone(a + 1, b);
      DelayStep(a);
    } else {
      DelayNonNegative(a);
    }
  }

  lemma PowerPositive(n: nat)
    ensures Power(BACKOFF_FACTOR, n) >= 1.0
  {
  }

  lemma DelayNonNegative(n: nat)
    ensures Delay(n) >= 0.0
  {
    if n > FREE_FAILURES {
      PowerPositive(n - FREE_FAILURES - 1);
    }
  }

  lemma DelayStep(n: nat)
    ensures 0.0 <= Delay(n) <= Delay(n + 1)
  {
    DelayNonNegative(n);
    if FREE_FAILURES < n {
      PowerPositive(n - FREE_FAILURES - 1);
      assert Power(BACKOFF_FACTOR, n - FREE_FAILURES) == 2.0 * Power(BACKOFF_FACTOR, n - FREE_FAILURES - 1);
    } else {
      DelayNonNegative(n + 1);
    }
  }

  /** Enough failures inside the window, from whatever sources, and nobody is let
      near the password check for half an hour. */
  lemma BreakerStopsEverySource(s: State, k: Key, now: real, a: Attempt)
    requires |Recent(s.globalFails, now)| + 1 >= GLOBAL_MAX_FAILURES
    requires now <= a.at < now + LOCKOUT_SEC
    ensures !IsProcessed(Failed(s, k, now), a)
  {
    assert RetryAfter(Failed(s, k, now), Account, a.at) > 0.0;
  }

  // ---- What a success resets ----------------------------------------------------------------

  predicate BreakerClear(s: State) {
    s.globalFails == [] && s.globalNext == 0.0
  }

  /** Two failures recorded at one moment. */
  lemma TwoFailures(s: State, host: string, now: real)
    ensures var s' := Failed(Failed(s, Ip(host), now), Account, now);
            && s'.globalFails == Recent(s.globalFails, now) + [now] + [now]
            && s'.globalNext == (if |Recent(s.globalFails, now)| + 2 >= GLOBAL_MAX_FAILURES
                                 then now + LOCKOUT_SEC else s.globalNext)
  {
    var all := Recent(s.globalFails, now) + [now];
    WithinKeeps(s.globalFails, GLOBAL_WINDOW_SEC, now);
    WithinKeeps(all, GLOBAL_WINDOW_SEC, now);
  }

  /** A success forgets the two keys and not the breaker: the breaker is clear
      afterwards if and only if it was clear before, and one wrong password later the
      next attempt is throttled if and only if the failures from before the success,
      still inside the window, fill the breaker with it. */
  lemma SuccessLeavesTheBreaker(s: State, good: Attempt, bad: Attempt, next: Attempt)
    requires good.valid && IsProcessed(s, good) && !bad.valid
    requires bad.host == good.host && next.host == good.host
    requires 0.0 <= good.at <= bad.at <= bad.done <= next.at < bad.done + LOCKOUT_SEC
    ensures BreakerClear(LoggedIn(s, good)) <==> BreakerClear(s)
    ensures IsProcessed(LoggedIn(LoggedIn(s, good), bad), next) <==>
            |Recent(s.globalFails, bad.done)| + 2 < GLOBAL_MAX_FAILURES
  {
    assert RetryAfter(s, Account, good.at) <= 0.0;
    var s1 := LoggedIn(s, good);
    assert FailsOf(s1, Ip(good.host)) == 0 && FailsOf(s1, Account) == 0;
    assert NextOf(s1, Ip(good.host)) == 0.0 && NextOf(s1, Account) == 0.0;
    TwoFailures(s1, bad.host, bad.done);
  }

  /** Such a state: 48 failures in the window, from anywhere. With every bucket reset
      the third attempt would be free. */
  lemma ThrottledRightAfterSuccess(now: real)
    requires now >= 0.0
    ensures var s := State(map[], map[], seq(48, _ => now), 0.0);
            var good, bad := Attempt("a", now, now, true), Attempt("a", now, now, false);
            IsProcessed(s, good) && !IsProcessed(LoggedIn(LoggedIn(s, good), bad), good)
  {
    var s := State(map[], map[], seq(48, _ => now), 0.0);
    var good, bad := Attempt("a", now, now, true), Attempt("a", now, now, false);
    WithinKeeps(s.globalFails, GLOBAL_WINDOW_SEC, now);
    SuccessLeavesTheBreaker(s, good, bad, good);
  }

  /** The account counts every attempt, and its next-allowed time is always one
      full wait after the last one, so a rejected attempt only pushes it out. */
  lemma {:induction false} AccountState(attempts: seq<Attempt>)
    requires Sequential(attempts)
    ensures FailsOf(After(attempts), Account) == |attempts|
    ensures |attempts| > FREE_FAILURES ==>
            NextOf(After(attempts), Account) == LastDone(attempts) + Delay(|attempts|)
  {
    if attempts != [] {
      var l := |attempts| - 1;
      AccountState(attempts[..l]);
      AccountAfterFailure(After(attempts[..l]), attempts[l]);
    }
  }

  lemma {:induction false} GuessesAreAttempts(attempts: seq<Attempt>)
    requires Sequential(attempts)
    ensures |Guesses(attempts)| <= |attempts|
    ensures Guesses(attempts) != [] ==> Guesses(attempts)[|Guesses(attempts)| - 1] <= LastDone(attempts)
  {
    if attempts != [] {
      GuessesAreAttempts(attempts[..|attempts| - 1]);
    }
  }

  lemma AccountAfterFailure(s: State, a: Attempt)
    requires IsProcessed(s, a) ==> !a.valid
    ensures var n := FailsOf(s, Account) + 1;
            && FailsOf(LoggedIn(s, a), Account) == n
            && NextOf(LoggedIn(s, a), Account) == if n > FREE_FAILURES then a.done + Delay(n) else NextOf(s, Account)
  {
    var s1 := Failed(s, Ip(a.host), a.done);
    assert FailsOf(s1, Account) == FailsOf(s, Account) && NextOf(s1, Account) == NextOf(s, Account);
  }

  /** What the account's next-allowed time is after `n` failures, the last at `last`. */
  predicate Waits(s: State, n: nat, last: real) {
    FailsOf(s, Account) == n && NextOf(s, Account) == if n > FREE_FAILURES then last + Delay(n) else 0.0
  }

  lemma WaitNeverShrinks(s: State, a: Attempt, n: nat, last: real)
    requires Waits(s, n, last) && 0.0 <= last <= a.done && (IsProcessed(s, a) ==> !a.valid)
    ensures NextOf(LoggedIn(s, a), Account) >= NextOf(s, Account)
  {
    AccountAfterFailure(s, a);
    DelayMonotone(n, n + 1);
  }

  /** Rejected or not, an attempt never brings the account's next-allowed time forward. */
  lemma NextAllowedNeverDecreases(attempts: seq<Attempt>)
    requires attempts != [] && Sequential(attempts)
    ensures NextOf(After(attempts), Account) >= NextOf(After(attempts[..|attempts| - 1]), Account)
  {
    var l := |attempts| - 1;
    AccountState(attempts[..l]);
    NothingArmedYet(attempts[..l]);
    WaitNeverShrinks(After(attempts[..l]), attempts[l], l, LastDone(attempts[..l]));
  }

  lemma {:induction false} NothingArmedYet(attempts: seq<Attempt>)
    requires Sequential(attempts)
    ensures |attempts| <= FREE_FAILURES ==> NextOf(After(attempts), Account) == 0.0
    ensures LastDone(attempts) >= 0.0
  {
    if attempts != [] {
      NothingArmedYet(attempts[..|attempts| - 1]);
      AccountState(attempts[..|attempts| - 1]);
    }
  }

  lemma ProcessedIsAllowed(s: State, a: Attempt)
    requires IsProcessed(s, a)
    ensures a.at >= NextOf(s, Account)
  {
    assert RetryAfter(s, Account, a.at) <= 0.0;
  }

  /** Between the k-th guess and the next one lies the wait of k failures. */
  predicate Spaced(gs: seq<real>) {
    forall k :: 1 <= k < |gs| ==> gs[k] - gs[k - 1] >= Delay(k)
  }

  lemma SpacedSnoc(gs: seq<real>, t: real)
    requires Spaced(gs) && (gs != [] ==> t - gs[|gs| - 1] >= Delay(|gs|))
    ensures Spaced(gs + [t])
  {
  }

  lemma {:induction false} GuessesAreSpaced(attempts: seq<Attempt>)
    requires Sequential(attempts)
    ensures Spaced(Guesses(attempts))
  {
    if attempts != [] {
      var l := |attempts| - 1;
      var earlier := attempts[..l];
      GuessesAreSpaced(earlier);
      if IsProcessed(After(earlier), attempts[l]) {
        if Guesses(earlier) != [] {
          LastGuessIsSpaced(earlier, attempts[l]);
        }
        SpacedSnoc(Guesses(earlier), attempts[l].at);
      }
    }
  }

  lemma LastGuessIsSpaced(earlier: seq<Attempt>, a: Attempt)
    requires Sequential(earlier) && LastDone(earlier) <= a.at
    requires IsProcessed(After(earlier), a) && Guesses(earlier) != []
    ensures var gs := Guesses(earlier);
            a.at - gs[|gs| - 1] >= Delay(|gs|)
  {
    AccountState(earlier);
    GuessesAreAttempts(earlier);
    DelayMonotone(|Guesses(earlier)|, |earlier|);
    ProcessedIsAllowed(After(earlier), a);
  }

  /** The waits of the first n failures added up. */
  function Ladder(n: nat): real {
    if n == 0 then 0.0 else Ladder(n - 1) + Delay(n)
  }

  lemma LadderOf12()
    ensures Ladder(12) == 511.0
  {
    assert Power(BACKOFF_FACTOR, 0) == 1.0 && Power(BACKOFF_FACTOR, 1) == 2.0 && Power(BACKOFF_FACTOR, 2) == 4.0;
    assert Power(BACKOFF_FACTOR, 3) == 8.0 && Power(BACKOFF_FACTOR, 4) == 16.0 && Power(BACKOFF_FACTOR, 5) == 32.0;
    assert Power(BACKOFF_FACTOR, 6) == 64.0 && Power(BACKOFF_FACTOR, 7) == 128.0 && Power(BACKOFF_FACTOR, 8) == 256.0;
    assert Ladder(4) == 1.0;
    assert Ladder(8) == 31.0;
  }

  lemma {:induction false} SpacedClimbs(gs: seq<real>, k: nat)
    requires Spaced(gs) && k < |gs|
    ensures gs[k] - gs[0] >= Ladder(k)
  {
    if k > 0 {
      SpacedClimbs(gs, k - 1);
    }
  }

  /** Across all source addresses, the first 13 guesses take at least 511 seconds. */
  lemma ThirteenGuessesTake511Seconds(attempts: seq<Attempt>)
    requires Sequential(attempts) && |Guesses(attempts)| >= 13
    ensures Guesses(attempts)[12] - Guesses(attempts)[0] >= 511.0
  {
    GuessesAreSpaced(attempts);
    SpacedClimbs(Guesses(attempts), 12);
    LadderOf12();
  }

  lemma {:induction false} SpacedIsRare(gs: seq<real>, i: nat, j: nat)
    requires Spaced(gs) && i <= j < |gs|
    ensures var count, span := j - i + 1, gs[j] - gs[i];
            span >= 0.0 && count as real <= 13.0 + span / LOCKOUT_SEC
            && (i >= 12 ==> (count - 1) as real <= span / LOCKOUT_SEC)
    decreases j
  {
    if i < j {
      SpacedIsRare(gs, i, j - 1);
      DelayNonNegative(j);
      assert j > LOCKOUT_FAILURES ==> Delay(j) == LOCKOUT_SEC;
    }
  }

  /** No T seconds ever hold more than 13 + T/1800 guesses. */
  lemma GuessRateIsBounded(attempts: seq<Attempt>, i: nat, j: nat, seconds: real)
    requires Sequential(attempts) && i <= j < |Guesses(attempts)|
    requires Guesses(attempts)[j] - Guesses(attempts)[i] <= seconds
    ensures (j - i + 1) as real <= 13.0 + seconds / LOCKOUT_SEC
  {
    GuessesAreSpaced(attempts);
    SpacedIsRare(Guesses(attempts), i, j);
  }
}
