/** Per-account login lockout: one atomic UPDATE per failed attempt, a duration that
doubles per lockout up to a cap, and a reset on success. */
module Lockout {
  import opened Options

  /** Durations and clocks share a unit; only their sum matters. */
  datatype Config = Config(threshold: nat, base: nat, max: nat)

  predicate Sane(cfg: Config) { cfg.threshold > 0 && cfg.base > 0 && cfg.max > 0 }

  /** The defaults, in seconds. */
  const DEFAULTS := Config(10, 15 * 60, 24 * 3600)

  datatype Lock = Lock(attempts: nat, lockouts: nat, until: Option<int>)

  const UNLOCKED := Lock(0, 0, None)

  function Pow2(k: nat): (p: nat)
    ensures p > 0
  {
    if k == 0 then 1 else 2 * Pow2(k - 1)
  }

  /** LEAST(base * power(2, lockout_count), max). */
  function Duration(cfg: Config, k: nat): (d: nat) {
    if cfg.base * Pow2(k) < cfg.max then cfg.base * Pow2(k) else cfg.max
  }

  lemma DurationIsPositive(cfg: Config, k: nat)
    requires Sane(cfg)
    ensures Duration(cfg, k) > 0
  {
    Positive(cfg.base, Pow2(k));
  }

  lemma Positive(a: nat, b: nat)
    requires a > 0 && b > 0
    ensures a * b > 0
  {
  }

  /** Service.Login's gate: locked_until is after now. */
  predicate Locked(s: Lock, now: int) { s.until.Some? && s.until.value > now }

  // ---- The two statements and the login branches around them

  predicate Escalates(s: Lock, now: int, cfg: Config) { !Locked(s, now) && s.attempts + 1 >= cfg.threshold }

  function Record(s: Lock, now: int, cfg: Config): Lock {
    Lock(s.attempts + 1,
         if Escalates(s, now, cfg) then s.lockouts + 1 else s.lockouts,
         if Escalates(s, now, cfg) then Some(now + Duration(cfg, s.lockouts)) else s.until)
  }

  /** A correct password resets the row, if there is anything to reset. */
  function Cleared(s: Lock): Lock { if s.attempts > 0 || s.lockouts > 0 then UNLOCKED else s }

  datatype LoginOutcome = InvalidCredentials | Authenticated

  /** The answer to a password that matches or not. */
  function Verdict(s: Lock, now: int, matches: bool): LoginOutcome {
    if Locked(s, now) || !matches then InvalidCredentials else Authenticated
  }

  class UserRow {
    var failedLoginAttempts: nat
    var lockoutCount: nat
    var lockedUntil: Option<int>

    constructor ()
      ensures State() == UNLOCKED
    {
      failedLoginAttempts, lockoutCount, lockedUntil := 0, 0, None;
    }

    function State(): Lock
      reads this
    {
      Lock(failedLoginAttempts, lockoutCount, lockedUntil)
    }

    /** The CASE expressions read the row as it was before the UPDATE. */
    method RecordFailedLoginAttempt(now: int, cfg: Config)
      modifies this
      ensures State() == Record(old(State()), now, cfg)
    {
      var unlocked := lockedUntil.None? || lockedUntil.value <= now;
      var reached := failedLoginAttempts + 1 >= cfg.threshold;
      var prior := lockoutCount;
      failedLoginAttempts := failedLoginAttempts + 1;
      if unlocked && reached {
        lockoutCount := prior + 1;
        lockedUntil := Some(now + Duration(cfg, prior));
      }
    }

    method ResetLoginLockout()
      modifies this
      ensures State() == UNLOCKED
    {
      failedLoginAttempts, lockoutCount, lockedUntil := 0, 0, None;
    }

    /** Login on an existing account with a password, up to the point where the device is resolved. */
    method CheckPassword(now: int, matches: bool, cfg: Config) returns (outcome: LoginOutcome)
      modifies this
      ensures outcome == Verdict(old(State()), now, matches)
      ensures outcome == Authenticated <==>
                matches && (old(lockedUntil).None? || old(lockedUntil).value <= now)
      ensures State() == if Locked(old(State()), now) then old(State())
                         else if matches then Cleared(old(State()))
                         else Record(old(State()), now, cfg)
    {
      if lockedUntil.Some? && lockedUntil.value > now {
        return InvalidCredentials;
      }
      if !matches {
        RecordFailedLoginAttempt(now, cfg);
        return InvalidCredentials;
      }
      if failedLoginAttempts > 0 || lockoutCount > 0 {
        ResetLoginLockout();
      }
      outcome := Authenticated;
    }
  }

  // ---- Serial runs of wrong passwords

  /** `evaluated` are the times at which a wrong password was actually checked. */
  datatype Guessing = Guessing(lock: Lock, evaluated: seq<int>)

  function Guess(g: Guessing, now: int, cfg: Config): Guessing {
    if Locked(g.lock, now) then g else Guessing(Record(g.lock, now, cfg), g.evaluated + [now])
  }

  function Guesses(times: seq<int>, cfg: Config): Guessing {
    if times == [] then Guessing(UNLOCKED, []) else Guess(Guesses(times[..|times| - 1], cfg), times[|times| - 1], cfg)
  }

  /** The locks that have to run out before guess number threshold + k. */
  function Waits(cfg: Config, k: nat): nat {
    if k == 0 then 0 else Waits(cfg, k - 1) + Duration(cfg, k - 1)
  }

  /** In any serial run of wrong passwords, whatever the clock does: each evaluated guess past the threshold is one
      more lockout, and it comes at least the sum of all earlier lock durations after guess number threshold.
      Guesses during a lock change nothing and are not evaluated. */
  lemma {:induction false} GuessingIsThrottled(times: seq<int>, cfg: Config)
    requires Sane(cfg)
    ensures var g, thr := Guesses(times, cfg), cfg.threshold;
            var n := |g.evaluated|;
            g.lock.attempts == n
            && (n < thr ==> g.lock.lockouts == 0 && g.lock.until == None)
            && (n >= thr ==>
                  g.lock.lockouts == n - thr + 1
                  && g.lock.until == Some(g.evaluated[n - 1] + Duration(cfg, n - thr))
                  && g.evaluated[n - 1] >= g.evaluated[thr - 1] + Waits(cfg, n - thr))
  {
    if times != [] {
      GuessingIsThrottled(times[..|times| - 1], cfg);
    }
  }

  // ---- Locks end

  /** When the lock set by the last evaluated guess ends; before the threshold there is none. */
  predicate LockIsOver(times: seq<int>, now: int, cfg: Config)
    requires Sane(cfg)
  {
    var evaluated := Guesses(times, cfg).evaluated;
    var n := |evaluated|;
    n < cfg.threshold || now >= evaluated[n - 1] + Duration(cfg, n - cfg.threshold)
  }

  /** A further wrong password is evaluated if and only if the last lock is over, and otherwise changes nothing. */
  lemma GuessIsEvaluatedIff(times: seq<int>, now: int, cfg: Config)
    requires Sane(cfg)
    ensures var g, next := Guesses(times, cfg), Guesses(times + [now], cfg);
            if LockIsOver(times, now, cfg) then next.evaluated == g.evaluated + [now] else next == g
  {
    var g := Guesses(times, cfg);
    assert Guesses(times + [now], cfg) == Guess(g, now, cfg) by {
      assert (times + [now])[..|times|] == times;
    }
    assert Locked(g.lock, now) <==> !LockIsOver(times, now, cfg) by {
      GuessingIsThrottled(times, cfg);
    }
  }

  /** After any wrong passwords the right one authenticates if and only if the last lock is over; a wrong one never. */
  lemma RightPasswordAuthenticatesIff(times: seq<int>, now: int, cfg: Config)
    requires Sane(cfg)
    ensures Verdict(Guesses(times, cfg).lock, now, true) == Authenticated <==> LockIsOver(times, now, cfg)
    ensures Verdict(Guesses(times, cfg).lock, now, false) == InvalidCredentials
  {
    GuessingIsThrottled(times, cfg);
  }

  /** A success leaves nothing behind: the account is as new. */
  lemma SuccessForgives(times: seq<int>, cfg: Config)
    requires Sane(cfg)
    ensures Cleared(Guesses(times, cfg).lock) == UNLOCKED
  {
    GuessingIsThrottled(times, cfg);
  }

  /** The fastest guesser: `threshold` guesses at once, then one at the end of each lock. */
  function Eager(cfg: Config, start: int, k: nat): seq<int> {
    if k == 0 then Repeat(start, cfg.threshold) else Eager(cfg, start, k - 1) + [start + Waits(cfg, k)]
  }

  function Repeat(t: int, n: nat): (r: seq<int>)
    ensures |r| == n && forall i :: 0 <= i < n ==> r[i] == t
  {
    if n == 0 then [] else Repeat(t, n - 1) + [t]
  }

  lemma {:induction false} FirstGuesses(cfg: Config, start: int, n: nat)
    requires Sane(cfg) && n <= cfg.threshold
    ensures Guesses(Repeat(start, n), cfg).evaluated == Repeat(start, n)
  {
    if n > 0 {
      FirstGuesses(cfg, start, n - 1);
      GuessIsEvaluatedIff(Repeat(start, n - 1), start, cfg);
    }
  }

  lemma {:induction false} EagerIs(cfg: Config, start: int, k: nat)
    requires Sane(cfg)
    ensures var times, thr := Eager(cfg, start, k), cfg.threshold;
            |times| == thr + k && times[thr - 1] == start && times[thr + k - 1] == start + Waits(cfg, k)
  {
    if k > 0 { EagerIs(cfg, start, k - 1); }
  }

  predicate AllEvaluated(times: seq<int>, cfg: Config) { Guesses(times, cfg).evaluated == times }

  lemma EagerStep(cfg: Config, start: int, k: nat)
    requires Sane(cfg) && k > 0 && AllEvaluated(Eager(cfg, start, k - 1), cfg)
    ensures AllEvaluated(Eager(cfg, start, k), cfg)
  {
    EagerIs(cfg, start, k - 1);
    AtTheEndOfTheLock(Eager(cfg, start, k - 1), start, k, cfg);
  }

  lemma {:induction false} EagerIsEvaluated(cfg: Config, start: int, k: nat)
    requires Sane(cfg)
    ensures AllEvaluated(Eager(cfg, start, k), cfg)
  {
    if k == 0 {
      FirstGuesses(cfg, start, cfg.threshold);
    } else {
      EagerIsEvaluated(cfg, start, k - 1);
      EagerStep(cfg, start, k);
    }
  }

  /** All its guesses are evaluated, so the bound on the pace of guessing is attained. */
  lemma BoundIsAttained(cfg: Config, start: int, k: nat)
    requires Sane(cfg)
    ensures var times, thr := Eager(cfg, start, k), cfg.threshold;
            |times| == thr + k && Guesses(times, cfg).evaluated == times
            && times[thr + k - 1] == times[thr - 1] + Waits(cfg, k) && times[thr - 1] == start
  {
    EagerIs(cfg, start, k);
    EagerIsEvaluated(cfg, start, k);
  }

  /** A guess at the very end of the last lock is evaluated. */
  lemma AtTheEndOfTheLock(times: seq<int>, start: int, k: nat, cfg: Config)
    requires Sane(cfg) && k > 0 && |times| == cfg.threshold + k - 1 && AllEvaluated(times, cfg)
    requires times[|times| - 1] == start + Waits(cfg, k - 1)
    ensures AllEvaluated(times + [start + Waits(cfg, k)], cfg)
  {
    assert LockIsOver(times, start + Waits(cfg, k), cfg);
    GuessIsEvaluatedIff(times, start + Waits(cfg, k), cfg);
  }

  /** While the cap is not reached the waits are geometric: base * (2^k - 1). */
  lemma {:induction false} WaitsBeforeCap(cfg: Config, k: nat)
    requires k > 0 ==> cfg.base * Pow2(k - 1) <= cfg.max
    ensures Waits(cfg, k) == cfg.base * (Pow2(k) - 1)
  {
    if k > 0 {
      if k > 1 { Doubles(cfg.base, Pow2(k - 2)); }
      WaitsBeforeCap(cfg, k - 1);
      var b, p := cfg.base, Pow2(k - 1);
      assert Pow2(k) == 2 * p;
      Geometric(b, p);
    }
  }

  lemma Geometric(b: int, p: int)
    ensures b * (p - 1) + b * p == b * (2 * p - 1)
  {
  }

  lemma Doubles(b: nat, p: nat)
    ensures b * p <= b * (2 * p)
  {
    assert b * (2 * p) == b * p + b * p;
  }

  lemma {:induction false} DurationStaysCapped(cfg: Config, j: nat, k: nat)
    requires cfg.base * Pow2(j) >= cfg.max && j <= k
    ensures Duration(cfg, k) == cfg.max && cfg.base * Pow2(k) >= cfg.max
  {
    if j < k {
      DurationStaysCapped(cfg, j, k - 1);
      Doubles(cfg.base, Pow2(k - 1));
    }
  }

  /** Once the cap is reached every further guess costs the full maximum. */
  lemma {:induction false} WaitsAfterCap(cfg: Config, j: nat, k: nat)
    requires cfg.base * Pow2(j) >= cfg.max && j <= k
    ensures Waits(cfg, k) == Waits(cfg, j) + (k - j) * cfg.max
  {
    if j < k {
      DurationStaysCapped(cfg, j, k - 1);
      WaitsAfterCap(cfg, j, k - 1);
      assert (k - j) * cfg.max == (k - 1 - j) * cfg.max + cfg.max;
    }
  }

  /** With the default settings: 10 free guesses, 7 more in the first 127 quarter hours after that, then one a day. */
  lemma DefaultPace(k: nat)
    ensures DEFAULTS.threshold == 10
    ensures k <= 7 ==> Waits(DEFAULTS, k) == 900 * (Pow2(k) - 1)
    ensures k >= 7 ==> Waits(DEFAULTS, k) == 900 * 127 + (k - 7) * 86400
  {
    assert Pow2(7) == 128 by { assert Pow2(4) == 16; }
    if k <= 7 {
      if k > 0 { PowGrows(k - 1, 6); }
      WaitsBeforeCap(DEFAULTS, k);
    }
    if k >= 7 {
      WaitsBeforeCap(DEFAULTS, 7);
      WaitsAfterCap(DEFAULTS, 7, k);
    }
  }

  lemma {:induction false} PowGrows(i: nat, j: nat)
    requires i <= j
    ensures Pow2(i) <= Pow2(j)
  {
    if i < j { PowGrows(i, j - 1); }
  }

  // ---- Any interleaving of atomic updates

  /** A login reads the row long before its UPDATE runs, so failures may be recorded at any caller clock and in any
      state; a success resets. */
  datatype Update = Failed(now: int) | Reset

  datatype Window = Window(start: int, end: int)

  /** Since the last reset: the lock windows opened so far, and how many failures were recorded inside one. */
  datatype Account = Account(lock: Lock, windows: seq<Window>, overlapping: nat)

  const NEW_ACCOUNT := Account(UNLOCKED, [], 0)

  function Apply(a: Account, u: Update, cfg: Config): Account {
    match u
    case Reset => NEW_ACCOUNT
    case Failed(now) =>
      Account(Record(a.lock, now, cfg),
              if Escalates(a.lock, now, cfg)
              then a.windows + [Window(now, now + Duration(cfg, a.lock.lockouts))]
              else a.windows,
              if Locked(a.lock, now) then a.overlapping + 1 else a.overlapping)
  }

  function ApplyAll(updates: seq<Update>, cfg: Config): Account {
    if updates == [] then NEW_ACCOUNT else Apply(ApplyAll(updates[..|updates| - 1], cfg), updates[|updates| - 1], cfg)
  }

  ghost predicate WindowsFit(a: Account, cfg: Config) {
    a.lock.lockouts == |a.windows|
    && a.lock.until == (if a.windows == [] then None else Some(a.windows[|a.windows| - 1].end))
    && (forall i :: 0 <= i < |a.windows| ==> a.windows[i].end == a.windows[i].start + Duration(cfg, i))
    && (forall i :: 0 <= i < |a.windows| ==> a.windows[i].start < a.windows[i].end)
    && (forall i, j :: 0 <= i < j < |a.windows| ==> a.windows[i].end <= a.windows[j].start)
  }

  function Excess(attempts: nat, threshold: nat): int { if attempts >= threshold then attempts - threshold + 1 else 0 }

  /** Over every interleaving of failures and resets, with arbitrary clocks: lock windows are non-empty, disjoint and
      strictly later one after the other, the i-th lasts min(base * 2^i, max); an account has been locked exactly if
      it has reached the threshold; and every attempt from the threshold on either opened a lockout or fell inside
      one, so the count is as high as the serial bound allows exactly when none did. */
  lemma {:induction false} LockoutsUnderConcurrency(updates: seq<Update>, cfg: Config)
    requires Sane(cfg)
    ensures var a := ApplyAll(updates, cfg);
            WindowsFit(a, cfg)
            && (a.lock.lockouts > 0 <==> a.lock.attempts >= cfg.threshold)
            && a.lock.lockouts + a.overlapping == Excess(a.lock.attempts, cfg.threshold)
            && (a.lock.lockouts == Excess(a.lock.attempts, cfg.threshold) <==> a.overlapping == 0)
  {
    if updates != [] {
      LockoutsUnderConcurrency(updates[..|updates| - 1], cfg);
      var a := ApplyAll(updates[..|updates| - 1], cfg);
      WindowsStayFit(a, updates[|updates| - 1], cfg);
      CountsStayBalanced(a, updates[|updates| - 1], cfg);
    }
  }

  /** From a to b one failure at `now` is recorded: a new window if no last one is still running and the threshold is
      reached, and otherwise none; a failure inside the last window is counted as such. */
  predicate Opens(a: Account, b: Account, now: int, cfg: Config) {
    var over := a.windows == [] || now >= a.windows[|a.windows| - 1].end;
    var reached := a.lock.attempts + 1 >= cfg.threshold;
    b.windows == (if over && reached then a.windows + [Window(now, now + Duration(cfg, |a.windows|))] else a.windows)
    && b.lock.attempts == a.lock.attempts + 1
    && b.overlapping == a.overlapping + (if over then 0 else 1)
  }

  /** A failure opens a new lock window if and only if it makes up the threshold and comes at or after the end of the
      last window; otherwise the windows stay as they are. */
  lemma NewWindowIff(updates: seq<Update>, now: int, cfg: Config)
    requires Sane(cfg)
    ensures Opens(ApplyAll(updates, cfg), ApplyAll(updates + [Failed(now)], cfg), now, cfg)
  {
    LockoutsUnderConcurrency(updates, cfg);
    ApplyOneMore(updates, Failed(now), cfg);
    FailureOpens(ApplyAll(updates, cfg), now, cfg);
  }

  lemma ApplyOneMore(updates: seq<Update>, u: Update, cfg: Config)
    ensures ApplyAll(updates + [u], cfg) == Apply(ApplyAll(updates, cfg), u, cfg)
  {
    assert (updates + [u])[..|updates|] == updates;
  }

  lemma FailureOpens(a: Account, now: int, cfg: Config)
    requires a.lock.lockouts == |a.windows|
    requires a.lock.until == if a.windows == [] then None else Some(a.windows[|a.windows| - 1].end)
    ensures Opens(a, Apply(a, Failed(now), cfg), now, cfg)
  {
    assert Locked(a.lock, now) <==> a.windows != [] && now < a.windows[|a.windows| - 1].end;
  }

  predicate Balanced(a: Account, cfg: Config) {
    (a.lock.lockouts > 0 <==> a.lock.attempts >= cfg.threshold)
    && a.lock.lockouts + a.overlapping == Excess(a.lock.attempts, cfg.threshold)
  }

  lemma CountsStayBalanced(a: Account, u: Update, cfg: Config)
    requires Sane(cfg) && WindowsFit(a, cfg) && Balanced(a, cfg)
    ensures Balanced(Apply(a, u, cfg), cfg)
  {
  }

  lemma WindowsStayFit(a: Account, u: Update, cfg: Config)
    requires Sane(cfg) && WindowsFit(a, cfg)
    ensures WindowsFit(Apply(a, u, cfg), cfg)
  {
    if u.Failed? && Escalates(a.lock, u.now, cfg) {
      DurationIsPositive(cfg, a.lock.lockouts);
      var added, all := Window(u.now, u.now + Duration(cfg, a.lock.lockouts)), Apply(a, u, cfg).windows;
      assert all == a.windows + [added];
      forall i | 0 <= i < |a.windows| ensures a.windows[i].end <= added.start {
        if i < |a.windows| - 1 { assert a.windows[i].end <= a.windows[|a.windows| - 1].start; }
      }
    }
  }
}
