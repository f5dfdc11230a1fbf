/**
 The fixed-window counters around `verify_integrity`: one counts attestations per platform, the
 other counts failed ones and locks the identity out. INCR and the EXPIRE of the first hit are one
 step. The state is that of one application and identity.
 */
module IntegrityLimits {
  import opened Timeline
  import opened Wrappers

  const RATE_LIMIT_WINDOW_SECONDS: nat := 3600

  /** A Redis counter with the second at which it disappears, or no such key. */
  datatype Counter = Absent | Counter(count: nat, expireAt: nat)

  function Count(c: Counter, now: nat): nat {
    if c.Counter? && now < c.expireAt then c.count else 0
  }

  /** INCR, and EXPIRE when the new value is 1. */
  function Hit(c: Counter, now: nat): (hit: Counter)
    ensures hit.Counter?
  {
    var count := Count(c, now) + 1;
    Counter(count, if count == 1 then now + RATE_LIMIT_WINDOW_SECONDS else c.expireAt)
  }

  datatype Refusal = LockedOut | Unavailable | PlatformDisabled | AttestationError | Unauthorized | TooManyAttempts

  /** What the platform verifier reports: an error, or whether score and device are good enough. */
  datatype Attestation = Trusted | Untrusted | Failed

  /** How the lockout check reads the failure counter: the GET may fail, or there may be no connection. */
  datatype Read = Answers | GetFails | NoConnection

  datatype Request = Request(now: nat, platform: string, lockoutRead: Read, allowed: bool, unauthenticated: bool,
                             attestation: Attestation)

  datatype State = State(failed: Counter, attempts: map<string, Counter>)

  function Attempts(s: State, platform: string): Counter {
    if platform in s.attempts then s.attempts[platform] else Absent
  }

  /** The failures the lockout check sees; a GET that fails counts as none. */
  function SeenFailures(c: Counter, read: Read, now: nat): nat {
    if read.Answers? then Count(c, now) else 0
  }

  /** What follows the lockout check. */
  function Judge(s: State, r: Request, maxFailures: nat, maxAttempts: nat): (State, Result<string, Refusal>) {
    if !r.allowed then (s, Err(PlatformDisabled))
    else if r.unauthenticated then (s, Ok(r.platform))
    else match r.attestation
      case Failed => (s, Err(AttestationError))
      case Untrusted =>
        var c := Hit(s.failed, r.now);
        (s.(failed := c), Err(if c.count >= maxFailures then LockedOut else Unauthorized))
      case Trusted =>
        var c := Hit(Attempts(s, r.platform), r.now);
        (s.(attempts := s.attempts[r.platform := c]),
         if c.count > maxAttempts then Err(TooManyAttempts) else Ok(r.platform))
  }

  /** One `verify_integrity` call: the new counters and the verdict. */
  function Verify(s: State, r: Request, maxFailures: nat, maxAttempts: nat): (State, Result<string, Refusal>) {
    if r.lockoutRead.NoConnection? then (s, Err(Unavailable))
    else if SeenFailures(s.failed, r.lockoutRead, r.now) >= maxFailures then (s, Err(LockedOut))
    else Judge(s, r, maxFailures, maxAttempts)
  }

  class IntegrityService {
    var failed: Counter
    var attempts: map<string, Counter>

    constructor ()
      ensures Counters() == State(Absent, map[])
    {
      failed, attempts := Absent, map[];
    }

    function Counters(): State
      reads this
    {
      State(failed, attempts)
    }

    method CheckIntegrityRateLimit(platform: string, maxAttemptsPerHour: nat, now: nat) returns (ok: bool)
      modifies this`attempts
      ensures attempts == old(attempts)[platform := Hit(old(Attempts(Counters(), platform)), now)]
      ensures ok <==> attempts[platform].count <= maxAttemptsPerHour
    {
      var c := Hit(Attempts(Counters(), platform), now);
      attempts := attempts[platform := c];
      ok := c.count <= maxAttemptsPerHour;
    }

    method TrackFailedIntegrity(maxFailures: nat, now: nat) returns (ok: bool)
      modifies this`failed
      ensures failed == Hit(old(failed), now)
      ensures ok <==> failed.count < maxFailures
    {
      failed := Hit(failed, now);
      ok := failed.count < maxFailures;
    }

    method CheckClientLockout(maxFailures: nat, read: Read, now: nat) returns (r: Result<(), Refusal>)
      ensures r.Ok? <==> !read.NoConnection? && SeenFailures(failed, read, now) < maxFailures
      ensures r.Err? ==> r.error == if read.NoConnection? then Unavailable else LockedOut
    {
      if read == NoConnection {
        return Err(Unavailable);
      }
      var count := 0;
      if read == Answers && failed.Counter? && now < failed.expireAt {
        count := failed.count;
      }
      r := if count >= maxFailures then Err(LockedOut) else Ok(());
    }

    method VerifyIntegrity(r: Request, maxFailures: nat, maxAttempts: nat) returns (verdict: Result<string, Refusal>)
      modifies this
      ensures (Counters(), verdict) == Verify(old(Counters()), r, maxFailures, maxAttempts)
    {
      var lockout := CheckClientLockout(maxFailures, r.lockoutRead, r.now);
      if lockout.Err? {
        return Err(lockout.error);
      }
      if !r.allowed {
        return Err(PlatformDisabled);
      }
      if r.unauthenticated {
        return Ok(r.platform);
      }
      match r.attestation
      case Failed =>
        return Err(AttestationError);
      case Untrusted =>
        var belowLimit := TrackFailedIntegrity(maxFailures, r.now);
        return Err(if belowLimit then Unauthorized else LockedOut);
      case Trusted =>
        var ok := CheckIntegrityRateLimit(r.platform, maxAttempts, r.now);
        return if ok then Ok(r.platform) else Err(TooManyAttempts);
    }
  }

  // ---------------------------------------------------------------- runs of the attempt limit

  /** The attempt counter of one platform after some trusted requests, and the admitted ones. */
  datatype Attempted = Attempted(c: Counter, admitted: seq<nat>)

  function Attempt(a: Attempted, now: nat, max: nat): Attempted {
    var c := Hit(a.c, now);
    Attempted(c, if c.count <= max then a.admitted + [now] else a.admitted)
  }

  function AfterAttempts(times: seq<nat>, max: nat): Attempted {
    if times == [] then Attempted(Absent, [])
    else Attempt(AfterAttempts(times[..|times| - 1], max), times[|times| - 1], max)
  }

  predicate PassesLockout(s: State, r: Request, maxFailures: nat) {
    !r.lockoutRead.NoConnection? && SeenFailures(s.failed, r.lockoutRead, r.now) < maxFailures
  }

  /** `Attempt` is what a trusted request does to the counter of its platform. */
  lemma TrustedIsAttempt(s: State, r: Request, maxFailures: nat, maxAttempts: nat, log: seq<nat>)
    requires PassesLockout(s, r, maxFailures) && r.allowed && !r.unauthenticated && r.attestation.Trusted?
    ensures var (s', v) := Verify(s, r, maxFailures, maxAttempts);
      var a := Attempt(Attempted(Attempts(s, r.platform), log), r.now, maxAttempts);
      && Attempts(s', r.platform) == a.c
      && s'.failed == s.failed
      && (forall p :: p != r.platform ==> Attempts(s', p) == Attempts(s, p))
      && a.admitted == (if v.Ok? then log + [r.now] else log)
  {
  }

  /**
   The verdict on a request that passes the lockout check: a platform that is not allowed is refused, the
   unauthenticated mode accepts without a proof, an attestation that fails to be made is an error, a trusted one is
   accepted while its platform has attempts left. The first three, and they alone, count nothing.
   */
  lemma VerdictOf(s: State, r: Request, maxFailures: nat, maxAttempts: nat)
    requires PassesLockout(s, r, maxFailures)
    ensures var (s', v) := Verify(s, r, maxFailures, maxAttempts);
      && (!r.allowed ==> v.Err? && v.error.PlatformDisabled?)
      && (r.allowed && !r.unauthenticated && r.attestation.Failed? ==> v.Err? && v.error.AttestationError?)
      && (r.allowed && !r.unauthenticated && r.attestation.Trusted? && v.Err? ==> v.error.TooManyAttempts?)
      && (v.Ok? <==> r.allowed && (r.unauthenticated ||
                       (r.attestation.Trusted? && Count(Attempts(s, r.platform), r.now) < maxAttempts)))
      && (v.Ok? ==> v.value == r.platform)
      && (s' == s <==> !r.allowed || r.unauthenticated || r.attestation.Failed?)
  {
    var (s', _) := Verify(s, r, maxFailures, maxAttempts);
    if r.allowed && !r.unauthenticated && r.attestation.Trusted? {
      assert r.platform in s'.attempts && s'.attempts[r.platform] == Hit(Attempts(s, r.platform), r.now);
    }
  }

  /**
   What a log of admissions knows of the window that began at `start` and has counted `count` hits
   by `last`, and of the 3600 seconds before it.
   */
  ghost predicate Windowed(log: seq<nat>, start: int, count: nat, last: int, max: nat) {
    && 1 <= count && 0 <= start <= last
    && Within(log, -1, last)
    && CountIn(log, start + RATE_LIMIT_WINDOW_SECONDS - 1, last) == 0
    && CountIn(log, start - 1, last) <= Min(count, max)
    && (max > 0 ==> CountIn(log, start, last) < Min(count, max))
    && (max > 0 ==> CountIn(log, start - RATE_LIMIT_WINDOW_SECONDS, start - 1) < max)
    && (max == 0 ==> log == [])
  }

  ghost predicate AttemptInv(a: Attempted, last: nat, max: nat) {
    if a.c.Absent? then a.admitted == []
    else Windowed(a.admitted, a.c.expireAt - RATE_LIMIT_WINDOW_SECONDS, a.c.count, last, max)
  }

  function Extended(log: seq<nat>, now: nat, count: nat, max: nat): seq<nat> {
    if count <= max then log + [now] else log
  }

  lemma FirstWindow(now: nat, max: nat)
    ensures Windowed(Extended([], now, 1, max), now, 1, now, max)
  {
    var W := RATE_LIMIT_WINDOW_SECONDS;
    CountAppend([], now, now + W - 1, now);
    CountAppend([], now, now - 1, now);
    CountAppend([], now, now, now);
    CountAppend([], now, now - W, now - 1);
  }

  lemma NextWindow(log: seq<nat>, start: int, count: nat, last: int, now: nat, max: nat)
    requires Windowed(log, start, count, last, max) && last <= now
    requires start + RATE_LIMIT_WINDOW_SECONDS <= now
    ensures Windowed(Extended(log, now, 1, max), now, 1, now, max)
  {
    var W := RATE_LIMIT_WINDOW_SECONDS;
    CountNone(log, now + W - 1, now);
    CountNone(log, now, now);
    CountWidens(log, now - 1, now, start + W - 1, last);
    CountWidens(log, now - W, now - 1, start, last);
    CountAppend(log, now, now + W - 1, now);
    CountAppend(log, now, now - 1, now);
    CountAppend(log, now, now, now);
    CountAppend(log, now, now - W, now - 1);
  }

  lemma SameWindow(log: seq<nat>, start: int, count: nat, last: int, now: nat, max: nat)
    requires Windowed(log, start, count, last, max) && last <= now
    requires now < start + RATE_LIMIT_WINDOW_SECONDS
    ensures Windowed(Extended(log, now, count + 1, max), start, count + 1, now, max)
  {
    var W := RATE_LIMIT_WINDOW_SECONDS;
    CountLater(log, start + W - 1, last, now);
    CountLater(log, start - 1, last, now);
    CountLater(log, start, last, now);
    CountAppend(log, now, start + W - 1, now);
    CountAppend(log, now, start - 1, now);
    CountAppend(log, now, start, now);
    CountAppend(log, now, start - W, start - 1);
  }

  lemma LaterAttempt(a: Attempted, last: nat, now: nat, max: nat)
    requires AttemptInv(a, last, max) && last <= now && a.c.Counter? && now < a.c.expireAt
    ensures AttemptInv(Attempt(a, now, max), now, max)
  {
    SameWindow(a.admitted, a.c.expireAt - RATE_LIMIT_WINDOW_SECONDS, a.c.count, last, now, max);
    assert Hit(a.c, now) == Counter(a.c.count + 1, a.c.expireAt);
    assert Attempt(a, now, max) == Attempted(Hit(a.c, now), Extended(a.admitted, now, a.c.count + 1, max));
  }

  lemma AttemptKeepsInv(a: Attempted, last: nat, now: nat, max: nat)
    requires AttemptInv(a, last, max) && last <= now
    ensures AttemptInv(Attempt(a, now, max), now, max)
  {
    if a.c.Absent? {
      FirstWindow(now, max);
    } else if a.c.expireAt <= now {
      NextWindow(a.admitted, a.c.expireAt - RATE_LIMIT_WINDOW_SECONDS, a.c.count, last, now, max);
      assert Attempt(a, now, max) == Attempted(Hit(a.c, now), Extended(a.admitted, now, 1, max));
    } else {
      LaterAttempt(a, last, now, max);
    }
  }

  lemma {:induction false} AttemptsInv(times: seq<nat>, max: nat)
    requires Clock(times, 0)
    ensures AttemptInv(AfterAttempts(times, max), Latest(times, 0), max)
  {
    if times != [] {
      var rest := times[..|times| - 1];
      AttemptsInv(rest, max);
      AttemptKeepsInv(AfterAttempts(rest, max), Latest(rest, 0), times[|rest|], max);
    }
  }

  function TwoWindows(max: nat): nat {
    if max == 0 then 0 else 2 * max - 1
  }

  lemma WindowedBound(log: seq<nat>, start: int, count: nat, last: int, max: nat, t: int)
    requires Windowed(log, start, count, last, max)
    requires t <= last < start + RATE_LIMIT_WINDOW_SECONDS && last < t + RATE_LIMIT_WINDOW_SECONDS
    ensures CountIn(log, t - 1, t + RATE_LIMIT_WINDOW_SECONDS - 1) <= TwoWindows(max)
  {
    var W := RATE_LIMIT_WINDOW_SECONDS;
    CountWidens(log, t - 1, t + W - 1, start - W, last);
    CountSplit(log, start - W, start - 1, last);
  }

  lemma AttemptBound(a: Attempted, now: nat, max: nat, t: int)
    requires AttemptInv(Attempt(a, now, max), now, max)
    requires t <= now < t + RATE_LIMIT_WINDOW_SECONDS && (a.c.Counter? ==> a.c.count >= 1)
    ensures CountIn(Attempt(a, now, max).admitted, t - 1, t + RATE_LIMIT_WINDOW_SECONDS - 1) <= TwoWindows(max)
  {
    var a' := Attempt(a, now, max);
    WindowedBound(a'.admitted, a'.c.expireAt - RATE_LIMIT_WINDOW_SECONDS, a'.c.count, now, max, t);
  }

  /**
   Any interval [t, t + 3600) holds at most 2 max - 1 admitted attempts: when it meets two windows,
   it has missed the attempt that opened the first one.
   */
  lemma {:induction false} AttemptsAreBounded(times: seq<nat>, max: nat, t: int)
    requires Clock(times, 0)
    ensures CountIn(AfterAttempts(times, max).admitted, t - 1, t + 3599) <= if max == 0 then 0 else 2 * max - 1
  {
    if times != [] {
      var rest, now := times[..|times| - 1], times[|times| - 1];
      var a := AfterAttempts(rest, max);
      AttemptsInv(rest, max);
      AttemptsInv(times, max);
      if t <= now < t + RATE_LIMIT_WINDOW_SECONDS {
        AttemptBound(a, now, max, t);
      } else {
        AttemptsAreBounded(rest, max, t);
        CountAppend(a.admitted, now, t - 1, t + RATE_LIMIT_WINDOW_SECONDS - 1);
      }
    }
  }

  // ---------------------------------------------------------------- the bound is reached

  /** One attempt opens a window, the rest of it comes in its last second, the next one at once. */
  function Burst(max: nat): seq<nat>
    requires max >= 1
  {
    FirstBurst(max) + [RATE_LIMIT_WINDOW_SECONDS] + Repeat<nat>(RATE_LIMIT_WINDOW_SECONDS, max - 1)
  }

  function FirstBurst(max: nat): seq<nat>
    requires max >= 1
  {
    [0] + Repeat<nat>(RATE_LIMIT_WINDOW_SECONDS - 1, max - 1)
  }

  lemma OneMore(times: seq<nat>, t: nat, max: nat, c: Counter)
    requires Clock(times, 0) && Latest(times, 0) <= t
    requires Hit(AfterAttempts(times, max).c, t) == c && c.count <= max
    ensures Clock(times + [t], 0) && Latest(times + [t], 0) == t
    ensures AfterAttempts(times + [t], max) == Attempted(c, AfterAttempts(times, max).admitted + [t])
  {
    assert (times + [t])[..|times|] == times;
  }

  /** `n` more attempts at `t`, all in the window that ends at `expireAt` and within the maximum. */
  lemma {:induction false} AllAdmitted(times: seq<nat>, n: nat, t: nat, max: nat, count: nat, expireAt: nat)
    requires Clock(times, 0) && Latest(times, 0) <= t < expireAt
    requires AfterAttempts(times, max).c == Counter(count, expireAt) && 1 <= count && count + n <= max
    ensures Clock(times + Repeat<nat>(t, n), 0) && Latest(times + Repeat<nat>(t, n), 0) <= t
    ensures AfterAttempts(times + Repeat<nat>(t, n), max)
         == Attempted(Counter(count + n, expireAt), AfterAttempts(times, max).admitted + Repeat<nat>(t, n))
    decreases n
  {
    var log := AfterAttempts(times, max).admitted;
    if n == 0 {
      assert times + Repeat<nat>(t, 0) == times && log + Repeat<nat>(t, 0) == log;
    } else {
      OneMore(times, t, max, Counter(count + 1, expireAt));
      AllAdmitted(times + [t], n - 1, t, max, count + 1, expireAt);
      assert times + [t] + Repeat<nat>(t, n - 1) == times + Repeat<nat>(t, n);
      assert log + [t] + Repeat<nat>(t, n - 1) == log + Repeat<nat>(t, n);
    }
  }

  lemma {:induction false} CountTimes(before: seq<nat>, n: nat, t: nat, lo: int, hi: int)
    ensures CountIn(before + Repeat<nat>(t, n), lo, hi) == CountIn(before, lo, hi) + if lo < t <= hi then n else 0
  {
    if n == 0 {
      assert before + Repeat<nat>(t, 0) == before;
    } else {
      CountTimes(before, n - 1, t, lo, hi);
      assert before + Repeat<nat>(t, n) == before + Repeat<nat>(t, n - 1) + [t];
      CountAppend(before + Repeat<nat>(t, n - 1), t, lo, hi);
    }
  }

  lemma FirstWindowFull(max: nat)
    requires max >= 1
    ensures var first := FirstBurst(max);
      && Clock(first, 0) && Latest(first, 0) < RATE_LIMIT_WINDOW_SECONDS
      && AfterAttempts(first, max) == Attempted(Counter(max, RATE_LIMIT_WINDOW_SECONDS), first)
  {
    assert [0][..0] == [];
    AllAdmitted([0], max - 1, RATE_LIMIT_WINDOW_SECONDS - 1, max, 1, RATE_LIMIT_WINDOW_SECONDS);
  }

  lemma BurstAdmitted(max: nat)
    requires max >= 1
    ensures Clock(Burst(max), 0)
    ensures AfterAttempts(Burst(max), max).admitted == Burst(max)
  {
    var W := RATE_LIMIT_WINDOW_SECONDS;
    FirstWindowFull(max);
    OneMore(FirstBurst(max), W, max, Counter(1, W + W));
    AllAdmitted(FirstBurst(max) + [W], max - 1, W, max, 1, W + W);
  }

  /** The bound of AttemptsAreBounded is attained for every positive maximum. */
  lemma BoundIsReached(max: nat)
    requires max >= 1
    ensures Clock(Burst(max), 0)
    ensures CountIn(AfterAttempts(Burst(max), max).admitted, 1 - 1, 1 + 3599) == 2 * max - 1
  {
    var W := RATE_LIMIT_WINDOW_SECONDS;
    BurstAdmitted(max);
    CountTimes(FirstBurst(max) + [W], max - 1, W, 0, W);
    CountAppend(FirstBurst(max), W, 0, W);
    CountTimes([0], max - 1, W - 1, 0, W);
    CountAppend([], 0, 0, W);
    assert [] + [0] == [0];
  }

  // ---------------------------------------------------------------- runs of the lockout

  /** The counters after some requests, with the times of the failures tracked and of the reads that failed. */
  datatype Tracked = Tracked(s: State, failures: seq<nat>, failedReads: seq<nat>)

  predicate Tracks(s: State, r: Request, maxFailures: nat) {
    PassesLockout(s, r, maxFailures) && r.allowed && !r.unauthenticated && r.attestation.Untrusted?
  }

  function Track(h: Tracked, r: Request, maxFailures: nat, maxAttempts: nat): Tracked {
    Tracked(Verify(h.s, r, maxFailures, maxAttempts).0,
            if Tracks(h.s, r, maxFailures) then h.failures + [r.now] else h.failures,
            if r.lockoutRead.GetFails? then h.failedReads + [r.now] else h.failedReads)
  }

  function After(rs: seq<Request>, maxFailures: nat, maxAttempts: nat): Tracked {
    if rs == [] then Tracked(State(Absent, map[]), [], [])
    else Track(After(rs[..|rs| - 1], maxFailures, maxAttempts), rs[|rs| - 1], maxFailures, maxAttempts)
  }

  function Last(rs: seq<Request>): nat {
    if rs == [] then 0 else rs[|rs| - 1].now
  }

  predicate InOrder(rs: seq<Request>) {
    rs == [] || (InOrder(rs[..|rs| - 1]) && Last(rs[..|rs| - 1]) <= rs[|rs| - 1].now)
  }

  /** The counter holds the failures of its window, and the window began with one of them. */
  ghost predicate FailInv(c: Counter, failures: seq<nat>, last: int) {
    && Within(failures, -1, last)
    && (c.Absent? ==> failures == [])
    && (c.Counter? ==>
          && 1 <= c.count
          && 0 <= c.expireAt - RATE_LIMIT_WINDOW_SECONDS <= last
          && CountIn(failures, c.expireAt - 1, last) == 0
          && c.count == CountIn(failures, c.expireAt - RATE_LIMIT_WINDOW_SECONDS - 1, last))
  }

  lemma TrackedFailure(c: Counter, failures: seq<nat>, last: int, now: nat)
    requires FailInv(c, failures, last) && last <= now
    ensures FailInv(Hit(c, now), failures + [now], now)
  {
    var W := RATE_LIMIT_WINDOW_SECONDS;
    if c.Counter? && now < c.expireAt {
      CountLater(failures, c.expireAt - 1, last, now);
      CountLater(failures, c.expireAt - W - 1, last, now);
      CountAppend(failures, now, c.expireAt - 1, now);
      CountAppend(failures, now, c.expireAt - W - 1, now);
    } else {
      CountNone(failures, now + W - 1, now);
      if c.Counter? {
        CountLater(failures, c.expireAt - 1, last, now);
        CountWidens(failures, now - 1, now, c.expireAt - 1, now);
      } else {
        CountWidens(failures, now - 1, now, now, now);
        CountNone(failures, now, now);
      }
      CountAppend(failures, now, now + W - 1, now);
      CountAppend(failures, now, now - 1, now);
    }
  }

  lemma QuietTime(c: Counter, failures: seq<nat>, last: int, now: nat)
    requires FailInv(c, failures, last) && last <= now
    ensures FailInv(c, failures, now)
  {
    if c.Counter? {
      CountLater(failures, c.expireAt - 1, last, now);
      CountLater(failures, c.expireAt - RATE_LIMIT_WINDOW_SECONDS - 1, last, now);
    }
  }

  /** In every run the failure counter is the number of failures tracked since its window opened. */
  lemma {:induction false} FailuresAreCounted(rs: seq<Request>, maxFailures: nat, maxAttempts: nat)
    requires InOrder(rs)
    ensures var h := After(rs, maxFailures, maxAttempts);
      FailInv(h.s.failed, h.failures, Last(rs))
  {
    if rs != [] {
      var rest, r := rs[..|rs| - 1], rs[|rs| - 1];
      var h := After(rest, maxFailures, maxAttempts);
      FailuresAreCounted(rest, maxFailures, maxAttempts);
      if Tracks(h.s, r, maxFailures) {
        TrackedFailure(h.s.failed, h.failures, Last(rest), r.now);
      } else {
        QuietTime(h.s.failed, h.failures, Last(rest), r.now);
      }
    }
  }

  /** The failed lockout reads of the counter's window. */
  function Slips(h: Tracked, last: int): nat
    requires h.s.failed.Counter?
  {
    CountIn(h.failedReads, h.s.failed.expireAt - RATE_LIMIT_WINDOW_SECONDS - 1, last)
  }

  lemma StepKeepsBound(h: Tracked, r: Request, last: int, maxFailures: nat, maxAttempts: nat)
    requires h.s.failed.Counter? ==>
               && h.s.failed.count <= maxFailures + Slips(h, last)
               && h.s.failed.expireAt <= last + RATE_LIMIT_WINDOW_SECONDS
    requires Within(h.failedReads, -1, last) && last <= r.now && maxFailures >= 1
    ensures var h' := Track(h, r, maxFailures, maxAttempts);
      && (h'.s.failed.Counter? ==> h'.s.failed.count <= maxFailures + Slips(h', r.now))
      && Within(h'.failedReads, -1, r.now)
  {
    var h' := Track(h, r, maxFailures, maxAttempts);
    if h.s.failed.Counter? {
      CountLater(h.failedReads, h.s.failed.expireAt - RATE_LIMIT_WINDOW_SECONDS - 1, last, r.now);
      CountAppend(h.failedReads, r.now, h.s.failed.expireAt - RATE_LIMIT_WINDOW_SECONDS - 1, r.now);
    }
  }

  /** The counter passes the maximum by no more than the lockout reads that failed in its window. */
  lemma {:induction false} FailuresAreBounded(rs: seq<Request>, maxFailures: nat, maxAttempts: nat)
    requires InOrder(rs) && maxFailures >= 1
    ensures var h := After(rs, maxFailures, maxAttempts);
      && Within(h.failedReads, -1, Last(rs))
      && (h.s.failed.Counter? ==> h.s.failed.count <= maxFailures + Slips(h, Last(rs)))
  {
    if rs != [] {
      var rest := rs[..|rs| - 1];
      FailuresAreBounded(rest, maxFailures, maxAttempts);
      FailuresAreCounted(rest, maxFailures, maxAttempts);
      StepKeepsBound(After(rest, maxFailures, maxAttempts), rs[|rs| - 1], Last(rest), maxFailures, maxAttempts);
    }
  }

  /**
   The answer to a tracked failure: a lockout exactly when its window holds the maximum, or more after failed
   lockout reads.
   */
  ghost predicate AnsweredByWindow(s: State, r: Request, failures: seq<nat>, maxFailures: nat, maxAttempts: nat) {
    var (s', verdict) := Verify(s, r, maxFailures, maxAttempts);
    && s'.failed.Counter?
    && var inWindow := CountIn(failures, s'.failed.expireAt - RATE_LIMIT_WINDOW_SECONDS - 1, r.now);
       && verdict.Err? && verdict.error == (if inWindow >= maxFailures then LockedOut else Unauthorized)
       && s'.failed.count == inWindow
       && (r.lockoutRead.Answers? ==> inWindow <= maxFailures)
  }

  /** The failure that fills its window is the first one answered with a lockout. */
  lemma LockoutStartsAtTheLimit(rs: seq<Request>, r: Request, maxFailures: nat, maxAttempts: nat)
    requires InOrder(rs + [r]) && Tracks(After(rs, maxFailures, maxAttempts).s, r, maxFailures)
    ensures AnsweredByWindow(After(rs, maxFailures, maxAttempts).s, r,
                             After(rs + [r], maxFailures, maxAttempts).failures, maxFailures, maxAttempts)
  {
    AfterSnoc(rs, r, maxFailures, maxAttempts);
    FailuresAreCounted(rs + [r], maxFailures, maxAttempts);
    LockoutOf(After(rs, maxFailures, maxAttempts), r, After(rs + [r], maxFailures, maxAttempts), maxFailures,
              maxAttempts);
  }

  lemma LockoutOf(h: Tracked, r: Request, h': Tracked, maxFailures: nat, maxAttempts: nat)
    requires Tracks(h.s, r, maxFailures) && h' == Track(h, r, maxFailures, maxAttempts)
    requires FailInv(h'.s.failed, h'.failures, r.now)
    ensures AnsweredByWindow(h.s, r, h'.failures, maxFailures, maxAttempts)
  {
    TrackVerdict(h, r, maxFailures, maxAttempts);
  }

  lemma AfterSnoc(rs: seq<Request>, r: Request, maxFailures: nat, maxAttempts: nat)
    ensures After(rs + [r], maxFailures, maxAttempts) ==
            Track(After(rs, maxFailures, maxAttempts), r, maxFailures, maxAttempts)
    ensures Last(rs + [r]) == r.now
  {
    assert (rs + [r])[..|rs|] == rs;
  }

  lemma TrackVerdict(h: Tracked, r: Request, maxFailures: nat, maxAttempts: nat)
    requires Tracks(h.s, r, maxFailures)
    ensures var (s', verdict) := Verify(h.s, r, maxFailures, maxAttempts);
      && s'.failed == Hit(h.s.failed, r.now)
      && verdict.Err? && verdict.error == (if s'.failed.count >= maxFailures then LockedOut else Unauthorized)
      && (r.lockoutRead.Answers? ==> s'.failed.count <= maxFailures)
  {
  }

  /** The counter holds the maximum or more, until `expireAt`. */
  predicate Locked(s: State, maxFailures: nat, expireAt: nat) {
    s.failed.Counter? && s.failed.count >= maxFailures && s.failed.expireAt == expireAt
  }

  /** Whatever requests come before it expires, those that slip past the check included, a lock stays. */
  lemma {:induction false} LockHolds(rs: seq<Request>, all: seq<Request>, maxFailures: nat, maxAttempts: nat,
                                     expireAt: nat)
    requires maxFailures >= 1 && rs <= all && Locked(After(rs, maxFailures, maxAttempts).s, maxFailures, expireAt)
    requires forall i :: |rs| <= i < |all| ==> all[i].now < expireAt
    ensures Locked(After(all, maxFailures, maxAttempts).s, maxFailures, expireAt)
    decreases |all|
  {
    if |all| == |rs| {
      assert all == rs;
    } else {
      LockHolds(rs, all[..|all| - 1], maxFailures, maxAttempts, expireAt);
    }
  }

  /**
   Once the failures of a window reach the maximum, and until the counter expires, a request is turned
   away by the lockout check, changing nothing, if and only if the read of the counter does not fail: a
   failed GET, which the code takes for no failures, lets it through to be judged as if there were no lock.
   At or after the expiry the check turns nobody away who is connected.
   */
  lemma RefusedWhileLockedIff(rs: seq<Request>, all: seq<Request>, r: Request, maxFailures: nat, maxAttempts: nat,
                              expireAt: nat)
    requires maxFailures >= 1 && rs <= all && Locked(After(rs, maxFailures, maxAttempts).s, maxFailures, expireAt)
    requires forall i :: |rs| <= i < |all| ==> all[i].now < expireAt
    ensures var s := After(all, maxFailures, maxAttempts).s;
      && (PassesLockout(s, r, maxFailures) <==>
            r.lockoutRead.GetFails? || (r.lockoutRead.Answers? && r.now >= expireAt))
      && (!PassesLockout(s, r, maxFailures) ==>
            Verify(s, r, maxFailures, maxAttempts) ==
            (s, Err(if r.lockoutRead.NoConnection? then Unavailable else LockedOut)))
      && (PassesLockout(s, r, maxFailures) ==>
            Verify(s, r, maxFailures, maxAttempts) == Judge(s, r, maxFailures, maxAttempts))
  {
    LockHolds(rs, all, maxFailures, maxAttempts, expireAt);
  }

  function FirstFailure(platform: string): Request {
    Request(0, platform, Answers, true, false, Untrusted)
  }

  /** With one failure allowed the first one locks. */
  lemma FirstFailureLocks(platform: string, maxAttempts: nat)
    ensures After([FirstFailure(platform)], 1, maxAttempts).s == LockedAtOnce()
    ensures Locked(LockedAtOnce(), 1, RATE_LIMIT_WINDOW_SECONDS)
  {
    AfterSnoc([], FirstFailure(platform), 1, maxAttempts);
    assert [] + [FirstFailure(platform)] == [FirstFailure(platform)];
  }

  function LockedAtOnce(): State {
    State(Counter(1, RATE_LIMIT_WINDOW_SECONDS), map[])
  }

  /** A second later: refused if the counter is read, and accepted or counted past the maximum if not. */
  lemma FailedReadLetsThrough(platform: string, read: Read, attestation: Attestation, maxAttempts: nat)
    requires maxAttempts >= 1 && !read.NoConnection?
    ensures var r := Request(1, platform, read, true, false, attestation);
      var (s', verdict) := Verify(After([FirstFailure(platform)], 1, maxAttempts).s, r, 1, maxAttempts);
      && (read.Answers? ==> verdict.Err? && verdict.error == LockedOut && s' == LockedAtOnce())
      && (read.GetFails? && attestation.Trusted? ==> verdict.Ok?)
      && (read.GetFails? && attestation.Untrusted? ==> s'.failed == Counter(2, RATE_LIMIT_WINDOW_SECONDS))
  {
    FirstFailureLocks(platform, maxAttempts);
  }
}
