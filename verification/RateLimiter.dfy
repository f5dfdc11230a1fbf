/**
 The sliding-window limiter of `check_rate_limit`: one sorted set per key, pruned, counted and
 extended by one atomic script. The member it adds is the second and a random draw, and one that is
 there already adds nothing. The reference is the log of every admission that added one: a request
 is admitted exactly when fewer than `limit` of these lie in the window that ends now.
 */
module RateLimiter {
  import opened Timeline
  import opened Wrappers

  const EXPIRY_BUFFER: nat := 60

  /** A sorted set: the scores of its members in ascending order, and the second Redis drops it. */
  datatype ZSet = ZSet(scores: seq<nat>, expireAt: nat)

  datatype RateLimitResult =
    RateLimitResult(allowed: bool, limit: int, remaining: int, resetAt: nat, retryAfter: Option<nat>)

  // ---------------------------------------------------------------- sorted-set commands

  /** ZREMRANGEBYSCORE key -inf cut: what is left. */
  function Above(scores: seq<nat>, cut: int): seq<nat> {
    if scores == [] then []
    else Above(scores[..|scores| - 1], cut) + if cut < scores[|scores| - 1] then [scores[|scores| - 1]] else []
  }

  function AtMost(scores: seq<nat>, cut: int): seq<nat> {
    if scores == [] then []
    else AtMost(scores[..|scores| - 1], cut) + if scores[|scores| - 1] <= cut then [scores[|scores| - 1]] else []
  }

  /** ZADD of a member not yet in the set: its score goes after every score that is not larger. */
  function ZAdd(scores: seq<nat>, score: nat): seq<nat> {
    AtMost(scores, score) + [score] + Above(scores, score)
  }

  predicate Ascending(s: seq<nat>) {
    forall i, j :: 0 <= i < j < |s| ==> s[i] <= s[j]
  }

  /** The members a command sees: none once the key has expired. */
  function Visible(z: Option<ZSet>, now: nat): seq<nat> {
    if z.Some? && now < z.value.expireAt then z.value.scores else []
  }

  function WindowStart(now: nat, window: nat): nat {
    if now < window then 0 else now - window
  }

  // ---------------------------------------------------------------- the script

  function Live(z: Option<ZSet>, now: nat, window: nat): seq<nat> {
    Above(Visible(z, now), WindowStart(now, window))
  }

  /** `again` is whether the draw repeats one of this second; the first of a second is always new. */
  function AddMember(live: seq<nat>, now: nat, again: bool): seq<nat> {
    if again && now in live then live else ZAdd(live, now)
  }

  /** The sorted set left by one call and the caller's answer. */
  function Check(z: Option<ZSet>, now: nat, again: bool, limit: int, window: nat): (Option<ZSet>, RateLimitResult) {
    var live := Live(z, now, window);
    if |live| < limit then
      (Some(ZSet(AddMember(live, now, again), now + window + EXPIRY_BUFFER)),
       RateLimitResult(true, limit, limit - |live| - 1, now + window, None))
    else
      var resetAt := if |live| > 0 then live[0] + window else now + window;
      (if live == [] then None else Some(ZSet(live, z.value.expireAt)),
       RateLimitResult(false, limit, 0, resetAt, Some(if resetAt < now then 0 else resetAt - now)))
  }

  class Limiter {
    var sets: map<string, ZSet>

    constructor ()
      ensures sets == map[]
    {
      sets := map[];
    }

    function Stored(key: string): Option<ZSet>
      reads this
    {
      if key in sets then Some(sets[key]) else None
    }

    method CheckRateLimit(key: string, limit: int, window: nat, now: nat, again: bool) returns (r: RateLimitResult)
      modifies this
      ensures (Stored(key), r) == Check(old(Stored(key)), now, again, limit, window)
      ensures forall k :: k != key ==> Stored(k) == old(Stored(k))
    {
      var windowStart := WindowStart(now, window);
      var live := Above(Visible(Stored(key), now), windowStart);
      var count := |live|;
      if count < limit {
        if !again || now !in live {
          live := ZAdd(live, now);
        }
        sets := sets[key := ZSet(live, now + window + EXPIRY_BUFFER)];
        r := RateLimitResult(true, limit, limit - count - 1, now + window, None);
      } else {
        var resetAt := now + window;
        if count > 0 {
          resetAt := live[0] + window;
          sets := sets[key := ZSet(live, sets[key].expireAt)];
        } else {
          sets := sets - {key};
        }
        r := RateLimitResult(false, limit, 0, resetAt,
                             Some(if resetAt < now then 0 else resetAt - now));
      }
    }
  }

  // ---------------------------------------------------------------- runs on one key

  /** A key after some requests, with the times of all admissions so far and of those that added a member. */
  datatype KeyState = KeyState(z: Option<ZSet>, admitted: seq<nat>, counted: seq<nat>)

  /** Whether the request `i` of a run draws a member of its second again. */
  type Draws = nat -> bool

  function Serve(st: KeyState, now: nat, again: bool, limit: int, window: nat): KeyState {
    var (z, r) := Check(st.z, now, again, limit, window);
    var added := r.allowed && !(again && now in Live(st.z, now, window));
    KeyState(z, if r.allowed then st.admitted + [now] else st.admitted,
             if added then st.counted + [now] else st.counted)
  }

  function After(times: seq<nat>, draws: Draws, limit: int, window: nat): KeyState {
    if times == [] then KeyState(None, [], [])
    else
      var n := |times| - 1;
      Serve(After(times[..n], draws, limit, window), times[n], draws(n), limit, window)
  }

  /** The answer to a request at `now` after a run; its own draw does not matter to it. */
  function Answer(times: seq<nat>, draws: Draws, now: nat, limit: int, window: nat): RateLimitResult {
    Check(After(times, draws, limit, window).z, now, false, limit, window).1
  }

  // ---------------------------------------------------------------- lemmas on windows

  lemma {:induction false} AboveWithin(s: seq<nat>, cut: int, lo: int, hi: int)
    requires Within(s, lo, hi)
    ensures Within(Above(s, cut), cut, hi)
  {
    if s != [] {
      AboveWithin(s[..|s| - 1], cut, lo, hi);
    }
  }

  lemma {:induction false} AboveAscending(s: seq<nat>, cut: int)
    requires Ascending(s)
    ensures Ascending(Above(s, cut))
  {
    if s != [] {
      var rest, last := s[..|s| - 1], s[|s| - 1];
      AboveAscending(rest, cut);
      assert Within(rest, -1, last);
      AboveWithin(rest, cut, -1, last);
    }
  }

  lemma {:induction false} AboveAbove(s: seq<nat>, a: int, b: int)
    requires a <= b
    ensures Above(Above(s, a), b) == Above(s, b)
  {
    if s != [] {
      var rest, last := s[..|s| - 1], s[|s| - 1];
      AboveAbove(rest, a, b);
      if a < last {
        assert Above(s, a)[..|Above(s, a)| - 1] == Above(rest, a);
      } else {
        assert Above(s, a) == Above(rest, a);
      }
    }
  }

  lemma {:induction false} AboveNone(s: seq<nat>, cut: int)
    requires Within(s, -1, cut)
    ensures Above(s, cut) == []
  {
    if s != [] {
      AboveNone(s[..|s| - 1], cut);
    }
  }

  lemma {:induction false} AboveAll(s: seq<nat>, cut: int, hi: int)
    requires Within(s, cut, hi)
    ensures Above(s, cut) == s
  {
    if s != [] {
      AboveAll(s[..|s| - 1], cut, hi);
    }
  }

  /** In a log that ends by `hi`, what lies above `cut` is what lies in (cut, hi]. */
  lemma {:induction false} AboveCounts(s: seq<nat>, cut: int, lo: int, hi: int)
    requires Within(s, lo, hi)
    ensures |Above(s, cut)| == CountIn(s, cut, hi)
  {
    if s != [] {
      AboveCounts(s[..|s| - 1], cut, lo, hi);
    }
  }

  /** A score that is not smaller than the others goes to the end. */
  lemma {:induction false} ZAddLast(s: seq<nat>, x: nat)
    requires Within(s, -1, x)
    ensures ZAdd(s, x) == s + [x]
  {
    AboveNone(s, x);
    AtMostAll(s, x);
  }

  lemma {:induction false} AtMostAll(s: seq<nat>, x: nat)
    requires Within(s, -1, x)
    ensures AtMost(s, x) == s
  {
    if s != [] {
      AtMostAll(s[..|s| - 1], x);
    }
  }

  // ---------------------------------------------------------------- the pruned set is the log

  function Cap(limit: int): nat {
    if limit < 0 then 0 else limit
  }

  /** After a call at `last`, the stored set is the part of the log inside the window. */
  ghost predicate Inv(st: KeyState, last: nat, limit: int, window: nat) {
    var live := Above(st.counted, WindowStart(last, window));
    && Ascending(st.counted)
    && Within(st.counted, 0, last)
    && |live| <= Cap(limit)
    && (st.z.None? ==> live == [])
    && (st.z.Some? ==>
          && Above(st.z.value.scores, WindowStart(last, window)) == live
          && Within(st.counted, 0, st.z.value.expireAt - window - EXPIRY_BUFFER))
  }

  /** What a call at `now` sees and keeps is the part of the log in (now - window, now]. */
  lemma LiveIsLog(st: KeyState, last: nat, now: nat, limit: int, window: nat)
    requires Inv(st, last, limit, window) && last <= now
    ensures var live := Above(Visible(st.z, now), WindowStart(now, window));
      live == Above(st.counted, WindowStart(now, window)) && |live| == CountIn(st.counted, now - window, now)
  {
    var start := WindowStart(now, window);
    var before := WindowStart(last, window);
    if st.z.Some? && st.z.value.expireAt <= now {
      AboveNone(st.counted, start);
    } else {
      AboveAbove(Visible(st.z, now), before, start);
      AboveAbove(st.counted, before, start);
    }
    AboveCounts(st.counted, start, 0, now);
    CountWidens(st.counted, start, now, now - window, now);
    CountWidens(st.counted, now - window, now, start, now);
  }

  lemma AboveSnoc(s: seq<nat>, x: nat, cut: int)
    ensures Above(s + [x], cut) == Above(s, cut) + if cut < x then [x] else []
  {
    assert (s + [x])[..|s|] == s;
  }

  lemma Snoc(s: seq<nat>, x: nat, last: nat)
    requires Ascending(s) && Within(s, 0, last) && 1 <= x && last <= x
    ensures Ascending(s + [x]) && Within(s + [x], 0, x)
  {
  }

  /** An admission that adds a member. */
  lemma AddKeepsInv(st: KeyState, last: nat, now: nat, again: bool, limit: int, window: nat)
    requires Inv(st, last, limit, window) && 1 <= now && last <= now
    requires |Above(st.counted, WindowStart(now, window))| < limit
    requires !(again && now in Above(st.counted, WindowStart(now, window)))
    ensures Inv(Serve(st, now, again, limit, window), now, limit, window)
  {
    LiveIsLog(st, last, now, limit, window);
    var start := WindowStart(now, window);
    var live := Above(st.counted, start);
    AboveWithin(st.counted, start, 0, now);
    ZAddLast(live, now);
    AboveAbove(st.counted, start, start);
    AboveSnoc(live, now, start);
    AboveSnoc(st.counted, now, start);
    Snoc(st.counted, now, last);
  }

  /** One that repeats a member only renews the expiry. */
  lemma AgainKeepsInv(st: KeyState, last: nat, now: nat, limit: int, window: nat)
    requires Inv(st, last, limit, window) && 1 <= now && last <= now
    requires |Above(st.counted, WindowStart(now, window))| < limit
    requires now in Above(st.counted, WindowStart(now, window))
    ensures Inv(Serve(st, now, true, limit, window), now, limit, window)
  {
    LiveIsLog(st, last, now, limit, window);
    AboveAbove(st.counted, WindowStart(now, window), WindowStart(now, window));
  }

  lemma DenyKeepsInv(st: KeyState, last: nat, now: nat, again: bool, limit: int, window: nat)
    requires Inv(st, last, limit, window) && 1 <= now && last <= now
    requires |Above(st.counted, WindowStart(now, window))| >= limit
    ensures Inv(Serve(st, now, again, limit, window), now, limit, window)
  {
    LiveIsLog(st, last, now, limit, window);
    var before, start := WindowStart(last, window), WindowStart(now, window);
    AboveAbove(st.counted, start, start);
    AboveAbove(st.counted, before, start);
    AboveShorter(Above(st.counted, before), start);
  }

  lemma {:induction false} AboveShorter(s: seq<nat>, cut: int)
    ensures |Above(s, cut)| <= |s|
  {
    if s != [] {
      AboveShorter(s[..|s| - 1], cut);
    }
  }

  lemma ServeKeepsInv(st: KeyState, last: nat, now: nat, again: bool, limit: int, window: nat)
    requires Inv(st, last, limit, window) && 1 <= now && last <= now
    ensures Inv(Serve(st, now, again, limit, window), now, limit, window)
  {
    var live := Above(st.counted, WindowStart(now, window));
    if |live| >= limit {
      DenyKeepsInv(st, last, now, again, limit, window);
    } else if again && now in live {
      AgainKeepsInv(st, last, now, limit, window);
    } else {
      AddKeepsInv(st, last, now, again, limit, window);
    }
  }

  // ---------------------------------------------------------------- whole runs

  lemma InitInv(limit: int, window: nat)
    ensures Inv(KeyState(None, [], []), 1, limit, window)
  {
  }

  lemma {:induction false} RunInv(times: seq<nat>, draws: Draws, limit: int, window: nat)
    requires Clock(times, 1)
    ensures Inv(After(times, draws, limit, window), Latest(times, 1), limit, window)
  {
    if times == [] {
      InitInv(limit, window);
    } else {
      var rest, now := times[..|times| - 1], times[|times| - 1];
      RunInv(rest, draws, limit, window);
      LatestFrom(rest, 1);
      var st := After(rest, draws, limit, window);
      ServeKeepsInv(st, Latest(rest, 1), now, draws(|rest|), limit, window);
      assert After(times, draws, limit, window) == Serve(st, now, draws(|rest|), limit, window);
    }
  }

  /** After a run, a call at `now` prunes the stored set to the part of the log in its window. */
  lemma RunLive(times: seq<nat>, draws: Draws, now: nat, limit: int, window: nat)
    requires Clock(times, 1) && Latest(times, 1) <= now
    ensures var st := After(times, draws, limit, window);
      var live := Above(Visible(st.z, now), WindowStart(now, window));
      && Ascending(st.counted) && Within(st.counted, 0, now)
      && live == Above(st.counted, WindowStart(now, window))
      && |live| == CountIn(st.counted, now - window, now)
      && |live| <= Cap(limit)
  {
    RunInv(times, draws, limit, window);
    var st := After(times, draws, limit, window);
    var last := Latest(times, 1);
    LiveIsLog(st, last, now, limit, window);
    AboveAbove(st.counted, WindowStart(last, window), WindowStart(now, window));
    AboveShorter(Above(st.counted, WindowStart(last, window)), WindowStart(now, window));
  }

  /**
   The pruned, expiring set decides every request as the full log does: with a clock past second
   zero, a request is admitted exactly when fewer than `limit` of all earlier admissions that added a
   member lie in (now - window, now], and `remaining` is what the window still holds after one more.
   */
  lemma DecidesByTheLog(times: seq<nat>, draws: Draws, now: nat, limit: int, window: nat)
    requires Clock(times, 1) && Latest(times, 1) <= now
    ensures var used := CountIn(After(times, draws, limit, window).counted, now - window, now);
      var r := Answer(times, draws, now, limit, window);
      && (r.allowed <==> used < limit)
      && used <= Cap(limit)
      && r.remaining == (if r.allowed then limit - (used + 1) else 0)
      && r.remaining >= 0
      && r.limit == limit
      && (r.allowed ==> r.resetAt == now + window && r.retryAfter.None?)
      && (limit <= 0 ==> r.resetAt == now + window && r.retryAfter.Some? && r.retryAfter.value == window)
  {
    RunLive(times, draws, now, limit, window);
  }

  predicate Lasts(st: KeyState, window: nat) {
    st.z.Some? ==> st.admitted != [] && st.z.value.expireAt == st.admitted[|st.admitted| - 1] + window + 60
  }

  lemma ServeLasts(st: KeyState, st': KeyState, now: nat, again: bool, limit: int, window: nat)
    requires Lasts(st, window) && st' == Serve(st, now, again, limit, window)
    ensures Lasts(st', window)
  {
    if |Live(st.z, now, window)| >= limit {
      assert st'.z.Some? ==> st.z.Some? && st'.z.value.expireAt == st.z.value.expireAt;
    }
  }

  lemma {:induction false} RunLasts(times: seq<nat>, draws: Draws, limit: int, window: nat)
    ensures Lasts(After(times, draws, limit, window), window)
  {
    if times != [] {
      var n := |times| - 1;
      var st, st' := After(times[..n], draws, limit, window), After(times, draws, limit, window);
      RunLasts(times[..n], draws, limit, window);
      ServeLasts(st, st', times[n], draws(n), limit, window);
    }
  }

  /** In every run the key lasts a minute longer than the window of the last admission, and no denial renews it. */
  lemma KeyOutlivesWindow(times: seq<nat>, draws: Draws, limit: int, window: nat)
    ensures var st := After(times, draws, limit, window);
      st.z.Some? ==> st.admitted != [] && st.z.value.expireAt == st.admitted[|st.admitted| - 1] + window + 60
  {
    RunLasts(times, draws, limit, window);
  }

  /** When every draw is new, every admission adds a member. */
  lemma {:induction false} NewDrawsCountAll(times: seq<nat>, draws: Draws, limit: int, window: nat)
    requires forall i: nat :: i < |times| ==> !draws(i)
    ensures After(times, draws, limit, window).counted == After(times, draws, limit, window).admitted
  {
    if times != [] {
      NewDrawsCountAll(times[..|times| - 1], draws, limit, window);
    }
  }

  /** No window of length `window`, wherever it ends, holds more than `limit` such admissions of a run. */
  lemma {:induction false} WindowsAreBounded(times: seq<nat>, draws: Draws, limit: int, window: nat, t: int)
    requires Clock(times, 1)
    ensures CountIn(After(times, draws, limit, window).counted, t - window, t) <= Cap(limit)
  {
    if times != [] {
      var rest, now := times[..|times| - 1], times[|times| - 1];
      WindowsAreBounded(rest, draws, limit, window, t);
      RunLive(rest, draws, now, limit, window);
      if Answer(rest, draws, now, limit, window).allowed {
        CountSnoc(After(rest, draws, limit, window).counted, now, limit, window, t);
      }
    }
  }

  lemma CountSnoc(a: seq<nat>, now: nat, limit: int, window: nat, t: int)
    requires Within(a, 0, now)
    requires CountIn(a, t - window, t) <= Cap(limit)
    requires CountIn(a, now - window, now) < limit
    ensures CountIn(a + [now], t - window, t) <= Cap(limit)
  {
    assert (a + [now])[..|a|] == a;
    if now <= t {
      CountWidens(a, t - window, t, now - window, now);
    }
  }

  // ---------------------------------------------------------------- the retry time

  lemma {:induction false} FirstDropped(s: seq<nat>, cut: int)
    requires s != [] && s[0] <= cut
    ensures |Above(s, cut)| < |s|
  {
    if |s| == 1 {
      assert s[..0] == [];
    } else {
      FirstDropped(s[..|s| - 1], cut);
    }
  }

  /** The part of the log inside a window stays as it is until its oldest admission leaves. */
  lemma FullUntilReset(a: seq<nat>, now: nat, t: nat, window: nat)
    requires Ascending(a) && Within(a, 0, now) && now <= t
    requires Above(a, WindowStart(now, window)) != []
    ensures var live := Above(a, WindowStart(now, window));
      if t < live[0] + window then Above(a, WindowStart(t, window)) == live
      else |Above(a, WindowStart(t, window))| < |live|
  {
    var start := WindowStart(now, window);
    var live := Above(a, start);
    AboveAbove(a, start, WindowStart(t, window));
    AboveAscending(a, start);
    AboveWithin(a, start, 0, now);
    if t < live[0] + window {
      assert Within(live, WindowStart(t, window), now);
      AboveAll(live, WindowStart(t, window), now);
    } else {
      FirstDropped(live, WindowStart(t, window));
    }
  }

  /** `all` continues the denied request `now` with requests made before `resetAt`. */
  predicate Waiting(times: seq<nat>, now: nat, all: seq<nat>, resetAt: nat) {
    && times + [now] <= all
    && Clock(all, 1)
    && forall i :: |times| < i < |all| ==> all[i] < resetAt
  }

  lemma DenialShape(st: KeyState, now: nat, limit: int, window: nat)
    requires limit >= 1 && Within(st.counted, 0, now)
    requires !Check(st.z, now, false, limit, window).1.allowed
    requires var live := Above(st.counted, WindowStart(now, window));
      |live| <= limit && Above(Visible(st.z, now), WindowStart(now, window)) == live
    ensures var r := Check(st.z, now, false, limit, window).1;
      var live := Above(st.counted, WindowStart(now, window));
      && |live| == limit && r.resetAt == live[0] + window
      && now < r.resetAt <= now + window && r.retryAfter.Some? && r.retryAfter.value == r.resetAt - now
  {
    AboveWithin(st.counted, WindowStart(now, window), 0, now);
  }

  lemma DenialFacts(times: seq<nat>, draws: Draws, now: nat, limit: int, window: nat)
    requires limit >= 1 && Clock(times, 1) && Latest(times, 1) <= now
    requires !Answer(times, draws, now, limit, window).allowed
    ensures var r := Answer(times, draws, now, limit, window);
      var a := After(times, draws, limit, window).counted;
      var live := Above(a, WindowStart(now, window));
      && Ascending(a) && Within(a, 0, now)
      && |live| == limit && r.resetAt == live[0] + window
      && now < r.resetAt <= now + window && r.retryAfter.Some? && r.retryAfter.value == r.resetAt - now
  {
    RunLive(times, draws, now, limit, window);
    DenialShape(After(times, draws, limit, window), now, limit, window);
  }

  lemma {:induction false} NothingBeforeReset(times: seq<nat>, draws: Draws, now: nat, all: seq<nat>, limit: int,
                                              window: nat)
    requires limit >= 1 && Clock(times, 1) && Latest(times, 1) <= now
    requires !Answer(times, draws, now, limit, window).allowed
    requires Waiting(times, now, all, Answer(times, draws, now, limit, window).resetAt)
    ensures After(all, draws, limit, window).counted == After(times, draws, limit, window).counted
    decreases |all|
  {
    var rest, last := all[..|all| - 1], all[|all| - 1];
    if |all| == |times| + 1 {
      assert rest == times && last == now;
    } else {
      assert times + [now] <= rest;
      NothingBeforeReset(times, draws, now, rest, limit, window);
      DeniedAgain(times, draws, now, rest, last, limit, window);
    }
  }

  lemma {:induction false} LatestIsLast(times: seq<nat>, now: nat, all: seq<nat>)
    requires times + [now] <= all && Clock(all, 1)
    ensures now <= Latest(all, 1)
    decreases |all|
  {
    if |all| > |times| + 1 {
      assert times + [now] <= all[..|all| - 1];
      LatestIsLast(times, now, all[..|all| - 1]);
    } else {
      assert all[|all| - 1] == (times + [now])[|times|];
    }
  }

  lemma DeniedAgain(times: seq<nat>, draws: Draws, now: nat, all: seq<nat>, t: nat, limit: int, window: nat)
    requires limit >= 1 && Clock(times, 1) && Latest(times, 1) <= now
    requires !Answer(times, draws, now, limit, window).allowed
    requires times + [now] <= all && Clock(all, 1) && Latest(all, 1) <= t
    requires After(all, draws, limit, window).counted == After(times, draws, limit, window).counted
    ensures Answer(all, draws, t, limit, window).allowed <==> Answer(times, draws, now, limit, window).resetAt <= t
  {
    DenialFacts(times, draws, now, limit, window);
    LatestIsLast(times, now, all);
    FullUntilReset(After(times, draws, limit, window).counted, now, t, window);
    RunLive(all, draws, t, limit, window);
  }

  /**
   The announced retry time is exact: it lies in (now, now + window], every request made before it
   is denied, and the first one made at it or later is admitted.
   */
  lemma RetryTimeIsExact(times: seq<nat>, draws: Draws, now: nat, all: seq<nat>, t: nat, limit: int, window: nat)
    requires limit >= 1 && Clock(times, 1) && Latest(times, 1) <= now
    requires !Answer(times, draws, now, limit, window).allowed
    requires Waiting(times, now, all, Answer(times, draws, now, limit, window).resetAt) && Latest(all, 1) <= t
    ensures var r := Answer(times, draws, now, limit, window);
      && now < r.resetAt <= now + window
      && r.retryAfter.Some? && r.retryAfter.value == r.resetAt - now
      && (Answer(all, draws, t, limit, window).allowed <==> r.resetAt <= t)
  {
    DenialFacts(times, draws, now, limit, window);
    NothingBeforeReset(times, draws, now, all, limit, window);
    DeniedAgain(times, draws, now, all, t, limit, window);
  }

  // ---------------------------------------------------------------- second zero

  /** A run with a clock from `from` on keeps the window that ends at `t` within the limit. */
  ghost predicate BoundedAt(times: seq<nat>, draws: Draws, t: int, from: nat, limit: int, window: nat) {
    Clock(times, from) ==> CountIn(After(times, draws, limit, window).counted, t - window, t) <= Cap(limit)
  }

  function Zeros(n: nat): (z: seq<nat>)
    ensures |z| == n && forall i :: 0 <= i < n ==> z[i] == 0
  {
    seq(n, _ => 0)
  }

  lemma ServeAtZero(st: KeyState, again: bool, limit: int, window: nat)
    requires limit >= 1 && Within(Visible(st.z, 0), -1, 0)
    ensures var st' := Serve(st, 0, again, limit, window);
      st'.admitted == st.admitted + [0] && st'.counted == st.counted + [0] && Within(Visible(st'.z, 0), -1, 0)
  {
    AboveNone(Visible(st.z, 0), 0);
    ZAddLast([], 0);
  }

  lemma {:induction false} ZerosInOrder(n: nat, window: nat)
    requires window >= 1
    ensures CountIn(Zeros(n), 0 - window, 0) == n && Clock(Zeros(n), 0)
  {
    if n > 0 {
      ZerosInOrder(n - 1, window);
      assert Zeros(n)[..n - 1] == Zeros(n - 1);
    }
  }

  lemma AfterSnoc(times: seq<nat>, now: nat, draws: Draws, limit: int, window: nat)
    ensures After(times + [now], draws, limit, window) ==
            Serve(After(times, draws, limit, window), now, draws(|times|), limit, window)
  {
    assert (times + [now])[..|times|] == times;
  }

  /** At second zero the saturated window start removes what has just been admitted, whatever is drawn. */
  lemma {:induction false} ZerosAllAdmitted(n: nat, draws: Draws, limit: int, window: nat)
    requires limit >= 1
    ensures var st := After(Zeros(n), draws, limit, window);
      st.admitted == Zeros(n) && st.counted == Zeros(n) && Within(Visible(st.z, 0), -1, 0)
  {
    if n > 0 {
      var before := Zeros(n - 1);
      ZerosAllAdmitted(n - 1, draws, limit, window);
      assert Zeros(n) == before + [0];
      AfterSnoc(before, 0, draws, limit, window);
      ServeAtZero(After(before, draws, limit, window), draws(n - 1), limit, window);
    }
  }

  lemma {:induction false} NeverAdmitted(times: seq<nat>, draws: Draws, limit: int, window: nat)
    requires limit <= 0
    ensures After(times, draws, limit, window).counted == []
  {
    if times != [] {
      NeverAdmitted(times[..|times| - 1], draws, limit, window);
    }
  }

  lemma BoundedHolds(times: seq<nat>, draws: Draws, t: int, from: nat, limit: int, window: nat)
    requires from >= 1 || window == 0 || limit <= 0
    ensures BoundedAt(times, draws, t, from, limit, window)
  {
    if Clock(times, from) {
      if from >= 1 {
        ClockLater(times, from);
        WindowsAreBounded(times, draws, limit, window, t);
      } else if window == 0 {
        CountNone(After(times, draws, limit, window).counted, t, t);
      } else {
        NeverAdmitted(times, draws, limit, window);
      }
    }
  }

  ghost predicate AlwaysBounded(from: nat, limit: int, window: nat) {
    forall times, draws, t :: BoundedAt(times, draws, t, from, limit, window)
  }

  lemma BoundFailsAtZero(limit: int, window: nat)
    requires window >= 1 && limit >= 1
    ensures !BoundedAt(Zeros(limit + 1), _ => false, 0, 0, limit, window)
  {
    ZerosAllAdmitted(limit + 1, _ => false, limit, window);
    ZerosInOrder(limit + 1, window);
  }

  /** The bound can fail only for requests made in second zero, where the window start saturates. */
  lemma BoundedIff(from: nat, limit: int, window: nat)
    ensures AlwaysBounded(from, limit, window) <==> from >= 1 || window == 0 || limit <= 0
  {
    if from >= 1 || window == 0 || limit <= 0 {
      forall times, draws, t {
        BoundedHolds(times, draws, t, from, limit, window);
      }
    } else {
      BoundFailsAtZero(limit, window);
    }
  }
}
