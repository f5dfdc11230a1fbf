/**
 The limiter with the members it really draws: Redis reseeds the random generator of scripts for every
 call, so all calls of one second draw the same member and count as one.
 */
module RateLimiterSeeded {
  import opened Timeline
  import opened Wrappers
  import opened RateLimiter

  /** Every draw repeats the one of its second. */
  const SAME: Draws := _ => true

  /** The different seconds of a log in order of time. */
  function Seconds(log: seq<nat>): seq<nat> {
    if log == [] then []
    else
      var rest, last := Seconds(log[..|log| - 1]), log[|log| - 1];
      if rest != [] && rest[|rest| - 1] == last then rest else rest + [last]
  }

  lemma SecondsSnoc(log: seq<nat>, now: nat)
    ensures Seconds(log + [now]) ==
            if Seconds(log) != [] && Seconds(log)[|Seconds(log)| - 1] == now then Seconds(log)
            else Seconds(log) + [now]
  {
    assert (log + [now])[..|log|] == log;
  }

  lemma {:induction false} AboveHas(s: seq<nat>, cut: int, x: nat)
    ensures x in Above(s, cut) <==> x in s && cut < x
  {
    if s != [] {
      AboveHas(s[..|s| - 1], cut, x);
    }
  }

  lemma SecondCounted(st: KeyState, last: nat, now: nat, limit: int, window: nat)
    requires Inv(st, last, limit, window) && 1 <= now && last <= now && window >= 1
    requires st.counted == Seconds(st.admitted)
    ensures var st' := Serve(st, now, true, limit, window); st'.counted == Seconds(st'.admitted)
  {
    LiveIsLog(st, last, now, limit, window);
    AboveHas(st.counted, WindowStart(now, window), now);
    SecondsSnoc(st.admitted, now);
    if now in st.counted {
      assert st.counted[|st.counted| - 1] == now;
    }
  }

  /** What is counted is the seconds that have an admission. */
  lemma {:induction false} SecondsAreCounted(times: seq<nat>, limit: int, window: nat)
    requires Clock(times, 1) && window >= 1
    ensures var st := After(times, SAME, limit, window); st.counted == Seconds(st.admitted)
  {
    if times != [] {
      var rest, now := times[..|times| - 1], times[|times| - 1];
      SecondsAreCounted(rest, limit, window);
      RunInv(rest, SAME, limit, window);
      LatestFrom(rest, 1);
      SecondCounted(After(rest, SAME, limit, window), Latest(rest, 1), now, limit, window);
    }
  }

  lemma CountsSeconds(times: seq<nat>, limit: int, window: nat, t: int)
    requires Clock(times, 1)
    ensures var st := After(times, SAME, limit, window);
      CountIn(Seconds(st.admitted), t - window, t) == CountIn(st.counted, t - window, t)
  {
    if window == 0 {
      CountNone(Seconds(After(times, SAME, limit, window).admitted), t, t);
      CountNone(After(times, SAME, limit, window).counted, t, t);
    } else {
      SecondsAreCounted(times, limit, window);
    }
  }

  /** A request is admitted exactly when fewer than `limit` different seconds of its window have an admission. */
  lemma DecidesBySeconds(times: seq<nat>, now: nat, limit: int, window: nat)
    requires Clock(times, 1) && Latest(times, 1) <= now
    ensures Answer(times, SAME, now, limit, window).allowed <==>
            CountIn(Seconds(After(times, SAME, limit, window).admitted), now - window, now) < limit
  {
    DecidesByTheLog(times, SAME, now, limit, window);
    CountsSeconds(times, limit, window, now);
  }

  /** In every run the admissions of every window fall into at most `limit` different seconds. */
  lemma SecondsAreBounded(times: seq<nat>, limit: int, window: nat, t: int)
    requires Clock(times, 1)
    ensures CountIn(Seconds(After(times, SAME, limit, window).admitted), t - window, t) <= Cap(limit)
  {
    WindowsAreBounded(times, SAME, limit, window, t);
    CountsSeconds(times, limit, window, t);
  }

  // ---------------------------------------------------------------- how many requests that is

  /** With a limit of one at most, a request is added only to an empty window: no draw matters. */
  lemma {:induction false} DrawsDoNotMatterUpToOne(times: seq<nat>, draws: Draws, other: Draws, limit: int, window: nat)
    requires limit <= 1
    ensures After(times, draws, limit, window) == After(times, other, limit, window)
  {
    if times != [] {
      DrawsDoNotMatterUpToOne(times[..|times| - 1], draws, other, limit, window);
    }
  }

  /** The state once one second, and no other, has had an admission. */
  predicate OneSecond(st: KeyState, t: nat) {
    st.z.Some? && st.z.value.scores == [t] && t < st.z.value.expireAt
  }

  lemma LiveSecond(st: KeyState, t: nat, window: nat)
    requires window >= 1 && t >= 1 && OneSecond(st, t)
    ensures Live(st.z, t, window) == [t]
  {
    assert [t][..0] == [];
    assert Above([t], WindowStart(t, window)) == Above([], WindowStart(t, window)) + [t];
  }

  lemma SecondAgain(st: KeyState, t: nat, limit: int, window: nat)
    requires limit >= 2 && window >= 1 && t >= 1 && OneSecond(st, t)
    ensures var st' := Serve(st, t, true, limit, window); st'.admitted == st.admitted + [t] && OneSecond(st', t)
  {
    LiveSecond(st, t, window);
  }

  lemma SecondFirst(t: nat, limit: int, window: nat)
    requires limit >= 1
    ensures var st' := Serve(KeyState(None, [], []), t, true, limit, window);
      st'.admitted == [t] && OneSecond(st', t)
  {
    ZAddLast([], t);
  }

  /** With a limit of two or more, any number of requests of one second is admitted, counted as one. */
  lemma {:induction false} SecondIsUnbounded(n: nat, t: nat, limit: int, window: nat)
    requires limit >= 2 && window >= 1 && t >= 1 && n >= 1
    ensures After(Repeat<nat>(t, n), SAME, limit, window).admitted == Repeat<nat>(t, n)
    ensures OneSecond(After(Repeat<nat>(t, n), SAME, limit, window), t)
  {
    var times := Repeat<nat>(t, n);
    assert times[..n - 1] == Repeat<nat>(t, n - 1) && times == Repeat<nat>(t, n - 1) + [t];
    if n == 1 {
      SecondFirst(t, limit, window);
      assert times[..0] == [];
    } else {
      SecondIsUnbounded(n - 1, t, limit, window);
      SecondAgain(After(times[..n - 1], SAME, limit, window), t, limit, window);
    }
  }
}
