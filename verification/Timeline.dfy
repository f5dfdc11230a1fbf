/** Sequences of request times, in whole seconds, and how many of them fall into an interval. */
module Timeline {

  function Latest(times: seq<nat>, from: nat): nat {
    if times == [] then from else times[|times| - 1]
  }

  /** The requests come in order of a clock that never reads less than `from`. */
  predicate Clock(times: seq<nat>, from: nat) {
    times == [] ||
    (Clock(times[..|times| - 1], from) && Latest(times[..|times| - 1], from) <= times[|times| - 1])
  }

  lemma {:induction false} LatestFrom(times: seq<nat>, from: nat)
    requires Clock(times, from)
    ensures from <= Latest(times, from)
  {
    if times != [] {
      LatestFrom(times[..|times| - 1], from);
    }
  }

  lemma {:induction false} ClockLater(times: seq<nat>, from: nat)
    requires from >= 1 && Clock(times, from)
    ensures Clock(times, 1) && Latest(times, 1) <= Latest(times, from)
  {
    if times != [] {
      ClockLater(times[..|times| - 1], from);
    }
  }

  predicate Within(s: seq<nat>, lo: int, hi: int) {
    forall i :: 0 <= i < |s| ==> lo < s[i] <= hi
  }

  /** How many of `s` lie in (lo, hi]. */
  function CountIn(s: seq<nat>, lo: int, hi: int): nat {
    if s == [] then 0
    else CountIn(s[..|s| - 1], lo, hi) + if lo < s[|s| - 1] <= hi then 1 else 0
  }

  lemma {:induction false} CountWidens(s: seq<nat>, lo: int, hi: int, lo': int, hi': int)
    requires forall i :: 0 <= i < |s| && lo < s[i] <= hi ==> lo' < s[i] <= hi'
    ensures CountIn(s, lo, hi) <= CountIn(s, lo', hi')
  {
    if s != [] {
      CountWidens(s[..|s| - 1], lo, hi, lo', hi');
    }
  }

  lemma {:induction false} CountSplit(s: seq<nat>, lo: int, mid: int, hi: int)
    requires lo <= mid <= hi
    ensures CountIn(s, lo, hi) == CountIn(s, lo, mid) + CountIn(s, mid, hi)
  {
    if s != [] {
      CountSplit(s[..|s| - 1], lo, mid, hi);
    }
  }

  lemma CountAppend(s: seq<nat>, x: nat, lo: int, hi: int)
    ensures CountIn(s + [x], lo, hi) == CountIn(s, lo, hi) + if lo < x <= hi then 1 else 0
  {
    assert (s + [x])[..|s|] == s;
  }

  /** Past the last request, the end of the interval does not matter. */
  lemma {:induction false} CountLater(s: seq<nat>, lo: int, hi: int, hi': int)
    requires Within(s, -1, hi) && hi <= hi'
    ensures CountIn(s, lo, hi) == CountIn(s, lo, hi')
  {
    if s != [] {
      CountLater(s[..|s| - 1], lo, hi, hi');
    }
  }

  lemma {:induction false} CountNone(s: seq<nat>, lo: int, hi: int)
    requires hi <= lo
    ensures CountIn(s, lo, hi) == 0
  {
    if s != [] {
      CountNone(s[..|s| - 1], lo, hi);
    }
  }
}
