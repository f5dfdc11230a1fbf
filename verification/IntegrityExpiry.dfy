/**
 The integrity counters when INCR and the EXPIRE of the first hit are two commands, each of which may fail: a
 counter whose first hit is not followed by its EXPIRE never goes away.
 */
module IntegrityExpiry {
  import opened Wrappers
  import IL = IntegrityLimits

  /** Which of the two commands fails, and whether it took effect. */
  datatype Outcome = Whole | IncrUnreached | IncrLost | ExpireUnreached | ExpireLost

  /** A counter; without an expiry it stays. */
  datatype Key = Absent | Key(count: nat, expiry: Option<nat>)

  datatype Hit = Hit(now: nat, outcome: Outcome)

  function Count(k: Key, now: nat): nat {
    if k.Key? && (k.expiry.None? || now < k.expiry.value) then k.count else 0
  }

  predicate Expires(o: Outcome) {
    o.Whole? || o.ExpireLost?
  }

  /** An INCR whose answer is lost is not followed by an EXPIRE either. */
  function Take(k: Key, h: Hit): Key {
    if h.outcome.IncrUnreached? then k
    else if Count(k, h.now) > 0 then Key(Count(k, h.now) + 1, k.expiry)
    else Key(1, if Expires(h.outcome) then Some(h.now + IL.RATE_LIMIT_WINDOW_SECONDS) else None)
  }

  function Run(hits: seq<Hit>): Key {
    if hits == [] then Absent else Take(Run(hits[..|hits| - 1]), hits[|hits| - 1])
  }

  function Counter(k: Key): IL.Counter
    requires k.Key? ==> k.expiry.Some?
  {
    if k.Absent? then IL.Absent else IL.Counter(k.count, k.expiry.value)
  }

  /** Without failures the two commands are the one step of the other module. */
  lemma WholeIsHit(k: Key, now: nat)
    requires k.Key? ==> k.expiry.Some? && k.count > 0
    ensures var k' := Take(k, Hit(now, Whole));
      k'.Key? && k'.expiry.Some? && k'.count > 0 && Counter(k') == IL.Hit(Counter(k), now)
  {
  }

  // ---------------------------------------------------------------- counters that stay

  predicate Stays(k: Key) {
    k.Key? && k.expiry.None?
  }

  /**
   Hit `i` makes the key, and no EXPIRE follows that takes effect: the INCR
   went unanswered, or the EXPIRE did not arrive.
   */
  predicate Unlimited(hits: seq<Hit>, i: nat)
    requires i < |hits|
  {
    var h := hits[i];
    Count(Run(hits[..i]), h.now) == 0 && (h.outcome.IncrLost? || h.outcome.ExpireUnreached?)
  }

  /** The counter is there for good if and only if some hit that made it was not followed by its EXPIRE. */
  lemma {:induction false} StaysIff(hits: seq<Hit>)
    ensures Stays(Run(hits)) <==> exists i: nat :: i < |hits| && Unlimited(hits, i)
    ensures Run(hits).Key? ==> Run(hits).count > 0
  {
    if hits != [] {
      var n := |hits| - 1;
      var before := hits[..n];
      StaysIff(before);
      forall i: nat | i < n ensures Unlimited(before, i) == Unlimited(hits, i) {
        assert before[..i] == hits[..i];
      }
      if Stays(Run(before)) {
        var i: nat :| i < n && Unlimited(before, i);
        assert Unlimited(hits, i);
      } else {
        assert Stays(Run(hits)) <==> Unlimited(hits, n);
      }
    }
  }

  lemma {:induction false} StaysAndGrows(hits: seq<Hit>, more: seq<Hit>)
    requires Stays(Run(hits))
    ensures Stays(Run(hits + more)) && Run(hits + more).count >= Run(hits).count
  {
    StaysIff(hits);
    if more == [] {
      assert hits + more == hits;
    } else {
      var n := |more| - 1;
      StaysAndGrows(hits, more[..n]);
      assert (hits + more)[..|hits| + n] == hits + more[..n];
    }
  }

  /** Whatever comes and however late, the counter is at `max` or above. */
  ghost predicate LockedForEver(hits: seq<Hit>, max: nat) {
    forall more, now :: Count(Run(hits + more), now) >= max
  }

  /** An identity is locked out for ever if and only if its failure counter stays and has reached the maximum. */
  lemma LockedForEverIff(hits: seq<Hit>, max: nat)
    requires max >= 1
    ensures LockedForEver(hits, max) <==> Stays(Run(hits)) && Run(hits).count >= max
  {
    var k := Run(hits);
    if Stays(k) && k.count >= max {
      forall more, now ensures Count(Run(hits + more), now) >= max {
        StaysAndGrows(hits, more);
      }
    } else {
      assert hits + [] == hits;
      assert Count(Run(hits + []), if k.Key? && k.expiry.Some? then k.expiry.value else 0) < max;
    }
  }

  function Failures(max: nat): seq<Hit>
    requires max >= 1
  {
    [Hit(0, ExpireUnreached)] + Repeat(Hit(0, Whole), max - 1)
  }

  /** For every maximum, one EXPIRE that does not arrive is enough. */
  lemma {:induction false} LostExpireLocks(max: nat)
    requires max >= 1
    ensures Run(Failures(max)) == Key(max, None) && LockedForEver(Failures(max), max)
  {
    if max == 1 {
      assert Failures(1)[..0] == [] && Failures(1) == [Hit(0, ExpireUnreached)];
    } else {
      LostExpireLocks(max - 1);
      assert Failures(max)[..max - 1] == Failures(max - 1);
    }
    LockedForEverIff(Failures(max), max);
  }
}
