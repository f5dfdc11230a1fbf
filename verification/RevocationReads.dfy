/**
 What an acceptance rests on: either a cached verdict looked up while the cache was trusted, or a
 read of Redis by the same call. Steps are traced back through the run to the events that made them.
 */
module RevocationReads {
  import opened Wrappers
  import opened RevocationCache

  ghost predicate GoesOn(events: seq<Event>, k: nat, id: nat, cfg: Config)
    requires k <= |events|
  {
    id in Run(events[..k], cfg).calls
  }

  /** Event `b` begins a call, and that call is the one going on before event `i`. */
  ghost predicate Began(events: seq<Event>, b: nat, i: nat, id: nat, n: Node, j: Jti, healthy: bool, cfg: Config) {
    && b < i <= |events| && events[b] == VerifyFast(id, n, j, healthy)
    && !GoesOn(events, b, id, cfg)
    && forall k: nat :: b < k <= i ==> GoesOn(events, k, id, cfg)
  }

  /** Event `r` reads the mark of the session for a call. */
  ghost predicate Reads(events: seq<Event>, r: nat, id: nat, j: Jti, revoked: bool, at: nat, cfg: Config) {
    && r < |events| && events[r] == Proceed(id)
    && var s := Run(events[..r], cfg);
       && id in s.calls && s.calls[id].jti == j && (s.calls[id].Missed? || s.calls[id].HitUnhealthy?)
       && s.now == at && Revoked(s, j) == revoked
  }

  predicate HasRead(c: Call) {
    c.MissRead? || c.MissInserted? || c.HitRead?
  }

  lemma BeganLonger(before: seq<Event>, e: Event, b: nat, id: nat, n: Node, j: Jti, healthy: bool, cfg: Config)
    requires Began(before, b, |before|, id, n, j, healthy, cfg) && id in Step(Run(before, cfg), e, cfg).calls
    ensures Began(before + [e], b, |before| + 1, id, n, j, healthy, cfg)
  {
    var events := before + [e];
    assert events[..b] == before[..b];
    forall k: nat | b < k <= |events| ensures GoesOn(events, k, id, cfg) {
      if k <= |before| {
        assert events[..k] == before[..k] && GoesOn(before, k, id, cfg);
      } else {
        assert events[..k] == events;
        RunSnoc(before, e, cfg);
      }
    }
  }

  /** A step leaves a call's node and session, and only its own step makes it one that has read. */
  lemma CallGoesOn(s: Cluster, e: Event, id: nat, cfg: Config)
    requires id in s.calls && id in Step(s, e, cfg).calls
    ensures var c, c' := s.calls[id], Step(s, e, cfg).calls[id];
      && c'.node == c.node && c'.jti == c.jti
      && (HasRead(c) ==> HasRead(c') && c'.revoked == c.revoked && c'.readAt == c.readAt)
      && (!HasRead(c) && HasRead(c') ==>
            e == Proceed(id) && c'.revoked == Revoked(s, c.jti) && c'.readAt == s.now)
  {
    if ByRevoker(e) {
      RevokerShrinks(s, e, cfg);
    } else if ByNetwork(e) {
      NetworkShrinks(s, e, cfg);
    } else if e == Proceed(id) {
      OwnStep(s, id);
    } else {
      OtherSteps(s, e, id, cfg);
    }
  }

  lemma OwnStep(s: Cluster, id: nat)
    requires id in s.calls && id in Continue(s, id).calls
    ensures var c, c' := s.calls[id], Continue(s, id).calls[id];
      && c'.node == c.node && c'.jti == c.jti
      && (if HasRead(c) then HasRead(c') && c'.revoked == c.revoked && c'.readAt == c.readAt
          else HasRead(c') && c'.revoked == Revoked(s, c.jti) && c'.readAt == s.now)
  {
  }

  lemma OtherSteps(s: Cluster, e: Event, id: nat, cfg: Config)
    requires id in s.calls && id in Step(s, e, cfg).calls && e != Proceed(id) && !ByRevoker(e) && !ByNetwork(e)
    ensures Step(s, e, cfg).calls[id] == s.calls[id]
  {
    match e
    case Tick(_) => TimeKeepsCalls(s, e, cfg);
    case Revoke(_, _, _, _) => TimeKeepsCalls(s, e, cfg);
    case VerifyFast(other, n, j, healthy) => LookupTouchesOwn(s, other, n, j, healthy, id, cfg);
    case Proceed(other) => ProceedTouchesOwn(s, other, id, cfg);
  }

  lemma OnlyLookupsBegin(s: Cluster, e: Event, id: nat, cfg: Config)
    requires id !in s.calls && id in Step(s, e, cfg).calls
    ensures e.VerifyFast? && e.call == id
    ensures var c := Step(s, e, cfg).calls[id]; c.node == e.node && c.jti == e.jti && !HasRead(c)
  {
    if ByRevoker(e) {
      RevokerShrinks(s, e, cfg);
    } else if ByNetwork(e) {
      NetworkShrinks(s, e, cfg);
    } else {
      match e
      case Tick(_) => TimeKeepsCalls(s, e, cfg);
      case Revoke(_, _, _, _) => TimeKeepsCalls(s, e, cfg);
      case VerifyFast(other, n, j, healthy) => LookupTouchesOwn(s, other, n, j, healthy, id, cfg);
      case Proceed(other) => ProceedTouchesOwn(s, other, id, cfg);
    }
  }

  lemma BeginsLast(before: seq<Event>, e: Event, id: nat, cfg: Config)
    requires id !in Run(before, cfg).calls && id in Run(before + [e], cfg).calls
    ensures e.VerifyFast?
    ensures var events, c := before + [e], Run(before + [e], cfg).calls[id];
      Began(events, |before|, |events|, id, c.node, c.jti, e.healthy, cfg) && !HasRead(c)
  {
    var events := before + [e];
    assert events[..|before|] == before && events[..|events|] == events;
    OnlyLookupsBegin(Run(before, cfg), e, id, cfg);
  }

  /** A call was begun by a lookup, and what it says it read it did read after that. */
  lemma {:induction false} CallHistory(events: seq<Event>, id: nat, cfg: Config)
    returns (b: nat, healthy: bool, r: nat)
    requires id in Run(events, cfg).calls
    ensures var c := Run(events, cfg).calls[id];
      && Began(events, b, |events|, id, c.node, c.jti, healthy, cfg)
      && (HasRead(c) ==> b < r && Reads(events, r, id, c.jti, c.revoked, c.readAt, cfg))
  {
    var before, e := events[..|events| - 1], events[|events| - 1];
    var s := Run(before, cfg);
    assert events == before + [e];
    if id !in s.calls {
      BeginsLast(before, e, id, cfg);
      b, healthy, r := |before|, e.healthy, 0;
    } else {
      b, healthy, r := CallHistory(before, id, cfg);
      CallGoesOn(s, e, id, cfg);
      BeganLonger(before, e, b, id, s.calls[id].node, s.calls[id].jti, healthy, cfg);
      if HasRead(s.calls[id]) {
        assert events[..r] == before[..r];
      } else {
        r := |before|;
        assert events[..r] == before;
      }
    }
  }

  /** Event `i` of a run accepts. */
  ghost predicate Accepts(events: seq<Event>, i: nat, cfg: Config)
    requires i < |events|
  {
    var s := Run(events[..i], cfg);
    Step(s, events[i], cfg).accepts != s.accepts
  }

  /** The call of event `i` read Redis, no more than the delay ago, and found the session unmarked. */
  ghost predicate RestsOnRead(events: seq<Event>, b: nat, r: nat, i: nat, id: nat, n: Node, j: Jti, healthy: bool,
                              cfg: Config)
    requires i <= |events|
  {
    && b < r < i && Began(events, b, i, id, n, j, healthy, cfg)
    && Reads(events, r, id, j, false, Run(events[..r], cfg).now, cfg)
    && Run(events[..i], cfg).now <= Run(events[..r], cfg).now + cfg.delay
  }

  lemma ProceedAccepts(s: Cluster, id: nat, cfg: Config)
    requires Step(s, Proceed(id), cfg).accepts != s.accepts
    ensures id in s.calls && HasRead(s.calls[id]) && !s.calls[id].revoked
    ensures Step(s, Proceed(id), cfg).accepts == Accepted(s, s.calls[id].node, s.calls[id].jti).accepts
  {
  }

  lemma OnlyVerificationsAccept(s: Cluster, e: Event, cfg: Config)
    requires Step(s, e, cfg).accepts != s.accepts
    ensures e.Proceed? || (e.VerifyFast? && (e.healthy || !cfg.enableFallback))
    ensures e.VerifyFast? ==> Cached(s.caches, (e.node, e.jti), s.now, cfg.cacheTtl) == Some(true)
  {
  }

  /** Every acceptance that is not a trusted cache hit rests on a read of its own call. */
  lemma AcceptsAfterRead(events: seq<Event>, i: nat, cfg: Config)
    returns (b: nat, r: nat, healthy: bool)
    requires i < |events| && events[i].Proceed? && Accepts(events, i, cfg)
    ensures var c := Run(events[..i], cfg).calls;
      var id := events[i].call;
      && id in c && RestsOnRead(events, b, r, i, id, c[id].node, c[id].jti, healthy, cfg)
  {
    var before, id := events[..i], events[i].call;
    var s := Run(before, cfg);
    ProceedAccepts(s, id, cfg);
    b, healthy, r := CallHistory(before, id, cfg);
    RunIsFresh(before, cfg);
    assert CallOk(s, s.calls[id], cfg);
    assert before[..b] == events[..b] && before[..r] == events[..r];
    forall k: nat | b < k <= i ensures GoesOn(events, k, id, cfg) {
      assert before[..k] == events[..k] && GoesOn(before, k, id, cfg);
    }
  }

  /**
   With the fallback enabled, in every run, losses or not: a call begun while pub/sub was unhealthy
   accepts only after one of its own steps read Redis, no more than the delay before, and found no mark.
   */
  lemma UnhealthyAcceptsAfterRedis(events: seq<Event>, b: nat, i: nat, id: nat, n: Node, j: Jti, cfg: Config)
    returns (r: nat)
    requires cfg.enableFallback && i < |events| && Accepts(events, i, cfg)
    requires b <= i && events[b] == VerifyFast(id, n, j, false)
    requires b == i || (events[i] == Proceed(id) && Began(events, b, i, id, n, j, false, cfg))
    ensures b < i && RestsOnRead(events, b, r, i, id, n, j, false, cfg)
  {
    OnlyVerificationsAccept(Run(events[..i], cfg), events[i], cfg);
    var b', healthy;
    b', r, healthy := AcceptsAfterRead(events, i, cfg);
    SameBeginning(events, b, b', i, id, cfg, n, j, false, Run(events[..i], cfg).calls[id].node,
                  Run(events[..i], cfg).calls[id].jti, healthy);
  }

  /** A call going on has begun only once. */
  lemma SameBeginning(events: seq<Event>, b: nat, b': nat, i: nat, id: nat, cfg: Config,
                      n: Node, j: Jti, healthy: bool, n': Node, j': Jti, healthy': bool)
    requires Began(events, b, i, id, n, j, healthy, cfg) && Began(events, b', i, id, n', j', healthy', cfg)
    ensures b == b'
  {
  }
}
