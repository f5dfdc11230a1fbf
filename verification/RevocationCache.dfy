/**
 Session revocation across nodes: a time-limited cache per node, the revocation marks in Redis, and
 invalidations published to the subscribed nodes. One call of the verifier runs to its end in the
 class; in the cluster every access to Redis, to a cache or to the channel is a step of its own, so
 calls, revocations, deliveries and clock ticks of all nodes interleave freely.
 */
module RevocationCache {
  import opened Wrappers

  type Jti = string

  /** `readAt` is when the cached verdict was read from Redis. */
  datatype Entry = Entry(valid: bool, insertedAt: nat, readAt: nat)

  /** A revocation mark: when Redis drops it, and since when the session has been marked without a gap. */
  datatype Mark = Mark(expireAt: nat, since: nat)

  /** Whether a cached verdict is accepted once Redis has been asked too, and whether it is dropped. */
  function CheckedHit(valid: bool, revoked: bool): (bool, bool) {
    (valid && !revoked, revoked == valid)
  }

  function Marked(marks: map<Jti, Mark>, jti: Jti, now: nat): bool {
    jti in marks && now < marks[jti].expireAt
  }

  /** SETEX, which refuses a lifetime of zero. */
  function SetMark(marks: map<Jti, Mark>, jti: Jti, ttl: nat, now: nat): map<Jti, Mark> {
    if ttl == 0 then marks
    else marks[jti := Mark(now + ttl, if Marked(marks, jti, now) then marks[jti].since else now)]
  }

  /** Marking a session marks it for `ttl` seconds from now and touches no other. */
  lemma MarkLasts(marks: map<Jti, Mark>, j: Jti, ttl: nat, now: nat)
    ensures forall k: Jti, later: nat :: Marked(SetMark(marks, j, ttl, now), k, later) <==>
                               if k == j && ttl > 0 then later < now + ttl else Marked(marks, k, later)
  {
  }

  function Cached<K(==)>(cache: map<K, Entry>, k: K, now: nat, ttl: nat): Option<bool> {
    if k in cache && now < cache[k].insertedAt + ttl then Some(cache[k].valid) else None
  }

  // ---------------------------------------------------------------- one node, one call at a time

  class Redis {
    var marks: map<Jti, Mark>

    constructor ()
      ensures marks == map[]
    {
      marks := map[];
    }
  }

  class HybridSessionVerifier {
    var localCache: map<Jti, Entry>
    const redis: Redis
    const cacheTtl: nat
    const enableFallback: bool

    constructor (redis: Redis, cacheTtl: nat, enableFallback: bool)
      ensures localCache == map[] && this.redis == redis
      ensures this.cacheTtl == cacheTtl && this.enableFallback == enableFallback
    {
      localCache := map[];
      this.redis, this.cacheTtl, this.enableFallback := redis, cacheTtl, enableFallback;
    }

    /** Accepted, refused, or an error when Redis is asked and does not answer. */
    method VerifyFast(jti: Jti, healthy: bool, answers: bool, now: nat) returns (accepted: Result<bool, ()>)
      modifies this`localCache
      ensures var hit := Cached(old(localCache), jti, now, cacheTtl);
        var revoked := Marked(redis.marks, jti, now);
        if hit.Some? && !(enableFallback && !healthy) then
          accepted == Ok(hit.value) && localCache == old(localCache)
        else if !answers then
          accepted.Err? && localCache == old(localCache)
        else if hit.None? then
          accepted == Ok(!revoked) && localCache == old(localCache)[jti := Entry(!revoked, now, now)]
        else
          && accepted == Ok(hit.value && !revoked)
          && localCache == (if hit.value == revoked then old(localCache) - {jti} else old(localCache))
    {
      var hit := Cached(localCache, jti, now, cacheTtl);
      if hit.Some? {
        if enableFallback && !healthy {
          var isRevoked := CheckRevocationRedis(jti, answers, now);
          if isRevoked.Err? {
            return Err(());
          }
          if isRevoked.value == hit.value {
            localCache := localCache - {jti};
            if isRevoked.value {
              return Ok(false);
            }
          }
        }
        return Ok(hit.value);
      }
      var isRevoked := CheckRevocationRedis(jti, answers, now);
      if isRevoked.Err? {
        return Err(());
      }
      localCache := localCache[jti := Entry(!isRevoked.value, now, now)];
      return Ok(!isRevoked.value);
    }

    method VerifySecure(jti: Jti, answers: bool, now: nat) returns (accepted: Result<bool, ()>)
      ensures accepted == if answers then Ok(!Marked(redis.marks, jti, now)) else Err(())
    {
      var isRevoked := CheckRevocationRedis(jti, answers, now);
      accepted := if isRevoked.Ok? then Ok(!isRevoked.value) else Err(());
    }

    method CheckRevocationRedis(jti: Jti, answers: bool, now: nat) returns (revoked: Result<bool, ()>)
      ensures revoked == if answers then Ok(Marked(redis.marks, jti, now)) else Err(())
    {
      revoked := if answers then Ok(jti in redis.marks && now < redis.marks[jti].expireAt) else Err(());
    }

    /**
     An acknowledged SETEX marks the session for its lifetime and no other session, from this second on.
     SETEX, the local invalidation, PUBLISH: an error in one leaves out what comes after it, and does not
     tell whether it took effect itself. Redis refuses a lifetime of zero.
     */
    method RevokeSession(jti: Jti, remainingTtl: nat, marking: Reply, publish: Reply, now: nat)
      returns (ok: bool, published: Option<Jti>)
      modifies this`localCache, redis
      ensures redis.marks == if marking.Unreached? then old(redis.marks)
                             else SetMark(old(redis.marks), jti, remainingTtl, now)
      ensures remainingTtl > 0 && marking.Answered? ==>
                forall k: Jti, later: nat :: Marked(redis.marks, k, later) <==>
                                   if k == jti then later < now + remainingTtl else Marked(old(redis.marks), k, later)
      ensures var marked := remainingTtl > 0 && marking.Answered?;
        && localCache == (if marked then old(localCache) - {jti} else old(localCache))
        && published == (if marked && !publish.Unreached? then Some(jti) else None)
        && (ok <==> marked && publish.Answered?)
    {
      if marking == Unreached || remainingTtl == 0 {
        return false, None;
      }
      MarkLasts(redis.marks, jti, remainingTtl, now);
      redis.marks := SetMark(redis.marks, jti, remainingTtl, now);
      if marking == Lost {
        return false, None;
      }
      localCache := localCache - {jti};
      published := if publish == Unreached then None else Some(jti);
      ok := publish == Answered;
    }
  }

  // ---------------------------------------------------------------- the cluster

  type Node = nat

  /** `delay` bounds the time from a Redis read to the insert or return that uses it. */
  datatype Config = Config(cacheTtl: nat, enableFallback: bool, delay: nat, nodes: set<Node>)

  datatype Call =
    | Missed(node: Node, jti: Jti)
    | MissRead(node: Node, jti: Jti, revoked: bool, readAt: nat)
    | MissInserted(node: Node, jti: Jti, revoked: bool, readAt: nat)
    | HitUnhealthy(node: Node, jti: Jti, valid: bool)
    | HitRead(node: Node, jti: Jti, valid: bool, revoked: bool, readAt: nat)

  datatype Revoker = Revoker(node: Node, jti: Jti, invalidated: bool)

  /** An accepted verification, and since when the session had been revoked if it was. */
  datatype Accept = Accept(node: Node, jti: Jti, at: nat, revokedSince: Option<nat>)

  datatype Cluster = Cluster(
    now: nat,
    marks: map<Jti, Mark>,
    caches: map<(Node, Jti), Entry>,
    calls: map<nat, Call>,
    revokers: map<nat, Revoker>,
    subscribed: set<Node>,
    inFlight: multiset<(Node, Jti)>,
    accepts: seq<Accept>)

  datatype Event =
    | Tick(seconds: nat)
    | Revoke(id: nat, node: Node, jti: Jti, ttl: nat)
    | InvalidateLocal(id: nat)
    | Publish(id: nat)
    | PublishFails(id: nat)
    | Deliver(node: Node, jti: Jti)
    | Lose(node: Node, jti: Jti)
    | Subscribe(node: Node)
    | Disconnect(node: Node)
    | Evict(node: Node, jti: Jti)
    | VerifyFast(call: nat, node: Node, jti: Jti, healthy: bool)
    | Proceed(call: nat)
    | RedisFails(call: nat)

  function Initial(cfg: Config): Cluster {
    Cluster(0, map[], map[], map[], map[], cfg.nodes, multiset{}, [])
  }

  predicate Revoked(s: Cluster, jti: Jti) {
    Marked(s.marks, jti, s.now)
  }

  function Accepted(s: Cluster, node: Node, jti: Jti): Cluster {
    s.(accepts := s.accepts + [Accept(node, jti, s.now, if Revoked(s, jti) then Some(s.marks[jti].since) else None)])
  }

  function Messages(nodes: set<Node>, jti: Jti): multiset<(Node, Jti)> {
    multiset(set n | n in nodes :: (n, jti))
  }

  /** A call that has read Redis must go on before `delay` seconds have passed. */
  predicate MayWait(c: Call, until: nat, cfg: Config) {
    match c
    case MissRead(_, _, _, readAt) => until <= readAt + cfg.delay
    case MissInserted(_, _, _, readAt) => until <= readAt + cfg.delay
    case HitRead(_, _, _, _, readAt) => until <= readAt + cfg.delay
    case _ => true
  }

  predicate MayTick(s: Cluster, seconds: nat, cfg: Config) {
    forall id :: id in s.calls ==> MayWait(s.calls[id], s.now + seconds, cfg)
  }

  function Lookup(s: Cluster, id: nat, node: Node, jti: Jti, healthy: bool, cfg: Config): Cluster {
    match Cached(s.caches, (node, jti), s.now, cfg.cacheTtl)
    case None => s.(calls := s.calls[id := Missed(node, jti)])
    case Some(valid) =>
      if cfg.enableFallback && !healthy then s.(calls := s.calls[id := HitUnhealthy(node, jti, valid)])
      else if valid then Accepted(s, node, jti)
      else s
  }

  function Continue(s: Cluster, id: nat): Cluster
    requires id in s.calls
  {
    match s.calls[id]
    case Missed(n, j) => s.(calls := s.calls[id := MissRead(n, j, Revoked(s, j), s.now)])
    case MissRead(n, j, revoked, readAt) =>
      s.(caches := s.caches[(n, j) := Entry(!revoked, s.now, readAt)],
         calls := s.calls[id := MissInserted(n, j, revoked, readAt)])
    case MissInserted(n, j, revoked, _) =>
      var s' := s.(calls := s.calls - {id});
      if revoked then s' else Accepted(s', n, j)
    case HitUnhealthy(n, j, valid) =>
      s.(calls := s.calls[id := HitRead(n, j, valid, Revoked(s, j), s.now)])
    case HitRead(n, j, valid, revoked, _) =>
      var (accept, drop) := CheckedHit(valid, revoked);
      var s' := s.(calls := s.calls - {id}, caches := if drop then s.caches - {(n, j)} else s.caches);
      if accept then Accepted(s', n, j) else s'
  }

  /** One step; an event that is not enabled changes nothing. */
  function Step(s: Cluster, e: Event, cfg: Config): Cluster {
    match e
    case Tick(d) =>
      if MayTick(s, d, cfg) then s.(now := s.now + d) else s
    case Revoke(id, n, j, ttl) =>
      if id in s.revokers || n !in cfg.nodes || ttl == 0 then s
      else s.(marks := SetMark(s.marks, j, ttl, s.now), revokers := s.revokers[id := Revoker(n, j, false)])
    case InvalidateLocal(id) =>
      if id !in s.revokers then s
      else
        var r := s.revokers[id];
        s.(caches := s.caches - {(r.node, r.jti)}, revokers := s.revokers[id := r.(invalidated := true)])
    case Publish(id) =>
      if id !in s.revokers || !s.revokers[id].invalidated then s
      else
        s.(inFlight := s.inFlight + Messages(s.subscribed, s.revokers[id].jti), revokers := s.revokers - {id})
    case PublishFails(id) => s.(revokers := s.revokers - {id})
    case Deliver(n, j) =>
      if (n, j) !in s.inFlight then s
      else s.(inFlight := s.inFlight - multiset{(n, j)}, caches := s.caches - {(n, j)})
    case Lose(n, j) => s.(inFlight := s.inFlight - multiset{(n, j)})
    case Subscribe(n) => if n in cfg.nodes then s.(subscribed := s.subscribed + {n}) else s
    case Disconnect(n) => s.(subscribed := s.subscribed - {n})
    case Evict(n, j) => s.(caches := s.caches - {(n, j)})
    case VerifyFast(id, n, j, healthy) =>
      if id in s.calls || n !in cfg.nodes then s else Lookup(s, id, n, j, healthy, cfg)
    case Proceed(id) => if id in s.calls then Continue(s, id) else s
    case RedisFails(id) => s.(calls := s.calls - {id})
  }

  function Run(events: seq<Event>, cfg: Config): Cluster {
    if events == [] then Initial(cfg)
    else Step(Run(events[..|events| - 1], cfg), events[|events| - 1], cfg)
  }

  // ---------------------------------------------------------------- bounded staleness

  /** A verdict "not revoked" read at `readAt` was read no later than the present mark was set. */
  predicate ReadBefore(s: Cluster, jti: Jti, readAt: nat) {
    readAt <= s.now && (Revoked(s, jti) ==> readAt <= s.marks[jti].since)
  }

  predicate EntryOk(s: Cluster, k: (Node, Jti), e: Entry, cfg: Config) {
    e.insertedAt <= e.readAt + cfg.delay && (e.valid ==> ReadBefore(s, k.1, e.readAt))
  }

  predicate CallOk(s: Cluster, c: Call, cfg: Config) {
    && MayWait(c, s.now, cfg)
    && match c
       case MissRead(_, j, revoked, readAt) => !revoked ==> ReadBefore(s, j, readAt)
       case MissInserted(_, j, revoked, readAt) => !revoked ==> ReadBefore(s, j, readAt)
       case HitRead(_, j, _, revoked, readAt) => !revoked ==> ReadBefore(s, j, readAt)
       case _ => true
  }

  /** Accepted before the mark was `cacheTtl + delay` old, or right after a read that preceded it. */
  predicate Timely(a: Accept, cfg: Config) {
    a.revokedSince.Some? ==>
      a.at < a.revokedSince.value + cfg.cacheTtl + cfg.delay || a.at <= a.revokedSince.value + cfg.delay
  }

  ghost predicate Fresh(s: Cluster, cfg: Config) {
    && (forall j :: j in s.marks ==> s.marks[j].since <= s.now)
    && (forall k :: k in s.caches ==> EntryOk(s, k, s.caches[k], cfg))
    && (forall id :: id in s.calls ==> CallOk(s, s.calls[id], cfg))
    && (forall i :: 0 <= i < |s.accepts| ==> Timely(s.accepts[i], cfg))
  }

  /** Same clock, marks and acceptances, and no new cache entry or call. */
  ghost predicate Shrunk(s: Cluster, s': Cluster) {
    && s'.now == s.now && s'.marks == s.marks && s'.accepts == s.accepts
    && (forall k :: k in s'.caches ==> k in s.caches && s'.caches[k] == s.caches[k])
    && (forall id :: id in s'.calls ==> id in s.calls && s'.calls[id] == s.calls[id])
  }

  lemma ShrunkKeepsFresh(s: Cluster, s': Cluster, cfg: Config)
    requires Fresh(s, cfg) && Shrunk(s, s')
    ensures Fresh(s', cfg)
  {
    forall k | k in s'.caches
      ensures EntryOk(s', k, s'.caches[k], cfg)
    {
      assert EntryOk(s, k, s.caches[k], cfg);
    }
    forall id | id in s'.calls
      ensures CallOk(s', s'.calls[id], cfg)
    {
      assert CallOk(s, s.calls[id], cfg);
    }
  }

  lemma TickKeepsFresh(s: Cluster, d: nat, cfg: Config)
    requires Fresh(s, cfg)
    ensures Fresh(Step(s, Tick(d), cfg), cfg)
  {
    var s' := Step(s, Tick(d), cfg);
    if s' != s {
      forall k | k in s'.caches
        ensures EntryOk(s', k, s'.caches[k], cfg)
      {
        assert EntryOk(s, k, s.caches[k], cfg);
      }
      forall id | id in s'.calls
        ensures CallOk(s', s'.calls[id], cfg)
      {
        assert CallOk(s, s.calls[id], cfg);
        assert MayWait(s.calls[id], s.now + d, cfg);
      }
    }
  }

  /** A new mark is set now, after every read made so far; a live one keeps its beginning. */
  lemma MarkKeepsReadBefore(s: Cluster, j: Jti, ttl: nat, j': Jti, readAt: nat, cfg: Config)
    requires ReadBefore(s, j', readAt) && ttl > 0
    ensures ReadBefore(s.(marks := SetMark(s.marks, j, ttl, s.now)), j', readAt)
  {
  }

  lemma RevokeKeepsFresh(s: Cluster, id: nat, n: Node, j: Jti, ttl: nat, cfg: Config)
    requires Fresh(s, cfg)
    ensures Fresh(Step(s, Revoke(id, n, j, ttl), cfg), cfg)
  {
    var s' := Step(s, Revoke(id, n, j, ttl), cfg);
    if s' != s {
      forall k | k in s'.caches
        ensures EntryOk(s', k, s'.caches[k], cfg)
      {
        assert EntryOk(s, k, s.caches[k], cfg);
        if s.caches[k].valid {
          MarkKeepsReadBefore(s, j, ttl, k.1, s.caches[k].readAt, cfg);
        }
      }
      forall c | c in s'.calls
        ensures CallOk(s', s'.calls[c], cfg)
      {
        assert CallOk(s, s.calls[c], cfg);
        MarkKeepsCall(s, j, ttl, s.calls[c], cfg);
      }
    }
  }

  lemma MarkKeepsCall(s: Cluster, j: Jti, ttl: nat, c: Call, cfg: Config)
    requires CallOk(s, c, cfg) && ttl > 0
    ensures CallOk(s.(marks := SetMark(s.marks, j, ttl, s.now)), c, cfg)
  {
    if (c.MissRead? || c.MissInserted? || c.HitRead?) && !c.revoked {
      MarkKeepsReadBefore(s, j, ttl, c.jti, c.readAt, cfg);
    }
  }

  lemma AcceptKeepsFresh(s: Cluster, n: Node, j: Jti, cfg: Config)
    requires Fresh(s, cfg)
    requires Revoked(s, j) ==>
      s.now < s.marks[j].since + cfg.cacheTtl + cfg.delay || s.now <= s.marks[j].since + cfg.delay
    ensures Fresh(Accepted(s, n, j), cfg)
  {
    var s' := Accepted(s, n, j);
    forall k | k in s'.caches
      ensures EntryOk(s', k, s'.caches[k], cfg)
    {
      assert EntryOk(s, k, s.caches[k], cfg);
    }
    forall c | c in s'.calls
      ensures CallOk(s', s'.calls[c], cfg)
    {
      assert CallOk(s, s.calls[c], cfg);
    }
  }

  lemma CallKeepsFresh(s: Cluster, id: nat, c: Call, cfg: Config)
    requires Fresh(s, cfg) && CallOk(s, c, cfg)
    ensures Fresh(s.(calls := s.calls[id := c]), cfg)
  {
    var s' := s.(calls := s.calls[id := c]);
    forall k | k in s'.caches
      ensures EntryOk(s', k, s'.caches[k], cfg)
    {
      assert EntryOk(s, k, s.caches[k], cfg);
    }
    forall i | i in s'.calls
      ensures CallOk(s', s'.calls[i], cfg)
    {
      assert i != id ==> CallOk(s, s.calls[i], cfg);
    }
  }

  lemma InsertKeepsFresh(s: Cluster, k: (Node, Jti), e: Entry, cfg: Config)
    requires Fresh(s, cfg) && EntryOk(s, k, e, cfg)
    ensures Fresh(s.(caches := s.caches[k := e]), cfg)
  {
    var s' := s.(caches := s.caches[k := e]);
    forall k' | k' in s'.caches
      ensures EntryOk(s', k', s'.caches[k'], cfg)
    {
      assert k' != k ==> EntryOk(s, k', s.caches[k'], cfg);
    }
    forall i | i in s'.calls
      ensures CallOk(s', s'.calls[i], cfg)
    {
      assert CallOk(s, s.calls[i], cfg);
    }
  }

  lemma LookupKeepsFresh(s: Cluster, id: nat, n: Node, j: Jti, healthy: bool, cfg: Config)
    requires Fresh(s, cfg)
    ensures Fresh(Lookup(s, id, n, j, healthy, cfg), cfg)
  {
    CallKeepsFresh(s, id, Missed(n, j), cfg);
    var hit := Cached(s.caches, (n, j), s.now, cfg.cacheTtl);
    if hit.Some? {
      CallKeepsFresh(s, id, HitUnhealthy(n, j, hit.value), cfg);
      assert EntryOk(s, (n, j), s.caches[(n, j)], cfg);
      if hit.value {
        AcceptKeepsFresh(s, n, j, cfg);
      }
    }
  }

  lemma ContinueKeepsFresh(s: Cluster, id: nat, cfg: Config)
    requires Fresh(s, cfg) && id in s.calls
    ensures Fresh(Continue(s, id), cfg)
  {
    var c := s.calls[id];
    assert CallOk(s, c, cfg);
    match c
    case Missed(n, j) => CallKeepsFresh(s, id, MissRead(n, j, Revoked(s, j), s.now), cfg);
    case MissRead(n, j, revoked, readAt) =>
      InsertKeepsFresh(s, (n, j), Entry(!revoked, s.now, readAt), cfg);
      CallKeepsFresh(s.(caches := s.caches[(n, j) := Entry(!revoked, s.now, readAt)]), id,
                     MissInserted(n, j, revoked, readAt), cfg);
    case MissInserted(n, j, revoked, _) => ReturnKeepsFresh(s, s.(calls := s.calls - {id}), c, cfg);
    case HitUnhealthy(n, j, valid) => CallKeepsFresh(s, id, HitRead(n, j, valid, Revoked(s, j), s.now), cfg);
    case HitRead(n, j, valid, revoked, _) =>
      ReturnKeepsFresh(s, s.(calls := s.calls - {id}), c, cfg);
      ReturnKeepsFresh(s, s.(calls := s.calls - {id}, caches := s.caches - {(n, j)}), c, cfg);
  }

  /** A call that returns on an unrevoked read does so within the delay. */
  lemma ReturnKeepsFresh(s: Cluster, s': Cluster, c: Call, cfg: Config)
    requires Fresh(s, cfg) && CallOk(s, c, cfg) && (c.MissInserted? || c.HitRead?)
    requires Shrunk(s, s')
    ensures Fresh(s', cfg)
    ensures !c.revoked ==> Fresh(Accepted(s', c.node, c.jti), cfg)
  {
    ShrunkKeepsFresh(s, s', cfg);
    if !c.revoked {
      AcceptKeepsFresh(s', c.node, c.jti, cfg);
    }
  }

  predicate ByRevoker(e: Event) {
    e.InvalidateLocal? || e.Publish? || e.PublishFails? || e.RedisFails?
  }

  predicate ByNetwork(e: Event) {
    e.Deliver? || e.Lose? || e.Subscribe? || e.Disconnect? || e.Evict?
  }

  lemma RevokerShrinks(s: Cluster, e: Event, cfg: Config)
    requires ByRevoker(e)
    ensures Shrunk(s, Step(s, e, cfg))
  {
    match e
    case InvalidateLocal(id) =>
    case Publish(id) =>
    case PublishFails(id) =>
    case RedisFails(id) =>
  }

  lemma NetworkShrinks(s: Cluster, e: Event, cfg: Config)
    requires ByNetwork(e)
    ensures Shrunk(s, Step(s, e, cfg))
  {
    match e
    case Deliver(n, j) =>
    case Lose(n, j) =>
    case Subscribe(n) =>
    case Disconnect(n) =>
    case Evict(n, j) =>
  }

  // ---------------------------------------------------------------- what a step does to the calls

  /** Call `id` is as it was, or still not there. */
  predicate SameCall(s: Cluster, s': Cluster, id: nat) {
    (id in s'.calls <==> id in s.calls) && (id in s.calls ==> s'.calls[id] == s.calls[id])
  }

  lemma TimeKeepsCalls(s: Cluster, e: Event, cfg: Config)
    requires e.Tick? || e.Revoke?
    ensures Step(s, e, cfg).calls == s.calls
  {
  }

  /** A call that has looked into the cache and not yet asked Redis. */
  predicate Looked(c: Call, n: Node, j: Jti) {
    (c.Missed? || c.HitUnhealthy?) && c.node == n && c.jti == j
  }

  lemma LookupTouchesOwn(s: Cluster, id: nat, n: Node, j: Jti, healthy: bool, other: nat, cfg: Config)
    ensures var s' := Step(s, VerifyFast(id, n, j, healthy), cfg);
      SameCall(s, s', other) || (other == id && id !in s.calls && id in s'.calls && Looked(s'.calls[id], n, j))
  {
    if id !in s.calls {
      LookupCalls(s, id, n, j, healthy, other, cfg);
    }
  }

  lemma LookupCalls(s: Cluster, id: nat, n: Node, j: Jti, healthy: bool, other: nat, cfg: Config)
    requires id !in s.calls
    ensures var s' := Lookup(s, id, n, j, healthy, cfg);
      SameCall(s, s', other) || (other == id && id in s'.calls && Looked(s'.calls[id], n, j))
  {
  }

  lemma ProceedTouchesOwn(s: Cluster, id: nat, other: nat, cfg: Config)
    requires other != id || id !in s.calls
    ensures SameCall(s, Step(s, Proceed(id), cfg), other)
  {
    if id in s.calls {
      match s.calls[id]
      case Missed(_, _) =>
      case MissRead(_, _, _, _) =>
      case MissInserted(_, _, _, _) =>
      case HitUnhealthy(_, _, _) =>
      case HitRead(_, _, _, _, _) =>
    }
  }

  lemma StepKeepsFresh(s: Cluster, e: Event, cfg: Config)
    requires Fresh(s, cfg)
    ensures Fresh(Step(s, e, cfg), cfg)
  {
    if ByRevoker(e) || ByNetwork(e) {
      if ByRevoker(e) {
        RevokerShrinks(s, e, cfg);
      } else {
        NetworkShrinks(s, e, cfg);
      }
      ShrunkKeepsFresh(s, Step(s, e, cfg), cfg);
    } else {
      match e
      case Tick(d) => TickKeepsFresh(s, d, cfg);
      case Revoke(id, n, j, ttl) => RevokeKeepsFresh(s, id, n, j, ttl, cfg);
      case VerifyFast(id, n, j, healthy) => LookupKeepsFresh(s, id, n, j, healthy, cfg);
      case Proceed(id) =>
        if id in s.calls {
          ContinueKeepsFresh(s, id, cfg);
        }
    }
  }

  lemma {:induction false} RunIsFresh(events: seq<Event>, cfg: Config)
    ensures Fresh(Run(events, cfg), cfg)
  {
    if events != [] {
      RunIsFresh(events[..|events| - 1], cfg);
      StepKeepsFresh(Run(events[..|events| - 1], cfg), events[|events| - 1], cfg);
    }
  }

  /**
   Bounded staleness. In every run of any number of nodes, with messages lost or late, nodes
   disconnected and entries evicted: a session that has been marked in Redis without a gap since
   `r` is accepted nowhere at or after r + cacheTtl + delay.
   */
  lemma StalenessIsBounded(events: seq<Event>, cfg: Config, i: nat)
    requires cfg.cacheTtl >= 1 && i < |Run(events, cfg).accepts|
    ensures var a := Run(events, cfg).accepts[i];
      a.revokedSince.Some? ==> a.at < a.revokedSince.value + cfg.cacheTtl + cfg.delay
  {
    RunIsFresh(events, cfg);
    assert Timely(Run(events, cfg).accepts[i], cfg);
  }

  lemma RunSnoc(events: seq<Event>, e: Event, cfg: Config)
    ensures Run(events + [e], cfg) == Step(Run(events, cfg), e, cfg)
  {
    assert (events + [e])[..|events|] == events;
  }

  // ---------------------------------------------------------------- the slowest stale acceptance

  function Reading(n: Node, j: Jti, cfg: Config): Cluster {
    Initial(cfg).(calls := map[0 := MissRead(n, j, false, 0)])
  }

  function Missing(n: Node, j: Jti, cfg: Config): Cluster {
    Initial(cfg).(calls := map[0 := Missed(n, j)])
  }

  lemma LookupMisses(n: Node, j: Jti, cfg: Config)
    requires n in cfg.nodes
    ensures Step(Initial(cfg), VerifyFast(0, n, j, true), cfg) == Missing(n, j, cfg)
  {
  }

  lemma MissReads(n: Node, j: Jti, cfg: Config)
    ensures Step(Missing(n, j, cfg), Proceed(0), cfg) == Reading(n, j, cfg)
  {
    var calls := map[0 := Missed(n, j)];
    assert calls[0 := MissRead(n, j, false, 0)] == map[0 := MissRead(n, j, false, 0)];
  }

  function Overtaken(n: Node, j: Jti, now: nat, cfg: Config): Cluster {
    Reading(n, j, cfg).(now := now, marks := map[j := Mark(cfg.cacheTtl + cfg.delay, 0)],
                        revokers := map[0 := Revoker(n, j, false)])
  }

  lemma MissOvertaken(n: Node, j: Jti, cfg: Config)
    requires cfg.cacheTtl >= 1 && n in cfg.nodes
    ensures Step(Reading(n, j, cfg), Revoke(0, n, j, cfg.cacheTtl + cfg.delay), cfg) == Overtaken(n, j, 0, cfg)
  {
  }

  lemma Waits(s: Cluster, d: nat, cfg: Config)
    requires forall id :: id in s.calls ==> MayWait(s.calls[id], s.now + d, cfg)
    ensures Step(s, Tick(d), cfg) == s.(now := s.now + d)
  {
  }

  function StaleEntry(n: Node, j: Jti, cfg: Config): Cluster {
    Overtaken(n, j, cfg.delay, cfg).(caches := map[(n, j) := Entry(true, cfg.delay, 0)],
                                     calls := map[0 := MissInserted(n, j, false, 0)])
  }

  lemma MissInserts(n: Node, j: Jti, cfg: Config)
    ensures Step(Overtaken(n, j, cfg.delay, cfg), Proceed(0), cfg) == StaleEntry(n, j, cfg)
  {
    var calls := map[0 := MissRead(n, j, false, 0)];
    assert calls[0 := MissInserted(n, j, false, 0)] == map[0 := MissInserted(n, j, false, 0)];
  }

  function ReturnedStale(n: Node, j: Jti, now: nat, cfg: Config): Cluster {
    StaleEntry(n, j, cfg).(now := now, calls := map[], accepts := [Accept(n, j, cfg.delay, Some(0))])
  }

  lemma MissReturns(n: Node, j: Jti, cfg: Config)
    requires cfg.cacheTtl >= 1
    ensures Step(StaleEntry(n, j, cfg), Proceed(0), cfg) == ReturnedStale(n, j, cfg.delay, cfg)
  {
    var s := StaleEntry(n, j, cfg);
    assert s.calls - {0} == map[];
    assert Revoked(s, j) && s.marks[j].since == 0;
  }

  lemma StaleHit(n: Node, j: Jti, cfg: Config)
    requires cfg.cacheTtl >= 1 && n in cfg.nodes
    ensures var s := ReturnedStale(n, j, cfg.delay + (cfg.cacheTtl - 1), cfg);
      Step(s, VerifyFast(1, n, j, true), cfg) == Accepted(s, n, j) && Revoked(s, j) && s.marks[j].since == 0
  {
    var s := ReturnedStale(n, j, cfg.delay + (cfg.cacheTtl - 1), cfg);
    var hit := Cached(s.caches, (n, j), s.now, cfg.cacheTtl);
    assert hit.Some? && hit.value;
  }

  /** The state after one more event of a run. */
  lemma Follows(events: seq<Event>, i: nat, s: Cluster, s': Cluster, cfg: Config)
    requires i < |events| && Run(events[..i], cfg) == s && Step(s, events[i], cfg) == s'
    ensures Run(events[..i + 1], cfg) == s'
  {
    assert events[..i + 1][..i] == events[..i];
  }

  lemma Then(events: seq<Event>, e: Event, s: Cluster, cfg: Config)
    requires Step(Run(events, cfg), e, cfg) == s
    ensures Run(events + [e], cfg) == s
  {
    RunSnoc(events, e, cfg);
  }

  function EarlyRead(n: Node, j: Jti): seq<Event> {
    [] + [VerifyFast(0, n, j, true)] + [Proceed(0)]
  }

  lemma EarlyReadRuns(n: Node, j: Jti, cfg: Config)
    requires n in cfg.nodes
    ensures Run(EarlyRead(n, j), cfg) == Reading(n, j, cfg)
  {
    LookupMisses(n, j, cfg);
    Then([], VerifyFast(0, n, j, true), Missing(n, j, cfg), cfg);
    MissReads(n, j, cfg);
    Then([] + [VerifyFast(0, n, j, true)], Proceed(0), Reading(n, j, cfg), cfg);
  }

  /** A miss that reads just before the mark is set ... */
  function LateRead(n: Node, j: Jti, cfg: Config): seq<Event> {
    EarlyRead(n, j) + [Revoke(0, n, j, cfg.cacheTtl + cfg.delay)]
  }

  lemma LateReadRuns(n: Node, j: Jti, cfg: Config)
    requires cfg.cacheTtl >= 1 && n in cfg.nodes
    ensures Run(LateRead(n, j, cfg), cfg) == Overtaken(n, j, 0, cfg)
  {
    EarlyReadRuns(n, j, cfg);
    MissOvertaken(n, j, cfg);
    Then(EarlyRead(n, j), Revoke(0, n, j, cfg.cacheTtl + cfg.delay), Overtaken(n, j, 0, cfg), cfg);
  }

  /** ... and inserts as late as it may. */
  function LateInsert(n: Node, j: Jti, cfg: Config): seq<Event> {
    LateRead(n, j, cfg) + [Tick(cfg.delay)] + [Proceed(0)]
  }

  lemma LateInsertRuns(n: Node, j: Jti, cfg: Config)
    requires cfg.cacheTtl >= 1 && n in cfg.nodes
    ensures Run(LateInsert(n, j, cfg), cfg) == StaleEntry(n, j, cfg)
  {
    LateReadRuns(n, j, cfg);
    Waits(Overtaken(n, j, 0, cfg), cfg.delay, cfg);
    Then(LateRead(n, j, cfg), Tick(cfg.delay), Overtaken(n, j, cfg.delay, cfg), cfg);
    MissInserts(n, j, cfg);
    Then(LateRead(n, j, cfg) + [Tick(cfg.delay)], Proceed(0), StaleEntry(n, j, cfg), cfg);
  }

  function LateReturn(n: Node, j: Jti, cfg: Config): seq<Event>
    requires cfg.cacheTtl >= 1
  {
    LateInsert(n, j, cfg) + [Proceed(0)] + [Tick(cfg.cacheTtl - 1)]
  }

  lemma LateReturnRuns(n: Node, j: Jti, cfg: Config)
    requires cfg.cacheTtl >= 1 && n in cfg.nodes
    ensures Run(LateReturn(n, j, cfg), cfg) == ReturnedStale(n, j, cfg.delay + (cfg.cacheTtl - 1), cfg)
  {
    LateInsertRuns(n, j, cfg);
    MissReturns(n, j, cfg);
    Then(LateInsert(n, j, cfg), Proceed(0), ReturnedStale(n, j, cfg.delay, cfg), cfg);
    Waits(ReturnedStale(n, j, cfg.delay, cfg), cfg.cacheTtl - 1, cfg);
    Then(LateInsert(n, j, cfg) + [Proceed(0)], Tick(cfg.cacheTtl - 1),
         ReturnedStale(n, j, cfg.delay + (cfg.cacheTtl - 1), cfg), cfg);
  }

  /** The slowest stale acceptance of one node: the entry is found again in its last second. */
  function SlowMiss(n: Node, j: Jti, cfg: Config): seq<Event>
    requires cfg.cacheTtl >= 1
  {
    LateReturn(n, j, cfg) + [VerifyFast(1, n, j, true)]
  }

  /** The bound is exact: an acceptance one second before it is possible. */
  lemma StalenessBoundIsReached(n: Node, j: Jti, cfg: Config)
    requires cfg.cacheTtl >= 1 && n in cfg.nodes
    ensures var accepts := Run(SlowMiss(n, j, cfg), cfg).accepts;
      && accepts != []
      && accepts[|accepts| - 1] == Accept(n, j, cfg.cacheTtl + cfg.delay - 1, Some(0))
  {
    LateReturnRuns(n, j, cfg);
    RunSnoc(LateReturn(n, j, cfg), VerifyFast(1, n, j, true), cfg);
    StaleHit(n, j, cfg);
  }
}
