/**
 Coherence of the node caches with Redis when no message is lost: which steps keep it, the one
 that can break it, and what it gives once the messages have arrived.
 */
module RevocationCoherence {
  import opened Wrappers
  import opened RevocationCache

  ghost predicate Unpublished(s: Cluster, jti: Jti) {
    exists id :: id in s.revokers && s.revokers[id].jti == jti
  }

  /** An invalidation of `jti` is on its way to the node, or will be published. */
  ghost predicate Announced(s: Cluster, node: Node, jti: Jti) {
    (node, jti) in s.inFlight || Unpublished(s, jti)
  }

  ghost predicate Coherent(s: Cluster) {
    forall n, j :: (n, j) in s.caches && s.caches[(n, j)].valid && Revoked(s, j) ==> Announced(s, n, j)
  }

  /** Every node is subscribed, and only nodes cache. */
  ghost predicate Connected(s: Cluster, cfg: Config) {
    && s.subscribed == cfg.nodes
    && (forall n, j :: (n, j) in s.caches ==> n in cfg.nodes)
    && (forall id :: id in s.calls ==> s.calls[id].node in cfg.nodes)
  }

  /** No message, subscription or publication is lost. */
  predicate Reliable(e: Event) {
    !e.Lose? && !e.Disconnect? && !e.PublishFails?
  }

  /** A miss that read "not revoked" is about to insert that verdict for a session revoked since. */
  ghost predicate StaleInsert(s: Cluster, e: Event) {
    && e.Proceed? && e.call in s.calls
    && var c := s.calls[e.call];
       c.MissRead? && !c.revoked && Revoked(s, c.jti) && !Announced(s, c.node, c.jti)
  }

  lemma Shrinks(s: Cluster, e: Event, cfg: Config)
    requires ByRevoker(e) || ByNetwork(e)
    ensures Shrunk(s, Step(s, e, cfg))
  {
    if ByRevoker(e) {
      RevokerShrinks(s, e, cfg);
    } else {
      NetworkShrinks(s, e, cfg);
    }
  }

  lemma StepKeepsConnected(s: Cluster, e: Event, cfg: Config)
    requires Connected(s, cfg) && Reliable(e)
    ensures Connected(Step(s, e, cfg), cfg)
  {
    if ByRevoker(e) || ByNetwork(e) {
      Shrinks(s, e, cfg);
    } else if e.Proceed? {
      ProceedKeepsConnected(s, e.call, cfg);
    } else {
      match e
      case Tick(_) =>
      case Revoke(_, _, _, _) =>
      case VerifyFast(_, _, _, _) =>
    }
  }

  lemma ProceedKeepsConnected(s: Cluster, id: nat, cfg: Config)
    requires Connected(s, cfg)
    ensures Connected(Step(s, Proceed(id), cfg), cfg)
  {
    if id in s.calls {
      assert s.calls[id].node in cfg.nodes;
    }
  }

  // ---------------------------------------------------------------- one step

  lemma TickCoherent(s: Cluster, d: nat, cfg: Config)
    requires Coherent(s)
    ensures Coherent(Step(s, Tick(d), cfg))
  {
    var s' := Step(s, Tick(d), cfg);
    forall n, j | (n, j) in s'.caches && s'.caches[(n, j)].valid && Revoked(s', j)
      ensures Announced(s', n, j)
    {
      assert Announced(s, n, j);
    }
  }

  lemma RevokeCoherent(s: Cluster, id: nat, node: Node, jti: Jti, ttl: nat, cfg: Config)
    requires Coherent(s)
    ensures Coherent(Step(s, Revoke(id, node, jti, ttl), cfg))
  {
    var s' := Step(s, Revoke(id, node, jti, ttl), cfg);
    if s' != s {
      forall n, j | (n, j) in s'.caches && s'.caches[(n, j)].valid && Revoked(s', j)
        ensures Announced(s', n, j)
      {
        if j == jti {
          assert s'.revokers[id].jti == j;
        } else {
          StillAnnounced(s, s', n, j);
        }
      }
    }
  }

  /** More messages and revokers announce no less. */
  lemma StillAnnounced(s: Cluster, s': Cluster, n: Node, j: Jti)
    requires Announced(s, n, j)
    requires (n, j) in s.inFlight ==> (n, j) in s'.inFlight
    requires forall id :: id in s.revokers ==> id in s'.revokers && s'.revokers[id].jti == s.revokers[id].jti
    ensures Announced(s', n, j)
  {
    if (n, j) !in s.inFlight {
      var id :| id in s.revokers && s.revokers[id].jti == j;
      assert s'.revokers[id].jti == j;
    }
  }

  lemma InvalidateCoherent(s: Cluster, id: nat, cfg: Config)
    requires Coherent(s)
    ensures Coherent(Step(s, InvalidateLocal(id), cfg))
  {
    var s' := Step(s, InvalidateLocal(id), cfg);
    forall n, j | (n, j) in s'.caches && s'.caches[(n, j)].valid && Revoked(s', j)
      ensures Announced(s', n, j)
    {
      StillAnnounced(s, s', n, j);
    }
  }

  lemma Broadcast(nodes: set<Node>, jti: Jti, n: Node)
    requires n in nodes
    ensures (n, jti) in Messages(nodes, jti)
  {
    assert (n, jti) in set m | m in nodes :: (m, jti);
  }

  lemma PublishCoherent(s: Cluster, id: nat, cfg: Config)
    requires Coherent(s) && Connected(s, cfg)
    ensures Coherent(Step(s, Publish(id), cfg))
  {
    var s' := Step(s, Publish(id), cfg);
    if s' != s {
      var jti := s.revokers[id].jti;
      forall n, j | (n, j) in s'.caches && s'.caches[(n, j)].valid && Revoked(s', j)
        ensures Announced(s', n, j)
      {
        assert Announced(s, n, j);
        if j == jti {
          Broadcast(s.subscribed, jti, n);
        } else if (n, j) !in s.inFlight {
          var other :| other in s.revokers && s.revokers[other].jti == j;
          assert s'.revokers[other].jti == j;
        }
      }
    }
  }

  lemma DeliverCoherent(s: Cluster, node: Node, jti: Jti, cfg: Config)
    requires Coherent(s)
    ensures Coherent(Step(s, Deliver(node, jti), cfg))
  {
    var s' := Step(s, Deliver(node, jti), cfg);
    if s' != s {
      forall n, j | (n, j) in s'.caches && s'.caches[(n, j)].valid && Revoked(s', j)
        ensures Announced(s', n, j)
      {
        assert (n, j) != (node, jti);
        StillAnnounced(s, s', n, j);
      }
    }
  }

  /** Same clock, marks, messages and revokers, and no new cache entry. */
  lemma FewerEntriesCoherent(s: Cluster, s': Cluster)
    requires Coherent(s)
    requires s'.now == s.now && s'.marks == s.marks && s'.inFlight == s.inFlight && s'.revokers == s.revokers
    requires forall k :: k in s'.caches ==> k in s.caches && s'.caches[k] == s.caches[k]
    ensures Coherent(s')
  {
    forall n, j | (n, j) in s'.caches && s'.caches[(n, j)].valid && Revoked(s', j)
      ensures Announced(s', n, j)
    {
      StillAnnounced(s, s', n, j);
    }
  }

  lemma InsertCoherentIff(s: Cluster, id: nat, cfg: Config)
    requires Coherent(s) && id in s.calls && s.calls[id].MissRead?
    ensures Coherent(Step(s, Proceed(id), cfg)) <==> !StaleInsert(s, Proceed(id))
  {
    var c := s.calls[id];
    var s' := Step(s, Proceed(id), cfg);
    assert s'.revokers == s.revokers && s'.inFlight == s.inFlight;
    if StaleInsert(s, Proceed(id)) {
      assert s'.caches[(c.node, c.jti)].valid && Revoked(s', c.jti);
      assert !Announced(s', c.node, c.jti) by {
        assert Unpublished(s', c.jti) <==> Unpublished(s, c.jti);
      }
    } else {
      forall n, j | (n, j) in s'.caches && s'.caches[(n, j)].valid && Revoked(s', j)
        ensures Announced(s', n, j)
      {
        assert Announced(s, n, j);
        StillAnnounced(s, s', n, j);
      }
    }
  }

  /** Every other step of a call only drops entries. */
  lemma OtherProceedsDrop(s: Cluster, id: nat)
    requires id in s.calls && !s.calls[id].MissRead?
    ensures var s' := Continue(s, id);
      && s'.now == s.now && s'.marks == s.marks && s'.inFlight == s.inFlight && s'.revokers == s.revokers
      && forall k :: k in s'.caches ==> k in s.caches && s'.caches[k] == s.caches[k]
  {
    match s.calls[id]
    case Missed(_, _) =>
    case MissInserted(_, _, _, _) =>
    case HitUnhealthy(_, _, _) =>
    case HitRead(_, _, _, _, _) =>
  }

  lemma ProceedCoherentIff(s: Cluster, id: nat, cfg: Config)
    requires Coherent(s)
    ensures Coherent(Step(s, Proceed(id), cfg)) <==> !StaleInsert(s, Proceed(id))
  {
    if id in s.calls {
      if s.calls[id].MissRead? {
        InsertCoherentIff(s, id, cfg);
      } else {
        OtherProceedsDrop(s, id);
        FewerEntriesCoherent(s, Continue(s, id));
      }
    }
  }

  /**
   Without losses, a step of a coherent cluster leaves it coherent unless a miss inserts a verdict
   that has been overtaken by a revocation whose invalidation the node has already had.
   */
  lemma StepCoherentIff(s: Cluster, e: Event, cfg: Config)
    requires Coherent(s) && Connected(s, cfg) && Reliable(e)
    ensures Coherent(Step(s, e, cfg)) <==> !StaleInsert(s, e)
  {
    match e
    case Tick(d) => TickCoherent(s, d, cfg);
    case Revoke(id, n, j, ttl) => RevokeCoherent(s, id, n, j, ttl, cfg);
    case InvalidateLocal(id) => InvalidateCoherent(s, id, cfg);
    case Publish(id) => PublishCoherent(s, id, cfg);
    case Deliver(n, j) => DeliverCoherent(s, n, j, cfg);
    case Proceed(id) => ProceedCoherentIff(s, id, cfg);
    case _ => QuietStepCoherent(s, e, cfg);
  }

  lemma LookupKeepsStores(s: Cluster, id: nat, n: Node, j: Jti, healthy: bool, cfg: Config)
    ensures var s' := Lookup(s, id, n, j, healthy, cfg);
      && s'.now == s.now && s'.marks == s.marks && s'.inFlight == s.inFlight && s'.revokers == s.revokers
      && s'.caches == s.caches
  {
    var hit := Cached(s.caches, (n, j), s.now, cfg.cacheTtl);
    assert hit.None? || hit.Some?;
  }

  lemma QuietStepCoherent(s: Cluster, e: Event, cfg: Config)
    requires Coherent(s) && (e.Subscribe? || e.Evict? || e.VerifyFast? || e.RedisFails?)
    ensures Coherent(Step(s, e, cfg))
  {
    if e.VerifyFast? {
      LookupKeepsStores(s, e.call, e.node, e.jti, e.healthy, cfg);
      FewerEntriesCoherent(s, Lookup(s, e.call, e.node, e.jti, e.healthy, cfg));
    } else {
      var s' := Step(s, e, cfg);
      assert forall k :: k in s'.caches ==> k in s.caches && s'.caches[k] == s.caches[k];
      FewerEntriesCoherent(s, s');
    }
  }

  // ---------------------------------------------------------------- whole runs

  predicate AllReliable(events: seq<Event>) {
    forall i :: 0 <= i < |events| ==> Reliable(events[i])
  }

  /** While a miss has read but not inserted, nothing else happens: read and insert are one step. */
  ghost predicate Prompt(events: seq<Event>, cfg: Config) {
    events == [] ||
    var rest := events[..|events| - 1];
    var s := Run(rest, cfg);
    && Prompt(rest, cfg)
    && forall id :: id in s.calls && s.calls[id].MissRead? ==> events[|events| - 1] == Proceed(id)
  }

  /** A verdict that waits to be inserted is the present one. */
  ghost predicate Current(s: Cluster) {
    forall id :: id in s.calls && s.calls[id].MissRead? ==> s.calls[id].revoked == Revoked(s, s.calls[id].jti)
  }

  lemma PromptStepCurrent(s: Cluster, e: Event, cfg: Config)
    requires forall id :: id in s.calls && s.calls[id].MissRead? ==> e == Proceed(id)
    ensures Current(Step(s, e, cfg))
  {
    var s' := Step(s, e, cfg);
    forall id | id in s'.calls && s'.calls[id].MissRead?
      ensures s'.calls[id].revoked == Revoked(s', s'.calls[id].jti)
    {
      if !(id in s.calls && s.calls[id].MissRead?) {
        NewMissRead(s, e, id, cfg);
      }
    }
  }

  /** Only a step of the call itself makes it a miss that has read. */
  lemma NewMissRead(s: Cluster, e: Event, id: nat, cfg: Config)
    requires id in Step(s, e, cfg).calls && Step(s, e, cfg).calls[id].MissRead?
    requires !(id in s.calls && s.calls[id].MissRead?)
    ensures e == Proceed(id) && id in s.calls && s.calls[id].Missed?
  {
    if ByRevoker(e) || ByNetwork(e) {
      Shrinks(s, e, cfg);
    } else {
      match e
      case Tick(_) => TimeKeepsCalls(s, e, cfg);
      case Revoke(_, _, _, _) => TimeKeepsCalls(s, e, cfg);
      case VerifyFast(other, n, j, healthy) => LookupTouchesOwn(s, other, n, j, healthy, id, cfg);
      case Proceed(other) =>
        if other != id || id !in s.calls {
          ProceedTouchesOwn(s, other, id, cfg);
        }
    }
  }

  /**
   With read and insert of a miss as one step and no message lost, every reachable state is
   coherent: a node that caches a revoked session as valid still has its invalidation to come.
   */
  lemma {:induction false} PromptRunsAreCoherent(events: seq<Event>, cfg: Config)
    requires AllReliable(events) && Prompt(events, cfg)
    ensures var s := Run(events, cfg); Coherent(s) && Connected(s, cfg) && Current(s)
  {
    if events != [] {
      var rest, e := events[..|events| - 1], events[|events| - 1];
      var s := Run(rest, cfg);
      assert forall i :: 0 <= i < |rest| ==> Reliable(rest[i]) by {
        assert forall i :: 0 <= i < |rest| ==> rest[i] == events[i];
      }
      PromptRunsAreCoherent(rest, cfg);
      assert !StaleInsert(s, e);
      StepKeepsConnected(s, e, cfg);
      StepCoherentIff(s, e, cfg);
      PromptStepCurrent(s, e, cfg);
    }
  }

  // ---------------------------------------------------------------- what coherence gives

  predicate Quiescent(s: Cluster) {
    s.inFlight == multiset{} && s.revokers == map[]
  }

  /** What a `verify_fast` answers when nothing else happens until it returns. */
  function FastAccepts(s: Cluster, n: Node, j: Jti, healthy: bool, cfg: Config): bool {
    match Cached(s.caches, (n, j), s.now, cfg.cacheTtl)
    case None => !Revoked(s, j)
    case Some(valid) =>
      valid && (cfg.enableFallback && !healthy ==> !Revoked(s, j))
  }

  function Proceeds(s: Cluster, id: nat, n: nat, cfg: Config): Cluster {
    if n == 0 then s else Step(Proceeds(s, id, n - 1, cfg), Proceed(id), cfg)
  }

  /** The cache of a node after a `verify_fast` that nothing interrupts. */
  function CacheAfter(s: Cluster, n: Node, j: Jti, healthy: bool, cfg: Config): map<(Node, Jti), Entry> {
    match Cached(s.caches, (n, j), s.now, cfg.cacheTtl)
    case None => s.caches[(n, j) := Entry(!Revoked(s, j), s.now, s.now)]
    case Some(valid) =>
      if cfg.enableFallback && !healthy && valid == Revoked(s, j) then s.caches - {(n, j)} else s.caches
  }

  predicate WholeCall(s: Cluster, s': Cluster, n: Node, j: Jti, healthy: bool, cfg: Config) {
    && |s'.accepts| == |s.accepts| + (if FastAccepts(s, n, j, healthy, cfg) then 1 else 0)
    && s'.caches == CacheAfter(s, n, j, healthy, cfg)
    && s'.calls == s.calls
  }

  lemma MissIsWhole(s: Cluster, id: nat, n: Node, j: Jti, healthy: bool, cfg: Config)
    requires id !in s.calls && Cached(s.caches, (n, j), s.now, cfg.cacheTtl).None?
    ensures WholeCall(s, Proceeds(Lookup(s, id, n, j, healthy, cfg), id, 3, cfg), n, j, healthy, cfg)
  {
    ThreeProceeds(Lookup(s, id, n, j, healthy, cfg), id, cfg);
    WholeMiss(s, id, n, j, cfg);
  }

  lemma CheckedHitIsWhole(s: Cluster, id: nat, n: Node, j: Jti, healthy: bool, cfg: Config)
    requires id !in s.calls && Cached(s.caches, (n, j), s.now, cfg.cacheTtl).Some? && cfg.enableFallback && !healthy
    ensures WholeCall(s, Proceeds(Lookup(s, id, n, j, healthy, cfg), id, 3, cfg), n, j, healthy, cfg)
  {
    ThreeProceeds(Lookup(s, id, n, j, healthy, cfg), id, cfg);
    WholeCheckedHit(s, id, n, j, Cached(s.caches, (n, j), s.now, cfg.cacheTtl).value, cfg);
  }

  lemma PlainHitIsWhole(s: Cluster, id: nat, n: Node, j: Jti, healthy: bool, cfg: Config)
    requires id !in s.calls && Cached(s.caches, (n, j), s.now, cfg.cacheTtl).Some? && !(cfg.enableFallback && !healthy)
    ensures WholeCall(s, Proceeds(Lookup(s, id, n, j, healthy, cfg), id, 3, cfg), n, j, healthy, cfg)
  {
    ThreeProceeds(Lookup(s, id, n, j, healthy, cfg), id, cfg);
  }

  /** The steps of a call that nothing interrupts make up the whole call. */
  lemma UninterruptedVerify(s: Cluster, id: nat, n: Node, j: Jti, healthy: bool, cfg: Config)
    requires id !in s.calls && n in cfg.nodes
    ensures var s' := Proceeds(Step(s, VerifyFast(id, n, j, healthy), cfg), id, 3, cfg);
      && |s'.accepts| == |s.accepts| + (if FastAccepts(s, n, j, healthy, cfg) then 1 else 0)
      && s'.caches == CacheAfter(s, n, j, healthy, cfg)
      && s'.calls == s.calls
  {
    if Cached(s.caches, (n, j), s.now, cfg.cacheTtl).None? {
      MissIsWhole(s, id, n, j, healthy, cfg);
    } else if cfg.enableFallback && !healthy {
      CheckedHitIsWhole(s, id, n, j, healthy, cfg);
    } else {
      PlainHitIsWhole(s, id, n, j, healthy, cfg);
    }
  }

  /** While pub/sub is unhealthy, a session that is cached as valid and not marked is accepted, and stays cached. */
  lemma UnmarkedIsAccepted(s: Cluster, id: nat, n: Node, j: Jti, cfg: Config)
    requires id !in s.calls && n in cfg.nodes && !Revoked(s, j)
    requires var hit := Cached(s.caches, (n, j), s.now, cfg.cacheTtl); hit.Some? && hit.value
    ensures var s' := Proceeds(Step(s, VerifyFast(id, n, j, false), cfg), id, 3, cfg);
      |s'.accepts| == |s.accepts| + 1 && s'.caches == s.caches && s'.calls == s.calls
  {
    UninterruptedVerify(s, id, n, j, false, cfg);
  }

  /** What a node has forgotten it asks Redis for, however healthy the channel. */
  lemma ForgottenIsAsked(s: Cluster, n: Node, j: Jti, healthy: bool, told: bool, cfg: Config)
    requires told ==> (n, j) in s.inFlight
    ensures var s' := Step(s, if told then Deliver(n, j) else Evict(n, j), cfg);
      FastAccepts(s', n, j, healthy, cfg) <==> SecureAccepts(s', j)
  {
  }

  /** The steps of a revocation that nothing interrupts are the whole revocation, whether its PUBLISH arrives or not. */
  lemma UninterruptedRevoke(s: Cluster, id: nat, n: Node, j: Jti, ttl: nat, published: bool, cfg: Config)
    requires id !in s.revokers && n in cfg.nodes && ttl > 0
    ensures var local := Step(Step(s, Revoke(id, n, j, ttl), cfg), InvalidateLocal(id), cfg);
      var s' := Step(local, if published then Publish(id) else PublishFails(id), cfg);
      && s'.marks == SetMark(s.marks, j, ttl, s.now) && s'.caches == s.caches - {(n, j)}
      && s'.inFlight == (if published then s.inFlight + Messages(s.subscribed, j) else s.inFlight)
      && s'.revokers == s.revokers && s'.calls == s.calls && s'.accepts == s.accepts && s'.subscribed == s.subscribed
  {
    var local := Step(Step(s, Revoke(id, n, j, ttl), cfg), InvalidateLocal(id), cfg);
    assert id in local.revokers && local.revokers[id] == Revoker(n, j, true);
    assert local.revokers - {id} == s.revokers;
  }

  /** A node that is subscribed is told of what is published, one that is not is not told. */
  lemma SubscribersAreTold(s: Cluster, id: nat, n: Node, cfg: Config)
    requires id in s.revokers && s.revokers[id].invalidated && n in cfg.nodes
    ensures var j := s.revokers[id].jti;
      && Step(Step(s, Subscribe(n), cfg), Publish(id), cfg).inFlight[(n, j)] == s.inFlight[(n, j)] + 1
      && Step(Step(s, Disconnect(n), cfg), Publish(id), cfg).inFlight[(n, j)] == s.inFlight[(n, j)]
  {
  }

  lemma ThreeProceeds(s: Cluster, id: nat, cfg: Config)
    ensures Proceeds(s, id, 3, cfg)
         == Step(Step(Step(s, Proceed(id), cfg), Proceed(id), cfg), Proceed(id), cfg)
  {
    assert Proceeds(s, id, 1, cfg) == Step(s, Proceed(id), cfg);
    assert Proceeds(s, id, 2, cfg) == Step(Step(s, Proceed(id), cfg), Proceed(id), cfg);
  }

  lemma WholeMiss(s: Cluster, id: nat, n: Node, j: Jti, cfg: Config)
    requires id !in s.calls
    ensures var s0 := s.(calls := s.calls[id := Missed(n, j)]);
      var s' := Step(Step(Step(s0, Proceed(id), cfg), Proceed(id), cfg), Proceed(id), cfg);
      && |s'.accepts| == |s.accepts| + (if Revoked(s, j) then 0 else 1)
      && s'.caches == s.caches[(n, j) := Entry(!Revoked(s, j), s.now, s.now)]
      && s'.calls == s.calls
  {
    var s0 := s.(calls := s.calls[id := Missed(n, j)]);
    var s1 := Continue(s0, id);
    assert s1.calls[id] == MissRead(n, j, Revoked(s, j), s.now);
    var s2 := Continue(s1, id);
    assert s2.calls[id] == MissInserted(n, j, Revoked(s, j), s.now);
    assert s2.calls - {id} == s.calls;
  }

  lemma HitReads(s: Cluster, id: nat, n: Node, j: Jti, valid: bool, cfg: Config)
    ensures Step(s.(calls := s.calls[id := HitUnhealthy(n, j, valid)]), Proceed(id), cfg) ==
            s.(calls := s.calls[id := HitRead(n, j, valid, Revoked(s, j), s.now)])
  {
    var s0 := s.(calls := s.calls[id := HitUnhealthy(n, j, valid)]);
    assert s0.calls[id := HitRead(n, j, valid, Revoked(s, j), s.now)] ==
           s.calls[id := HitRead(n, j, valid, Revoked(s, j), s.now)];
  }

  lemma HitReturns(s: Cluster, id: nat, n: Node, j: Jti, valid: bool, readAt: nat, cfg: Config)
    requires id !in s.calls
    ensures var revoked := Revoked(s, j);
      var s' := Step(s.(calls := s.calls[id := HitRead(n, j, valid, revoked, readAt)]), Proceed(id), cfg);
      var (accept, drop) := CheckedHit(valid, revoked);
      && |s'.accepts| == |s.accepts| + (if accept then 1 else 0)
      && s'.caches == (if drop then s.caches - {(n, j)} else s.caches)
      && s'.calls == s.calls
  {
    assert s.calls[id := HitRead(n, j, valid, Revoked(s, j), readAt)] - {id} == s.calls;
  }

  lemma WholeCheckedHit(s: Cluster, id: nat, n: Node, j: Jti, valid: bool, cfg: Config)
    requires id !in s.calls
    ensures var s0 := s.(calls := s.calls[id := HitUnhealthy(n, j, valid)]);
      var s' := Step(Step(Step(s0, Proceed(id), cfg), Proceed(id), cfg), Proceed(id), cfg);
      var (accept, drop) := CheckedHit(valid, Revoked(s, j));
      && |s'.accepts| == |s.accepts| + (if accept then 1 else 0)
      && s'.caches == (if drop then s.caches - {(n, j)} else s.caches)
      && s'.calls == s.calls
  {
    HitReads(s, id, n, j, valid, cfg);
    HitReturns(s, id, n, j, valid, s.now, cfg);
  }

  predicate SecureAccepts(s: Cluster, j: Jti) {
    !Revoked(s, j)
  }

  /** Once every invalidation has arrived, the fast check accepts nothing the secure one rejects. */
  lemma QuietFastIsSecure(events: seq<Event>, cfg: Config, n: Node, j: Jti, healthy: bool)
    requires AllReliable(events) && Prompt(events, cfg) && Quiescent(Run(events, cfg))
    requires FastAccepts(Run(events, cfg), n, j, healthy, cfg)
    ensures SecureAccepts(Run(events, cfg), j)
  {
    PromptRunsAreCoherent(events, cfg);
    var s := Run(events, cfg);
    assert !Announced(s, n, j);
    assert (n, j) in s.caches && s.caches[(n, j)].valid ==> !Revoked(s, j);
  }

  // ---------------------------------------------------------------- the step that breaks it

  const RACE: seq<Event> := [
    VerifyFast(0, 0, "jti", true), Proceed(0),
    Revoke(0, 0, "jti", 100), InvalidateLocal(0), Publish(0), Deliver(0, "jti"),
    Proceed(0)]

  const ONE_NODE := Config(60, true, 5, {0})

  /** The miss has read, and the session is marked since; what the race still changes are parameters. */
  function Overtaken(revokers: map<nat, Revoker>, inFlight: multiset<(Node, Jti)>): Cluster {
    Initial(ONE_NODE).(calls := map[0 := MissRead(0, "jti", false, 0)], marks := map["jti" := Mark(100, 0)],
                       revokers := revokers, inFlight := inFlight)
  }

  lemma RaceRevokes()
    ensures Run(RACE[..3], ONE_NODE) == Overtaken(map[0 := Revoker(0, "jti", false)], multiset{})
  {
    assert RACE[..0] == [];
    var s0 := Initial(ONE_NODE);
    var s1 := s0.(calls := map[0 := Missed(0, "jti")]);
    Follows(RACE, 0, s0, s1, ONE_NODE);
    var s2 := s0.(calls := map[0 := MissRead(0, "jti", false, 0)]);
    Follows(RACE, 1, s1, s2, ONE_NODE);
    Follows(RACE, 2, s2, Overtaken(map[0 := Revoker(0, "jti", false)], multiset{}), ONE_NODE);
  }

  lemma RaceInvalidates()
    ensures Run(RACE[..4], ONE_NODE) == Overtaken(map[0 := Revoker(0, "jti", true)], multiset{})
  {
    RaceRevokes();
    var s3 := Overtaken(map[0 := Revoker(0, "jti", false)], multiset{});
    assert s3.caches - {(0, "jti")} == map[];
    Follows(RACE, 3, s3, Overtaken(map[0 := Revoker(0, "jti", true)], multiset{}), ONE_NODE);
  }

  lemma RacePublishes()
    ensures Run(RACE[..5], ONE_NODE) == Overtaken(map[], multiset{(0, "jti")})
  {
    RaceInvalidates();
    var s4 := Overtaken(map[0 := Revoker(0, "jti", true)], multiset{});
    assert (set n | n in {0} :: (n, "jti")) == {(0, "jti")};
    assert s4.revokers - {0} == map[];
    assert s4.inFlight + Messages({0}, "jti") == multiset{(0, "jti")};
    Follows(RACE, 4, s4, Overtaken(map[], multiset{(0, "jti")}), ONE_NODE);
  }

  lemma RaceDelivers()
    ensures Run(RACE[..6], ONE_NODE) == Overtaken(map[], multiset{})
  {
    RacePublishes();
    var s5 := Overtaken(map[], multiset{(0, "jti")});
    assert s5.caches - {(0, "jti")} == map[];
    assert s5.inFlight - multiset{(0, "jti")} == multiset{};
    Follows(RACE, 5, s5, Overtaken(map[], multiset{}), ONE_NODE);
  }

  lemma RaceInserts()
    ensures Run(RACE, ONE_NODE) == Continue(Overtaken(map[], multiset{}), 0)
  {
    RaceDelivers();
    var s6 := Overtaken(map[], multiset{});
    Follows(RACE, 6, s6, Continue(s6, 0), ONE_NODE);
    assert RACE[..7] == RACE;
  }

  lemma RaceEnd()
    ensures var s := Continue(Overtaken(map[], multiset{}), 0);
      && (0, "jti") in s.caches && s.caches[(0, "jti")] == Entry(true, 0, 0)
      && Revoked(s, "jti") && Quiescent(s)
  {
  }

  /** A quiet cluster with a valid entry of a revoked session. */
  lemma QuietAndStale(s: Cluster, n: Node, j: Jti, cfg: Config)
    requires Quiescent(s) && Revoked(s, j) && (n, j) in s.caches && s.caches[(n, j)].valid
    requires s.now < s.caches[(n, j)].insertedAt + cfg.cacheTtl
    ensures !Coherent(s) && FastAccepts(s, n, j, true, cfg) && !SecureAccepts(s, j)
  {
    assert !Announced(s, n, j);
  }

  lemma RaceIsReliable()
    ensures AllReliable(RACE)
  {
  }

  lemma RaceIsStale()
    ensures var s := Continue(Overtaken(map[], multiset{}), 0);
      && !Coherent(s) && Quiescent(s)
      && FastAccepts(s, 0, "jti", true, ONE_NODE) && !SecureAccepts(s, "jti")
  {
    RaceEnd();
    QuietAndStale(Continue(Overtaken(map[], multiset{}), 0), 0, "jti", ONE_NODE);
  }

  /**
   Read and insert are two steps in the source, and then coherence can fail for good: a miss reads
   "not revoked", the session is revoked and every invalidation delivered, and only then the miss
   inserts its verdict. The cluster is quiet, and the fast check accepts what the secure one rejects.
   */
  lemma RaceBreaksCoherence()
    ensures AllReliable(RACE)
    ensures var s := Run(RACE, ONE_NODE);
      && !Coherent(s) && Quiescent(s)
      && FastAccepts(s, 0, "jti", true, ONE_NODE) && !SecureAccepts(s, "jti")
  {
    RaceIsReliable();
    RaceInserts();
    RaceIsStale();
  }
}
