/**
 Whose a refresh token is: over whole runs, every rotation leaves the new token to the user and in the family that
 the first one was given out for, in the cache, in the table and in the tasks still to land.
 */
module RefreshOwners {
  import opened Wrappers
  import opened RefreshTokens
  import S = RefreshSpawned

  /** The user each family was created for. */
  function Owners(now: nat, events: seq<Event>): map<Family, User> {
    if events == [] then map[]
    else
      var owners := Owners(now, events[..|events| - 1]);
      match events[|events| - 1]
      case Create(user, hash, family) =>
        if hash in Run(now, events[..|events| - 1]).state.rows || family in owners then owners
        else owners[family := user]
      case _ => owners
  }

  predicate Owned(rows: Rows, owners: map<Family, User>) {
    forall h :: h in rows ==> rows[h].family in owners && rows[h].user == owners[rows[h].family]
  }

  lemma RefreshKeepsOwned(s: State, hash: Hash, userFound: bool, next: Hash, owners: map<Family, User>)
    requires Owned(s.rows, owners)
    ensures Owned(Refresh(s, hash, userFound, next).rows, owners)
  {
  }

  lemma {:induction false} RunOwned(now: nat, events: seq<Event>)
    ensures Run(now, events).chains.Keys == Owners(now, events).Keys
    ensures Owned(Run(now, events).state.rows, Owners(now, events))
  {
    if events != [] {
      var before, e := events[..|events| - 1], events[|events| - 1];
      RunOwned(now, before);
      match e
      case Create(_, _, _) =>
      case Present(hash, userFound, next) => PresentOwned(now, before, hash, userFound, next);
      case Evict(_) =>
      case Tick(_) =>
    }
  }

  lemma PresentOwned(now: nat, before: seq<Event>, hash: Hash, userFound: bool, next: Hash)
    requires Run(now, before).chains.Keys == Owners(now, before).Keys
    requires Owned(Run(now, before).state.rows, Owners(now, before))
    ensures var y := Step(Run(now, before), Present(hash, userFound, next));
      y.chains.Keys == Owners(now, before).Keys && Owned(y.state.rows, Owners(now, before))
  {
    RefreshKeepsOwned(Run(now, before).state, hash, userFound, next, Owners(now, before));
  }

  /** In every run each row, and each cache entry, belongs to the user its family was created for. */
  lemma FamilyKeepsUser(now: nat, events: seq<Event>, hash: Hash)
    ensures var s, owners := Run(now, events).state, Owners(now, events);
      && (hash in s.rows ==> s.rows[hash].family in owners && s.rows[hash].user == owners[s.rows[hash].family])
      && (hash in s.cache ==> s.cache[hash].family in owners && s.cache[hash].user == owners[s.cache[hash].family])
  {
    RunOwned(now, events);
    RunInv(now, events);
    var s := Run(now, events).state;
    if hash in s.cache {
      assert Agrees(s.cache[hash], s.rows[hash]);
    }
  }

  // ---------------------------------------------------------------- what one call gives

  /**
   A success links the new token, unused and of the same user and family, to the old one, and marks the old one used;
   no other row changes.
   */
  lemma RotationLinks(now: nat, events: seq<Event>, hash: Hash, next: Hash)
    requires Answer(Run(now, events).state, hash, true) == Success && next !in Run(now, events).state.rows
    ensures var rows, rows' := Run(now, events).state.rows, Refresh(Run(now, events).state, hash, true, next).rows;
      && hash in rows && rows'.Keys == rows.Keys + {next}
      && rows'[next].user == rows[hash].user && rows'[next].family == rows[hash].family
      && rows'[next].parent == Some(hash) && !rows'[next].used && !rows'[next].revoked
      && rows'[hash] == rows[hash].(used := true)
      && (forall h :: h in rows && h != hash ==> rows'[h] == rows[h])
  {
    RunInv(now, events);
    KnownRow(Run(now, events).state, hash);
  }

  /** The cache then holds the new token for thirty days, and for a minute that the old one is used. */
  lemma RotationCaches(s: State, hash: Hash, next: Hash, later: nat)
    requires Answer(s, hash, true) == Success && hash != next
    ensures var s' := Refresh(s, hash, true, next);
      var after := s'.(now := s.now + later);
      && (CacheLive(after, next) <==> later < 2_592_000)
      && (CacheLive(after, hash) <==> later < 60)
      && !s'.cache[next].used && s'.cache[hash].used && !s'.cache[next].revoked
      && (forall h :: h != hash && h != next ==> CacheLive(s', h) == CacheLive(s, h))
  {
  }

  /** And it runs out a whole number of days from now: as many as its parent has left, but at least one. */
  lemma RenewedByDays(now: nat, events: seq<Event>, hash: Hash, next: Hash, days: nat)
    requires Answer(Run(now, events).state, hash, true) == Success && next !in Run(now, events).state.rows
    ensures var s := Run(now, events).state;
      var s' := Refresh(s, hash, true, next);
      && hash in s.rows && next in s'.rows
      && (s'.rows[next].expiresAt == s.now + days * 86_400 <==>
          days >= 1 && if days == 1 then s.rows[hash].expiresAt < s.now + 2 * 86_400
                       else s.now + days * 86_400 <= s.rows[hash].expiresAt < s.now + (days + 1) * 86_400)
  {
    RunInv(now, events);
    var s := Run(now, events).state;
    KnownRow(s, hash);
    DaysLeft(s.rows[hash].expiresAt, s.now, days);
  }

  lemma DaysLeft(expiresAt: int, now: nat, days: nat)
    ensures RenewedExpiry(expiresAt, now) == now + days * 86_400 <==>
            days >= 1 && if days == 1 then expiresAt < now + 2 * 86_400
                         else now + days * 86_400 <= expiresAt < now + (days + 1) * 86_400
  {
  }

  /** Detecting a reuse drops the presented token, and it alone, from the cache; from then on the table answers. */
  lemma ReuseForgets(s: State, hash: Hash, userFound: bool, next: Hash, h: Hash)
    requires Answer(s, hash, userFound) == ReuseDetected
    ensures var s' := Refresh(s, hash, userFound, next);
      && !CacheLive(s', hash) && (h != hash ==> CacheLive(s', h) == CacheLive(s, h))
      && (hash in s.rows && s.rows[hash].used ==> Answer(s', hash, userFound) == ReuseDetected)
      && (hash !in s.rows ==> Answer(s', hash, userFound) == Invalid)
  {
  }

  /** A new family begins with an unused token of the user, live for thirty days in the cache and in the table. */
  lemma CreationGives(s: State, user: User, hash: Hash, family: Family, later: nat)
    ensures var s' := Issue(s, user, hash, family);
      && hash in s'.rows && s'.rows[hash] == Row(user, family, None, false, false, s.now + 2_592_000)
      && (CacheLive(s'.(now := s.now + later), hash) <==> later < 2_592_000)
      && s'.cache[hash].user == user && s'.cache[hash].family == family
      && Answer(s', hash, true) == Success
  {
  }

  // ---------------------------------------------------------------- written by tasks

  datatype Origin = Origin(user: User, family: Family)

  /** The user and family each token comes from, by the call that began its line. */
  function Origins(actions: seq<S.Action>): map<Hash, Origin> {
    if actions == [] then map[]
    else
      var before := actions[..|actions| - 1];
      var origins, y := Origins(before), S.Serve(before);
      match actions[|actions| - 1]
      case Begin(user, hash, family) => if hash in origins then origins else origins[hash := Origin(user, family)]
      case Offer(hash, userFound, next) =>
        if next in origins || hash !in origins || Answer(y.state, hash, userFound) != Success then origins
        else origins[next := origins[hash]]
      case _ => origins
  }

  predicate From(user: User, family: Family, hash: Hash, origins: map<Hash, Origin>) {
    hash in origins && user == origins[hash].user && family == origins[hash].family
  }

  predicate TaskFrom(t: S.Task, origins: map<Hash, Origin>) {
    match t
    case Insert(user, hash, family) => From(user, family, hash, origins)
    case Rotation(prior, next) => prior in origins && next in origins && origins[prior] == origins[next]
  }

  ghost predicate Lineage(y: S.Service, origins: map<Hash, Origin>) {
    && y.drawn.Keys == origins.Keys
    && (forall h :: h in y.state.cache ==> From(y.state.cache[h].user, y.state.cache[h].family, h, origins))
    && (forall h :: h in y.state.rows ==> From(y.state.rows[h].user, y.state.rows[h].family, h, origins))
    && (forall t :: t in y.pending ==> TaskFrom(t, origins))
  }

  lemma MoreOrigins(y: S.Service, hash: Hash, family: Family, origin: Origin, origins: map<Hash, Origin>)
    requires Lineage(y, origins) && hash !in origins
    ensures Lineage(y.(drawn := y.drawn[hash := family]), origins[hash := origin])
  {
    var more := origins[hash := origin];
    forall t | t in y.pending ensures TaskFrom(t, more) {
      assert TaskFrom(t, origins);
    }
  }

  lemma BeginKeepsLineage(y: S.Service, user: User, hash: Hash, family: Family, origins: map<Hash, Origin>)
    requires Lineage(y, origins) && hash !in origins
    ensures Lineage(S.Act(y, S.Begin(user, hash, family)), origins[hash := Origin(user, family)])
  {
    MoreOrigins(y, hash, family, Origin(user, family), origins);
  }

  lemma SuccessKeepsLineage(y: S.Service, hash: Hash, userFound: bool, next: Hash, origins: map<Hash, Origin>)
    requires Lineage(y, origins) && hash in origins && next !in origins
    requires Answer(y.state, hash, userFound) == Success
    ensures Lineage(S.Act(y, S.Offer(hash, userFound, next)), origins[next := origins[hash]])
  {
    MoreOrigins(y, next, Seen(y.state, hash).family, origins[hash], origins);
  }

  lemma LandKeepsLineage(y: S.Service, t: S.Task, origins: map<Hash, Origin>)
    requires Lineage(y, origins)
    ensures Lineage(S.Act(y, S.Land(t)), origins)
  {
    if t in y.pending {
      assert TaskFrom(t, origins);
    }
  }

  lemma OfferKeepsLineage(y: S.Service, hash: Hash, userFound: bool, next: Hash, origins: map<Hash, Origin>)
    requires Lineage(y, origins)
    ensures Lineage(S.Act(y, S.Offer(hash, userFound, next)),
                    if next in origins || hash !in origins || Answer(y.state, hash, userFound) != Success then origins
                    else origins[next := origins[hash]])
  {
    if next !in origins && hash in origins && Answer(y.state, hash, userFound) == Success {
      SuccessKeepsLineage(y, hash, userFound, next, origins);
    }
  }

  lemma {:induction false} ServeLineage(actions: seq<S.Action>)
    ensures Lineage(S.Serve(actions), Origins(actions))
  {
    if actions != [] {
      var before := actions[..|actions| - 1];
      var y, origins := S.Serve(before), Origins(before);
      ServeLineage(before);
      match actions[|actions| - 1]
      case Begin(user, hash, family) =>
        if hash !in origins {
          BeginKeepsLineage(y, user, hash, family, origins);
        }
      case Offer(hash, userFound, next) => OfferKeepsLineage(y, hash, userFound, next, origins);
      case Land(t) => LandKeepsLineage(y, t, origins);
      case Fail(t) => assert Lineage(y.(pending := y.pending - multiset{t}), origins);
      case Forget(_) =>
      case Wait(_) =>
    }
  }

  /**
   However the tasks land, each row, cache entry and task of a token has the user and the family of the call that
   began the token's line.
   */
  lemma LineKeepsUser(actions: seq<S.Action>, hash: Hash)
    ensures var y, origins := S.Serve(actions), Origins(actions);
      && (hash in y.state.rows ==>
            hash in origins && Origin(y.state.rows[hash].user, y.state.rows[hash].family) == origins[hash])
      && (hash in y.state.cache ==>
            hash in origins && Origin(y.state.cache[hash].user, y.state.cache[hash].family) == origins[hash])
      && (forall user, family :: S.Insert(user, hash, family) in y.pending ==>
            hash in origins && Origin(user, family) == origins[hash])
      && (forall prior :: S.Rotation(prior, hash) in y.pending ==>
            hash in origins && prior in origins && origins[prior] == origins[hash])
  {
    ServeLineage(actions);
    var y, origins := S.Serve(actions), Origins(actions);
    forall user, family | S.Insert(user, hash, family) in y.pending
      ensures hash in origins && Origin(user, family) == origins[hash]
    {
      assert TaskFrom(S.Insert(user, hash, family), origins);
    }
    forall prior | S.Rotation(prior, hash) in y.pending
      ensures hash in origins && prior in origins && origins[prior] == origins[hash]
    {
      assert TaskFrom(S.Rotation(prior, hash), origins);
    }
  }
}
