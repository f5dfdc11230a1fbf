/**
 Refresh-token rotation with theft detection, as section 4.14.2 of RFC 9700 describes it: a cache
 asked first, and a table of tokens where every rotation links the new token to its parent. The
 table is written by tasks spawned per call; here each has completed before the next call, and module
 RefreshSpawned says what happens when it has not.
 */
module RefreshTokens {
  import opened Wrappers

  /** Tokens are known by their hashes, which are taken to differ. */
  type Hash = nat
  type User = nat
  type Family = nat

  const DAY: nat := 86_400
  const REFRESH_TTL: nat := 30 * DAY
  /** How long the cache remembers that a token was used. */
  const USED_TTL: nat := 60

  datatype Entry = Entry(user: User, family: Family, used: bool, revoked: bool, expireAt: nat)

  datatype Row = Row(user: User, family: Family, parent: Option<Hash>, used: bool, revoked: bool, expiresAt: int)

  type Rows = map<Hash, Row>

  // ---------------------------------------------------------------- the table

  /** The days left, rounded down, but at least one. */
  function RenewedExpiry(expiresAt: int, now: nat): int {
    now + (if expiresAt - now < 2 * DAY then 1 else (expiresAt - now) / DAY) * DAY
  }

  function Rotated(rows: Rows, prior: Hash, next: Hash, now: nat): Rows {
    if prior !in rows then rows
    else
      var row := rows[prior];
      rows[prior := row.(used := true)]
        [next := Row(row.user, row.family, Some(prior), false, false, RenewedExpiry(row.expiresAt, now))]
  }

  function Revoked(rows: Rows, family: Family): Rows {
    map h | h in rows :: if rows[h].family == family then rows[h].(revoked := true) else rows[h]
  }

  /** A rotated token gets a day or more, and no later date than its parent's unless that is what it takes. */
  lemma RenewalBounds(expiresAt: int, now: nat)
    ensures var renewed := RenewedExpiry(expiresAt, now);
      && now + DAY <= renewed
      && (renewed <= expiresAt || renewed == now + DAY)
      && expiresAt - renewed < DAY
  {
  }

  class RefreshTokenTable {
    var rows: Rows

    constructor ()
      ensures rows == map[]
    {
      rows := map[];
    }

    method Create(user: User, hash: Hash, family: Family, ttlDays: nat, now: nat)
      modifies this
      ensures rows == old(rows)[hash := Row(user, family, None, false, false, now + ttlDays * DAY)]
    {
      rows := rows[hash := Row(user, family, None, false, false, now + ttlDays * DAY)];
    }

    method FindByHash(hash: Hash) returns (r: Result<Row, ()>)
      ensures if hash in rows then r == Ok(rows[hash]) else r == Err(())
    {
      r := if hash in rows then Ok(rows[hash]) else Err(());
    }

    method Rotate(parent: Hash, hash: Hash, now: nat)
      modifies this
      ensures rows == Rotated(old(rows), parent, hash, now)
    {
      if parent in rows {
        var token := rows[parent];
        rows := rows[parent := token.(used := true)];
        var days := (token.expiresAt - now) / DAY;
        var expiresAt := now + (if days < 1 then 1 else days) * DAY;
        rows := rows[hash := Row(token.user, token.family, Some(parent), false, false, expiresAt)];
      }
    }

    method RevokeFamily(family: Family)
      modifies this
      ensures rows == Revoked(old(rows), family)
    {
      rows := map h | h in rows :: if rows[h].family == family then rows[h].(revoked := true) else rows[h];
    }
  }

  // ---------------------------------------------------------------- the service

  datatype State = State(cache: map<Hash, Entry>, rows: Rows, now: nat)

  datatype Outcome = Success | ReuseDetected | TokenRevoked | Invalid | NoUser

  predicate CacheLive(s: State, hash: Hash) {
    hash in s.cache && s.now < s.cache[hash].expireAt
  }

  predicate Known(s: State, hash: Hash) {
    CacheLive(s, hash) || hash in s.rows
  }

  /** What the cache says of a token, and the table when the cache says nothing. */
  function Seen(s: State, hash: Hash): Entry
    requires Known(s, hash)
  {
    if CacheLive(s, hash) then s.cache[hash]
    else var row := s.rows[hash]; Entry(row.user, row.family, row.used, row.revoked, 0)
  }

  function Issue(s: State, user: User, hash: Hash, family: Family): State {
    s.(cache := s.cache[hash := Entry(user, family, false, false, s.now + REFRESH_TTL)],
       rows := s.rows[hash := Row(user, family, None, false, false, s.now + 30 * DAY)])
  }

  function Answer(s: State, hash: Hash, userFound: bool): Outcome {
    if !Known(s, hash) then Invalid
    else if Seen(s, hash).used then ReuseDetected
    else if Seen(s, hash).revoked then TokenRevoked
    else if !userFound then NoUser
    else Success
  }

  function Refresh(s: State, hash: Hash, userFound: bool, next: Hash): State {
    match Answer(s, hash, userFound)
    case ReuseDetected => s.(rows := Revoked(s.rows, Seen(s, hash).family), cache := s.cache - {hash})
    case Success =>
      var seen := Seen(s, hash);
      s.(cache := s.cache[hash := Entry(seen.user, seen.family, true, false, s.now + USED_TTL)]
                         [next := Entry(seen.user, seen.family, false, false, s.now + REFRESH_TTL)],
         rows := Rotated(s.rows, hash, next, s.now))
    case _ => s
  }

  class TokenService {
    const db: RefreshTokenTable
    var cache: map<Hash, Entry>

    constructor (db: RefreshTokenTable)
      ensures this.db == db && cache == map[]
    {
      this.db := db;
      cache := map[];
    }

    ghost function At(now: nat): State
      reads this, db
    {
      State(cache, db.rows, now)
    }

    method CreateTokenPair(user: User, hash: Hash, family: Family, now: nat)
      modifies this`cache, db
      ensures At(now) == Issue(old(At(now)), user, hash, family)
    {
      cache := cache[hash := Entry(user, family, false, false, now + 30 * DAY)];
      db.Create(user, hash, family, 30, now);
    }

    method RefreshToken(hash: Hash, userFound: bool, newHash: Hash, now: nat) returns (r: Outcome)
      modifies this`cache, db
      ensures r == Answer(old(At(now)), hash, userFound)
      ensures At(now) == Refresh(old(At(now)), hash, userFound, newHash)
    {
      var user, family, used, revoked;
      if hash in cache && now < cache[hash].expireAt {
        var hit := cache[hash];
        user, family, used, revoked := hit.user, hit.family, hit.used, hit.revoked;
      } else {
        var found := db.FindByHash(hash);
        if found.Err? {
          return Invalid;
        }
        var token := found.value;
        user, family, used, revoked := token.user, token.family, token.used, token.revoked;
      }
      if used {
        db.RevokeFamily(family);
        cache := cache - {hash};
        return ReuseDetected;
      }
      if revoked {
        return TokenRevoked;
      }
      if !userFound {
        return NoUser;
      }
      cache := cache[hash := Entry(user, family, true, false, now + USED_TTL)];
      db.Rotate(hash, newHash, now);
      cache := cache[newHash := Entry(user, family, false, false, now + REFRESH_TTL)];
      r := Success;
    }
  }

  // ---------------------------------------------------------------- runs

  /** `chains` and `succeeded` are histories: each family's tokens in order, and the tokens rotated. */
  datatype System = System(state: State, chains: map<Family, seq<Hash>>, succeeded: set<Hash>)

  datatype Event =
    | Create(user: User, hash: Hash, family: Family)
    | Present(hash: Hash, userFound: bool, newHash: Hash)
    | Evict(hash: Hash)
    | Tick(d: nat)

  /** New hashes and families are random, so only new ones are ever drawn. */
  function Step(y: System, e: Event): System {
    var s := y.state;
    match e
    case Create(user, hash, family) =>
      if hash in s.rows || family in y.chains then y
      else y.(state := Issue(s, user, hash, family), chains := y.chains[family := [hash]])
    case Present(hash, userFound, newHash) =>
      if newHash in s.rows then y
      else if Answer(s, hash, userFound) != Success then y.(state := Refresh(s, hash, userFound, newHash))
      else
        var family := Seen(s, hash).family;
        System(Refresh(s, hash, userFound, newHash),
               if family in y.chains then y.chains[family := y.chains[family] + [newHash]] else y.chains,
               y.succeeded + {hash})
    case Evict(hash) => y.(state := s.(cache := s.cache - {hash}))
    case Tick(d) => y.(state := s.(now := s.now + d))
  }

  function Run(now: nat, events: seq<Event>): System {
    if events == [] then System(State(map[], map[], now), map[], {})
    else Step(Run(now, events[..|events| - 1]), events[|events| - 1])
  }

  // ---------------------------------------------------------------- chains

  ghost predicate Link(rows: Rows, family: Family, chain: seq<Hash>, i: nat)
    requires i < |chain|
  {
    && chain[i] in rows
    && var row := rows[chain[i]];
       && row.family == family
       && (row.used <==> i < |chain| - 1)
       && (i == 0 ==> row.parent.None?)
       && (i > 0 ==> row.parent.Some? && row.parent.value == chain[i - 1])
  }

  /** The family's tokens, all of them, each the parent of the next, and only the last one unused. */
  ghost predicate IsChain(rows: Rows, family: Family, chain: seq<Hash>) {
    && chain != []
    && (forall i :: 0 <= i < |chain| ==> Link(rows, family, chain, i))
    && (forall i, j :: 0 <= i < j < |chain| ==> chain[i] != chain[j])
    && (forall h :: h in rows && rows[h].family == family ==> h in chain)
  }

  ghost predicate ChainsInv(y: System) {
    && (forall h :: h in y.state.rows ==> y.state.rows[h].family in y.chains)
    && (forall f :: f in y.chains ==> IsChain(y.state.rows, f, y.chains[f]))
  }

  /** The cache, expired entries included, agrees with the table, except that it never says revoked. */
  predicate Agrees(e: Entry, r: Row) {
    e.user == r.user && e.family == r.family && e.used == r.used && !e.revoked
  }

  ghost predicate CacheInv(s: State) {
    forall h :: h in s.cache ==> h in s.rows && Agrees(s.cache[h], s.rows[h])
  }

  ghost predicate UsedInv(y: System) {
    forall h :: h in y.succeeded <==> h in y.state.rows && y.state.rows[h].used
  }

  ghost predicate Inv(y: System) {
    ChainsInv(y) && CacheInv(y.state) && UsedInv(y)
  }

  // ---------------------------------------------------------------- what every step keeps

  lemma RevokeKeepsChain(rows: Rows, revoked: Family, family: Family, chain: seq<Hash>)
    requires IsChain(rows, family, chain)
    ensures IsChain(Revoked(rows, revoked), family, chain)
  {
    forall i | 0 <= i < |chain| ensures Link(Revoked(rows, revoked), family, chain, i) {
      assert Link(rows, family, chain, i);
    }
  }

  lemma AddKeepsChain(rows: Rows, hash: Hash, row: Row, family: Family, chain: seq<Hash>)
    requires IsChain(rows, family, chain) && hash !in rows && row.family != family
    ensures IsChain(rows[hash := row], family, chain)
  {
    var rows' := rows[hash := row];
    forall i | 0 <= i < |chain| ensures Link(rows', family, chain, i) {
      assert Link(rows, family, chain, i);
    }
  }

  lemma RotateKeepsOther(rows: Rows, hash: Hash, next: Hash, now: nat, family: Family, chain: seq<Hash>)
    requires IsChain(rows, family, chain) && hash in rows && rows[hash].family != family && next !in rows
    ensures IsChain(Rotated(rows, hash, next, now), family, chain)
  {
    forall i | 0 <= i < |chain| ensures Link(Rotated(rows, hash, next, now), family, chain, i) {
      assert Link(rows, family, chain, i);
    }
  }

  /** An unused token is the last of its chain, and rotating it adds one. */
  lemma RotateExtends(rows: Rows, hash: Hash, next: Hash, now: nat, family: Family, chain: seq<Hash>)
    requires IsChain(rows, family, chain) && next !in rows
    requires hash in rows && rows[hash].family == family && !rows[hash].used
    ensures chain[|chain| - 1] == hash
    ensures IsChain(Rotated(rows, hash, next, now), family, chain + [next])
  {
    var k :| 0 <= k < |chain| && chain[k] == hash;
    assert Link(rows, family, chain, k);
    var rows', longer := Rotated(rows, hash, next, now), chain + [next];
    forall i | 0 <= i < |longer| ensures Link(rows', family, longer, i) {
      if i < |chain| {
        assert Link(rows, family, chain, i);
      }
    }
    forall i, j | 0 <= i < j < |longer| ensures longer[i] != longer[j] {
      assert Link(rows, family, chain, i);
    }
    forall h | h in rows' && rows'[h].family == family ensures h in longer {
      if h != next {
        assert h in rows;
      }
    }
  }

  lemma KnownRow(s: State, hash: Hash)
    requires CacheInv(s) && Known(s, hash)
    ensures hash in s.rows && Seen(s, hash).family == s.rows[hash].family && Seen(s, hash).user == s.rows[hash].user
    ensures Seen(s, hash).used == s.rows[hash].used
    ensures Seen(s, hash).revoked == (s.rows[hash].revoked && !CacheLive(s, hash))
  {
    if CacheLive(s, hash) {
      assert Agrees(s.cache[hash], s.rows[hash]);
    }
  }

  lemma CreateKeepsInv(y: System, user: User, hash: Hash, family: Family)
    requires Inv(y)
    ensures Inv(Step(y, Create(user, hash, family)))
  {
    var y' := Step(y, Create(user, hash, family));
    if y' != y {
      forall f | f in y'.chains ensures IsChain(y'.state.rows, f, y'.chains[f]) {
        if f != family {
          AddKeepsChain(y.state.rows, hash, y'.state.rows[hash], f, y.chains[f]);
        } else {
          assert Link(y'.state.rows, f, [hash], 0);
        }
      }
    }
  }

  lemma ReuseKeepsInv(y: System, hash: Hash, userFound: bool, next: Hash)
    requires Inv(y) && Answer(y.state, hash, userFound) == ReuseDetected
    ensures Inv(y.(state := Refresh(y.state, hash, userFound, next)))
  {
    var family := Seen(y.state, hash).family;
    var y' := y.(state := Refresh(y.state, hash, userFound, next));
    assert y'.state.rows == Revoked(y.state.rows, family);
    forall f | f in y.chains ensures IsChain(Revoked(y.state.rows, family), f, y.chains[f]) {
      RevokeKeepsChain(y.state.rows, family, f, y.chains[f]);
    }
    RevokeKeepsCache(y.state, family, hash);
  }

  lemma RevokeKeepsCache(s: State, family: Family, hash: Hash)
    requires CacheInv(s)
    ensures CacheInv(s.(rows := Revoked(s.rows, family), cache := s.cache - {hash}))
    ensures forall h :: h in s.rows ==> Revoked(s.rows, family)[h].used == s.rows[h].used
  {
  }

  lemma SuccessKeepsInv(y: System, hash: Hash, userFound: bool, next: Hash)
    requires Inv(y) && Answer(y.state, hash, userFound) == Success && next !in y.state.rows
    ensures Inv(Step(y, Present(hash, userFound, next)))
  {
    SuccessKeepsChains(y, hash, userFound, next);
    SuccessKeepsCache(y.state, hash, userFound, next);
    SuccessKeepsUsed(y, hash, userFound, next);
  }

  lemma SuccessKeepsUsed(y: System, hash: Hash, userFound: bool, next: Hash)
    requires CacheInv(y.state) && UsedInv(y)
    requires Answer(y.state, hash, userFound) == Success && next !in y.state.rows
    ensures UsedInv(Step(y, Present(hash, userFound, next)))
  {
    KnownRow(y.state, hash);
    assert Step(y, Present(hash, userFound, next)).state.rows == Rotated(y.state.rows, hash, next, y.state.now);
  }

  lemma SuccessKeepsChains(y: System, hash: Hash, userFound: bool, next: Hash)
    requires Inv(y) && Answer(y.state, hash, userFound) == Success && next !in y.state.rows
    ensures ChainsInv(Step(y, Present(hash, userFound, next)))
  {
    KnownRow(y.state, hash);
    var s, y' := y.state, Step(y, Present(hash, userFound, next));
    var family := s.rows[hash].family;
    assert y'.chains == y.chains[family := y.chains[family] + [next]];
    assert y'.state.rows == Rotated(s.rows, hash, next, s.now);
    forall f | f in y'.chains ensures IsChain(y'.state.rows, f, y'.chains[f]) {
      if f == family {
        RotateExtends(s.rows, hash, next, s.now, f, y.chains[f]);
      } else {
        RotateKeepsOther(s.rows, hash, next, s.now, f, y.chains[f]);
      }
    }
  }

  lemma SuccessKeepsCache(s: State, hash: Hash, userFound: bool, next: Hash)
    requires CacheInv(s) && Answer(s, hash, userFound) == Success && next !in s.rows
    ensures CacheInv(Refresh(s, hash, userFound, next))
  {
    KnownRow(s, hash);
    var s' := Refresh(s, hash, userFound, next);
    forall h | h in s'.cache ensures h in s'.rows && Agrees(s'.cache[h], s'.rows[h]) {
      if h != hash && h != next {
        assert Agrees(s.cache[h], s.rows[h]);
      }
    }
  }

  lemma StepKeepsInv(y: System, e: Event)
    requires Inv(y)
    ensures Inv(Step(y, e))
  {
    match e
    case Create(user, hash, family) => CreateKeepsInv(y, user, hash, family);
    case Present(hash, userFound, next) =>
      if next !in y.state.rows {
        var answer := Answer(y.state, hash, userFound);
        if answer == Success {
          SuccessKeepsInv(y, hash, userFound, next);
        } else if answer == ReuseDetected {
          ReuseKeepsInv(y, hash, userFound, next);
        }
      }
    case Evict(_) =>
    case Tick(_) =>
  }

  lemma {:induction false} RunInv(now: nat, events: seq<Event>)
    ensures Inv(Run(now, events))
  {
    if events == [] {
    } else {
      RunInv(now, events[..|events| - 1]);
      StepKeepsInv(Run(now, events[..|events| - 1]), events[|events| - 1]);
    }
  }

  // ---------------------------------------------------------------- what holds of every run

  /** Every family is one chain of parents, in which only the last token is unused. */
  lemma FamiliesAreChains(now: nat, events: seq<Event>, family: Family)
    ensures var rows := Run(now, events).state.rows;
      (exists h :: h in rows && rows[h].family == family) ==> exists chain :: IsChain(rows, family, chain)
  {
    RunInv(now, events);
  }

  lemma OneUnusedPerFamily(now: nat, events: seq<Event>, a: Hash, b: Hash)
    requires var rows := Run(now, events).state.rows;
      a in rows && b in rows && rows[a].family == rows[b].family && !rows[a].used && !rows[b].used
    ensures a == b
  {
    RunInv(now, events);
    OneUnused(Run(now, events), a, b);
  }

  lemma OneUnused(y: System, a: Hash, b: Hash)
    requires ChainsInv(y) && a in y.state.rows && b in y.state.rows
    requires y.state.rows[a].family == y.state.rows[b].family && !y.state.rows[a].used && !y.state.rows[b].used
    ensures a == b
  {
    var family := y.state.rows[a].family;
    UnusedIsLast(y.state.rows, family, y.chains[family], a);
    UnusedIsLast(y.state.rows, family, y.chains[family], b);
  }

  lemma UnusedIsLast(rows: Rows, family: Family, chain: seq<Hash>, h: Hash)
    requires IsChain(rows, family, chain) && h in rows && rows[h].family == family && !rows[h].used
    ensures h == chain[|chain| - 1]
  {
    var i :| 0 <= i < |chain| && chain[i] == h;
    assert Link(rows, family, chain, i);
  }

  /** Exactly which tokens are taken: no expiry date is asked, and revocation only of uncached tokens. */
  lemma SucceedsIff(now: nat, events: seq<Event>, hash: Hash, userFound: bool)
    ensures var s := Run(now, events).state;
      Answer(s, hash, userFound) == Success <==>
        && hash in s.rows && !s.rows[hash].used && userFound
        && (CacheLive(s, hash) || !s.rows[hash].revoked)
  {
    RunInv(now, events);
    var s := Run(now, events).state;
    if Known(s, hash) {
      KnownRow(s, hash);
    }
  }

  /** A token once rotated stays so, whatever the cache forgets. */
  lemma {:induction false} SucceededStays(now: nat, events: seq<Event>, i: nat, hash: Hash)
    requires i <= |events| && hash in Run(now, events[..i]).succeeded
    ensures hash in Run(now, events).succeeded
  {
    if i < |events| {
      var before := events[..|events| - 1];
      assert before[..i] == events[..i];
      SucceededStays(now, before, i, hash);
    } else {
      assert events[..i] == events;
    }
  }

  predicate SucceedsAt(now: nat, events: seq<Event>, i: nat, hash: Hash)
    requires i < |events|
  {
    && events[i].Present? && events[i].hash == hash
    && events[i].newHash !in Run(now, events[..i]).state.rows
    && Answer(Run(now, events[..i]).state, hash, events[i].userFound) == Success
  }

  /** No token is rotated twice. */
  lemma EachTokenSucceedsOnce(now: nat, events: seq<Event>, i: nat, j: nat, hash: Hash)
    requires i < j < |events| && SucceedsAt(now, events, i, hash)
    ensures !SucceedsAt(now, events, j, hash)
  {
    assert events[..i + 1][..i] == events[..i];
    assert hash in Run(now, events[..i + 1]).succeeded;
    assert events[..j][..i + 1] == events[..i + 1];
    SucceededStays(now, events[..j], i + 1, hash);
    RunInv(now, events[..j]);
    if events[j].Present? {
      SucceedsIff(now, events[..j], hash, events[j].userFound);
    }
  }

  /** Presenting a used token, cached or not, is answered as theft and revokes the family's every row. */
  lemma ReuseRevokesTheFamily(now: nat, events: seq<Event>, hash: Hash, userFound: bool, next: Hash)
    requires hash in Run(now, events).succeeded
    ensures var s := Run(now, events).state;
      var s' := Refresh(s, hash, userFound, next);
      && Answer(s, hash, userFound) == ReuseDetected
      && hash in s.rows && s'.rows.Keys == s.rows.Keys
      && forall h :: h in s.rows ==>
           s'.rows[h] == if s.rows[h].family == s.rows[hash].family then s.rows[h].(revoked := true) else s.rows[h]
  {
    RunInv(now, events);
    KnownRow(Run(now, events).state, hash);
  }

  /** Yet the family's unused token is refused afterwards only if the cache no longer holds it. */
  lemma ReuseStopsTheFamilyIff(now: nat, events: seq<Event>, hash: Hash, last: Hash, next: Hash)
    requires hash in Run(now, events).succeeded
    requires var rows := Run(now, events).state.rows;
      hash in rows && last in rows && !rows[last].used && rows[last].family == rows[hash].family
    ensures var s := Run(now, events).state;
      Answer(Refresh(s, hash, true, next), last, true) == if CacheLive(s, last) then Success else TokenRevoked
  {
    RunInv(now, events);
    var s := Run(now, events).state;
    KnownRow(s, hash);
    KnownRow(s, last);
    ReuseRevokesTheFamily(now, events, hash, true, next);
  }

  /** That happens: right after a rotation the new token is in the cache. */
  lemma CachedTokenOutlivesReuse(user: User, family: Family, first: Hash, second: Hash, third: Hash)
    requires first != second && second != third && first != third
    ensures var events := [Create(user, first, family), Present(first, true, second), Present(first, true, third)];
      && SucceedsAt(0, events, 1, first)
      && second in Run(0, events).state.rows && Run(0, events).state.rows[second].revoked
      && Answer(Run(0, events).state, second, true) == Success
  {
    var events := [Create(user, first, family), Present(first, true, second), Present(first, true, third)];
    assert events[..0] == [];
    assert events[..1] == [events[0]];
    assert [events[0]][..0] == [];
    assert events[..2] == [events[0], events[1]];
    assert [events[0], events[1]][..1] == [events[0]];
    var y1 := Run(0, events[..1]);
    assert y1 == Step(Run(0, []), events[0]);
    var y2 := Run(0, events[..2]);
    assert y2 == Step(y1, events[1]);
    assert Run(0, events) == Step(y2, events[2]);
  }

  // ---------------------------------------------------------------- past every expiry

  lemma RunSnoc(now: nat, events: seq<Event>, e: Event)
    ensures Run(now, events + [e]) == Step(Run(now, events), e)
  {
    assert (events + [e])[..|events|] == events;
  }

  /** However long after its expiry date, a token never presented is taken, from the table alone. */
  lemma ExpiredTokenIsTaken(user: User, family: Family, hash: Hash, days: nat)
    requires days >= 30
    ensures var s := Run(0, [Create(user, hash, family)] + [Tick(days * DAY)]).state;
      && hash in s.rows && s.rows[hash].expiresAt <= s.now && !CacheLive(s, hash)
      && Answer(s, hash, true) == Success
  {
    RunSnoc(0, [], Create(user, hash, family));
    assert [] + [Create(user, hash, family)] == [Create(user, hash, family)];
    RunSnoc(0, [Create(user, hash, family)], Tick(days * DAY));
    assert days * DAY >= 30 * DAY;
  }

  /** An unused token in the cache can be rotated, and leaves such a token of its family. */
  predicate Ready(s: State, hash: Hash, unused: Hash, family: Family) {
    && CacheLive(s, hash) && !s.cache[hash].used && !s.cache[hash].revoked && s.cache[hash].family == family
    && hash in s.rows && s.rows[hash].family == family
    && hash < unused && forall h :: h in s.rows ==> h < unused
  }

  lemma RotatesOnce(y: System, hash: Hash, unused: Hash, family: Family)
    requires Ready(y.state, hash, unused, family)
    ensures var y' := Step(y, Present(hash, true, unused));
      && Answer(y.state, hash, true) == Success
      && Ready(y'.state, unused, unused + 1, family) && !y'.state.rows[unused].revoked
  {
  }

  /** The newest token presented `n` times in a row, each time drawing the next hash. */
  function RotateTimes(y: System, last: Hash, unused: Hash, n: nat): System {
    if n == 0 then y
    else
      Step(RotateTimes(y, last, unused, n - 1), Present(if n == 1 then last else unused + n - 2, true, unused + n - 1))
  }

  /**
   A family whose newest token is cached goes on for any number of rotations, whether or not reuse has
   been detected and its rows revoked, and every token so made is unrevoked.
   */
  lemma {:induction false} RevokedFamilyGoesOn(y: System, last: Hash, unused: Hash, family: Family, n: nat)
    requires Ready(y.state, last, unused, family)
    ensures var s := RotateTimes(y, last, unused, n).state;
      var newest := if n == 0 then last else unused + n - 1;
      && Ready(s, newest, unused + n, family)
      && (n > 0 ==> !s.rows[newest].revoked)
  {
    if n > 0 {
      RevokedFamilyGoesOn(y, last, unused, family, n - 1);
      RotatesOnce(RotateTimes(y, last, unused, n - 1), if n == 1 then last else unused + n - 2, unused + n - 1, family);
    }
  }
}
