/**
 Refresh tokens when the table is written as the service writes it: every insert and rotation is a task of its
 own that lands some time after the call has answered, in any order, or fails. The cache is written at once. When
 a token that was taken once can be taken again.
 */
module RefreshSpawned {
  import opened Wrappers
  import opened RefreshTokens

  datatype Task = Insert(user: User, hash: Hash, family: Family) | Rotation(prior: Hash, next: Hash)

  /** `taken` and `drawn` are histories: the tokens rotated, and all tokens given out with their families. */
  datatype Service = Service(state: State, pending: multiset<Task>, taken: seq<Hash>, drawn: map<Hash, Family>)

  datatype Action =
    | Begin(user: User, hash: Hash, family: Family)
    | Offer(hash: Hash, userFound: bool, next: Hash)
    | Land(task: Task)
    | Fail(task: Task)
    | Forget(hash: Hash)
    | Wait(d: nat)

  function Landed(s: State, t: Task): State {
    match t
    case Insert(user, hash, family) =>
      s.(rows := s.rows[hash := Row(user, family, None, false, false, s.now + 30 * DAY)])
    case Rotation(prior, next) => s.(rows := Rotated(s.rows, prior, next, s.now))
  }

  function Cached(s: State, hash: Hash, next: Hash): State
    requires Known(s, hash)
  {
    var seen := Seen(s, hash);
    s.(cache := s.cache[hash := Entry(seen.user, seen.family, true, false, s.now + USED_TTL)]
                       [next := Entry(seen.user, seen.family, false, false, s.now + REFRESH_TTL)])
  }

  /** What a call does before it answers, and the task it leaves behind; new tokens are random. */
  function Act(y: Service, a: Action): Service {
    var s := y.state;
    match a
    case Begin(user, hash, family) =>
      if hash in y.drawn then y
      else y.(state := s.(cache := s.cache[hash := Entry(user, family, false, false, s.now + REFRESH_TTL)]),
              pending := y.pending + multiset{Insert(user, hash, family)}, drawn := y.drawn[hash := family])
    case Offer(hash, userFound, next) =>
      if next in y.drawn || hash !in y.drawn then y
      else
        (match Answer(s, hash, userFound)
         case ReuseDetected =>
           y.(state := s.(rows := Revoked(s.rows, Seen(s, hash).family), cache := s.cache - {hash}))
         case Success =>
           Service(Cached(s, hash, next), y.pending + multiset{Rotation(hash, next)}, y.taken + [hash],
                   y.drawn[next := Seen(s, hash).family])
         case _ => y)
    case Land(t) =>
      if t in y.pending then y.(state := Landed(s, t), pending := y.pending - multiset{t}) else y
    case Fail(t) => y.(pending := y.pending - multiset{t})
    case Forget(hash) => y.(state := s.(cache := s.cache - {hash}))
    case Wait(d) => y.(state := s.(now := s.now + d))
  }

  function Serve(actions: seq<Action>): Service {
    if actions == [] then Service(State(map[], map[], 0), multiset{}, [], map[])
    else Act(Serve(actions[..|actions| - 1]), actions[|actions| - 1])
  }

  lemma ServeSnoc(actions: seq<Action>, a: Action)
    ensures Serve(actions + [a]) == Act(Serve(actions), a)
  {
    assert (actions + [a])[..|actions|] == actions;
  }

  /** A call whose task lands at once is the call of module RefreshTokens. */
  lemma PromptCreation(y: Service, user: User, hash: Hash, family: Family)
    requires hash !in y.drawn
    ensures Act(Act(y, Begin(user, hash, family)), Land(Insert(user, hash, family))).state ==
            Issue(y.state, user, hash, family)
  {
  }

  lemma PromptRefresh(y: Service, hash: Hash, userFound: bool, next: Hash)
    requires hash in y.drawn && next !in y.drawn
    ensures var y' := Act(y, Offer(hash, userFound, next));
      (if Answer(y.state, hash, userFound) == Success then Act(y', Land(Rotation(hash, next))) else y').state ==
      Refresh(y.state, hash, userFound, next)
  {
  }

  // ---------------------------------------------------------------- tokens that would be taken again

  predicate Refused(s: State, hash: Hash) {
    Answer(s, hash, true) != Success
  }

  /** No token that was taken would be taken now. */
  ghost predicate AllRefused(y: Service) {
    forall h :: h in y.taken ==> Refused(y.state, h)
  }

  /** Tokens given out are known, and the cache remembers a taken one as used while it remembers it. */
  ghost predicate Marks(y: Service) {
    && (forall h :: h in y.taken ==> h in y.drawn)
    && (forall h :: h in y.taken && h in y.state.cache ==> y.state.cache[h].used)
  }

  predicate TaskOk(drawn: map<Hash, Family>, t: Task) {
    match t
    case Insert(_, hash, family) => hash in drawn && drawn[hash] == family
    case Rotation(prior, next) => prior in drawn && next in drawn && drawn[prior] == drawn[next] && prior != next
  }

  /** Cache, table and tasks agree on the family of a token. */
  ghost predicate Families(y: Service) {
    && (forall h :: h in y.state.cache ==> h in y.drawn && y.state.cache[h].family == y.drawn[h])
    && (forall h :: h in y.state.rows ==> h in y.drawn && y.state.rows[h].family == y.drawn[h])
    && (forall t :: t in y.pending ==> TaskOk(y.drawn, t))
  }

  /** The table would take the token: its row is there, not used and not revoked. */
  predicate Open(rows: Rows, hash: Hash) {
    hash in rows && !rows[hash].used && !rows[hash].revoked
  }

  /**
   The cache forgets a taken token whose row is still open, or a row lands for one that the cache has
   forgotten.
   */
  ghost predicate Reopens(y: Service, a: Action) {
    match a
    case Wait(_) => exists h :: h in y.taken && ForgottenOpen(y, a, h)
    case Forget(hash) => hash in y.taken && ForgottenOpen(y, a, hash)
    case Land(Insert(user, hash, family)) =>
      a.task in y.pending && hash in y.taken && !CacheLive(y.state, hash)
    case Land(Rotation(prior, next)) =>
      a.task in y.pending && next in y.taken && !CacheLive(y.state, next) && prior in y.state.rows
    case _ => false
  }

  predicate ForgottenOpen(y: Service, a: Action, hash: Hash) {
    CacheLive(y.state, hash) && !CacheLive(Act(y, a).state, hash) && Open(y.state.rows, hash)
  }

  lemma RefusedIff(y: Service, hash: Hash)
    requires Marks(y) && hash in y.taken
    ensures Refused(y.state, hash) <==> CacheLive(y.state, hash) || !Open(y.state.rows, hash)
  {
  }

  lemma ActKeepsMarks(y: Service, a: Action)
    requires Marks(y)
    ensures Marks(Act(y, a))
  {
    if a.Offer? {
      OfferKeepsMarks(y, a.hash, a.userFound, a.next);
    }
  }

  lemma OfferKeepsMarks(y: Service, hash: Hash, userFound: bool, next: Hash)
    requires Marks(y)
    ensures Marks(Act(y, Offer(hash, userFound, next)))
  {
  }

  lemma {:induction false} ServeMarks(actions: seq<Action>)
    ensures Marks(Serve(actions))
  {
    if actions != [] {
      ServeMarks(actions[..|actions| - 1]);
      ActKeepsMarks(Serve(actions[..|actions| - 1]), actions[|actions| - 1]);
    }
  }

  lemma MoreDrawn(y: Service, hash: Hash, family: Family)
    requires Families(y) && hash !in y.drawn
    ensures Families(y.(drawn := y.drawn[hash := family]))
  {
    var drawn := y.drawn[hash := family];
    forall t | t in y.pending ensures TaskOk(drawn, t) {
      assert TaskOk(y.drawn, t);
    }
  }

  lemma OfferKeepsFamilies(y: Service, hash: Hash, userFound: bool, next: Hash)
    requires Families(y)
    ensures Families(Act(y, Offer(hash, userFound, next)))
  {
    if next !in y.drawn && hash in y.drawn && Answer(y.state, hash, userFound) == Success {
      MoreDrawn(y, next, Seen(y.state, hash).family);
    }
  }

  lemma LandKeepsFamilies(y: Service, t: Task)
    requires Families(y)
    ensures Families(Act(y, Land(t)))
  {
    if t in y.pending {
      assert TaskOk(y.drawn, t);
    }
  }

  lemma ActKeepsFamilies(y: Service, a: Action)
    requires Families(y)
    ensures Families(Act(y, a))
  {
    match a
    case Begin(_, hash, family) =>
      if hash !in y.drawn {
        MoreDrawn(y, hash, family);
      }
    case Offer(hash, userFound, next) => OfferKeepsFamilies(y, hash, userFound, next);
    case Land(t) => LandKeepsFamilies(y, t);
    case Fail(_) =>
    case Forget(_) =>
    case Wait(_) =>
  }

  lemma {:induction false} ServeFamilies(actions: seq<Action>)
    ensures Families(Serve(actions))
  {
    if actions != [] {
      ServeFamilies(actions[..|actions| - 1]);
      ActKeepsFamilies(Serve(actions[..|actions| - 1]), actions[|actions| - 1]);
    }
  }

  /** A reuse closes the rows of the token's family, its own among them, before its mark goes. */
  lemma ReuseKeepsRefused(y: Service, hash: Hash)
    requires Marks(y) && Families(y) && AllRefused(y) && Known(y.state, hash)
    ensures var s := y.state;
      AllRefused(y.(state := s.(rows := Revoked(s.rows, Seen(s, hash).family), cache := s.cache - {hash})))
  {
    var s := y.state;
    var y' := y.(state := s.(rows := Revoked(s.rows, Seen(s, hash).family), cache := s.cache - {hash}));
    forall h | h in y'.taken ensures Refused(y'.state, h) {
      RefusedIff(y, h);
      RefusedIff(y', h);
    }
  }

  /** A success marks what it takes. */
  lemma SuccessKeepsRefused(y: Service, hash: Hash, next: Hash)
    requires Marks(y) && AllRefused(y) && Known(y.state, hash) && next !in y.drawn && hash in y.drawn
    ensures var y' := y.(state := Cached(y.state, hash, next), taken := y.taken + [hash]);
      forall h :: h in y'.taken ==> Refused(y'.state, h)
  {
    var y' := y.(state := Cached(y.state, hash, next), taken := y.taken + [hash]);
    forall h | h in y'.taken ensures Refused(y'.state, h) {
      if h != hash {
        RefusedIff(y, h);
      }
    }
  }

  lemma OfferKeepsRefused(y: Service, hash: Hash, userFound: bool, next: Hash)
    requires Marks(y) && Families(y) && AllRefused(y)
    ensures AllRefused(Act(y, Offer(hash, userFound, next)))
  {
    if next !in y.drawn && hash in y.drawn {
      if Answer(y.state, hash, userFound) == ReuseDetected {
        ReuseKeepsRefused(y, hash);
      } else if Answer(y.state, hash, userFound) == Success {
        SuccessKeepsRefused(y, hash, next);
      }
    }
  }

  /** The clock and the cache alone. */
  lemma ForgettingDecides(y: Service, a: Action)
    requires Marks(y) && AllRefused(y) && (a.Wait? || a.Forget?)
    ensures AllRefused(Act(y, a)) <==> !Reopens(y, a)
  {
    var y' := Act(y, a);
    ActKeepsMarks(y, a);
    forall h | h in y.taken ensures Refused(y'.state, h) <==> !ForgottenOpen(y, a, h) {
      RefusedIff(y, h);
      RefusedIff(y', h);
    }
    if a.Forget? {
      forall h | h != a.hash ensures CacheLive(y'.state, h) == CacheLive(y.state, h) {
      }
    }
  }

  lemma InsertDecides(y: Service, t: Task)
    requires Marks(y) && AllRefused(y) && t.Insert? && t in y.pending
    ensures AllRefused(Act(y, Land(t))) <==> !Reopens(y, Land(t))
  {
    var y' := Act(y, Land(t));
    ActKeepsMarks(y, Land(t));
    forall h | h in y.taken
      ensures Refused(y'.state, h) <==> h != t.hash || CacheLive(y.state, h)
    {
      RefusedIff(y, h);
      RefusedIff(y', h);
    }
  }

  lemma RotationOpens(rows: Rows, prior: Hash, next: Hash, now: nat, h: Hash)
    ensures Open(Rotated(rows, prior, next, now), h) <==>
            if prior !in rows then Open(rows, h)
            else if h == next then true
            else h != prior && Open(rows, h)
  {
  }

  lemma RotationDecides(y: Service, t: Task)
    requires Marks(y) && AllRefused(y) && t.Rotation? && t in y.pending && t.prior != t.next
    ensures AllRefused(Act(y, Land(t))) <==> !Reopens(y, Land(t))
  {
    var y' := Act(y, Land(t));
    ActKeepsMarks(y, Land(t));
    forall h | h in y.taken
      ensures Refused(y'.state, h) <==> h != t.next || CacheLive(y.state, h) || t.prior !in y.state.rows
    {
      RefusedIff(y, h);
      RefusedIff(y', h);
      RotationOpens(y.state.rows, t.prior, t.next, y.state.now, h);
    }
  }

  /** One action makes a taken token one that would be taken again exactly when it reopens it. */
  lemma RefusalDecides(y: Service, a: Action)
    requires Marks(y) && Families(y) && AllRefused(y)
    ensures AllRefused(Act(y, a)) <==> !Reopens(y, a)
  {
    match a
    case Begin(_, _, _) => BeginKeepsRefused(y, a);
    case Offer(hash, userFound, next) => OfferKeepsRefused(y, hash, userFound, next);
    case Land(t) =>
      if t in y.pending {
        if t.Insert? {
          InsertDecides(y, t);
        } else {
          assert TaskOk(y.drawn, t);
          RotationDecides(y, t);
        }
      }
    case Fail(_) =>
    case Forget(_) => ForgettingDecides(y, a);
    case Wait(_) => ForgettingDecides(y, a);
  }

  lemma BeginKeepsRefused(y: Service, a: Action)
    requires Marks(y) && AllRefused(y) && a.Begin?
    ensures AllRefused(Act(y, a))
  {
    var y' := Act(y, a);
    ActKeepsMarks(y, a);
    forall h | h in y'.taken ensures Refused(y'.state, h) {
      RefusedIff(y, h);
      RefusedIff(y', h);
    }
  }

  // ---------------------------------------------------------------- whole runs

  ghost predicate RefusedAt(actions: seq<Action>, i: nat) {
    i <= |actions| && AllRefused(Serve(actions[..i]))
  }

  ghost predicate ReopensAt(actions: seq<Action>, i: nat) {
    i < |actions| && Reopens(Serve(actions[..i]), actions[i])
  }

  /**
   In every run, no token that was taken would ever be taken again if and only if the cache forgets none of them
   while its row is open, and no row of one that is forgotten lands.
   */
  lemma TakenOnceIff(actions: seq<Action>)
    ensures (forall i: nat :: i <= |actions| ==> RefusedAt(actions, i)) <==>
            (forall i: nat :: i < |actions| ==> !ReopensAt(actions, i))
  {
    assert actions[..0] == [];
    forall i: nat | i < |actions| && RefusedAt(actions, i)
      ensures RefusedAt(actions, i + 1) <==> !ReopensAt(actions, i)
    {
      assert actions[..i + 1] == actions[..i] + [actions[i]];
      ServeSnoc(actions[..i], actions[i]);
      ServeMarks(actions[..i]);
      ServeFamilies(actions[..i]);
      RefusalDecides(Serve(actions[..i]), actions[i]);
    }
    var p, bad := (i: nat) => RefusedAt(actions, i), (i: nat) => ReopensAt(actions, i);
    assert RefusedAt(actions, 0);
    AlwaysIff(|actions|, p, bad);
    assert forall i: nat :: p(i) <==> RefusedAt(actions, i);
    assert forall i: nat :: bad(i) <==> ReopensAt(actions, i);
  }

  predicate Distinct(taken: seq<Hash>) {
    forall i, j :: 0 <= i < j < |taken| ==> taken[i] != taken[j]
  }

  /** Then no token is taken twice. */
  lemma {:induction false} RefusedIsOnce(actions: seq<Action>)
    requires forall i: nat :: i <= |actions| ==> RefusedAt(actions, i)
    ensures Distinct(Serve(actions).taken)
  {
    if actions != [] {
      var n := |actions| - 1;
      forall i: nat | i <= n ensures RefusedAt(actions[..n], i) {
        assert actions[..n][..i] == actions[..i] && RefusedAt(actions, i);
      }
      RefusedIsOnce(actions[..n]);
      assert RefusedAt(actions, n) && actions[..n] == actions[..n];
      TakesNew(Serve(actions[..n]), actions[n]);
    }
  }

  lemma TakesNew(y: Service, a: Action)
    requires AllRefused(y) && Distinct(y.taken)
    ensures Distinct(Act(y, a).taken)
  {
    if a.Offer? && Act(y, a).taken != y.taken {
      assert Answer(y.state, a.hash, a.userFound) == Success;
      assert !Refused(y.state, a.hash);
    }
  }

  /** And otherwise one more presentation takes one twice. */
  lemma NotRefusedIsTwice(actions: seq<Action>, hash: Hash, next: Hash)
    requires var y := Serve(actions); hash in y.taken && !Refused(y.state, hash) && next !in y.drawn
    ensures !Distinct(Serve(actions + [Offer(hash, true, next)]).taken)
  {
    var y := Serve(actions);
    ServeMarks(actions);
    ServeSnoc(actions, Offer(hash, true, next));
    var i :| 0 <= i < |y.taken| && y.taken[i] == hash;
    assert (y.taken + [hash])[i] == (y.taken + [hash])[|y.taken|];
  }

  // ---------------------------------------------------------------- runs

  /** A token that has been given out and stored. */
  function Given(user: User, family: Family): seq<Action> {
    [] + [Begin(user, 0, family)] + [Land(Insert(user, 0, family))]
  }

  function GivenTo(user: User, family: Family): Service {
    Service(State(map[0 := Entry(user, family, false, false, REFRESH_TTL)],
                  map[0 := Row(user, family, None, false, false, 30 * DAY)], 0),
            multiset{}, [], map[0 := family])
  }

  lemma GivenRuns(user: User, family: Family)
    ensures Serve(Given(user, family)) == GivenTo(user, family)
  {
    var insert := Insert(user, 0, family);
    ServeSnoc([], Begin(user, 0, family));
    var y := Serve([] + [Begin(user, 0, family)]);
    assert y.pending == multiset{insert};
    ServeSnoc([] + [Begin(user, 0, family)], Land(insert));
    assert y.pending - multiset{insert} == multiset{};
  }

  /** Taken once, with its row still open and its mark in the cache. */
  predicate TakenFirst(y: Service) {
    && y.taken == [0] && 1 in y.drawn && 2 !in y.drawn && 0 in y.drawn && y.state.now == 0 && Open(y.state.rows, 0)
    && 0 in y.state.cache && y.state.cache[0].expireAt == USED_TTL
  }

  lemma FirstTaken(user: User, family: Family)
    ensures var y := Act(GivenTo(user, family), Offer(0, true, 1));
      TakenFirst(y) && y.pending == multiset{Rotation(0, 1)}
  {
    assert multiset{} + multiset{Rotation(0, 1)} == multiset{Rotation(0, 1)};
  }

  lemma FirstIsTaken(user: User, family: Family)
    ensures var y := Serve(Given(user, family) + [Offer(0, true, 1)]);
      TakenFirst(y) && y.pending == multiset{Rotation(0, 1)}
  {
    GivenRuns(user, family);
    ServeSnoc(Given(user, family), Offer(0, true, 1));
    var y := Serve(Given(user, family) + [Offer(0, true, 1)]);
    assert y == Act(GivenTo(user, family), Offer(0, true, 1));
    FirstTaken(user, family);
  }

  lemma TakenAgain(y: Service)
    requires TakenFirst(y)
    ensures Act(Act(y, Wait(60)), Offer(0, true, 2)).taken == [0, 0]
  {
    var y' := y.(state := y.state.(now := 60));
    assert Act(y, Wait(60)) == y';
    assert Answer(y'.state, 0, true) == Success;
    assert [0] + [0] == [0, 0];
  }

  /** The rotation takes longer than the minute the cache remembers it: the token is taken again. */
  lemma SlowRotationTakesTwice(user: User, family: Family)
    ensures var y := Serve(Given(user, family) + [Offer(0, true, 1)] + [Wait(60)] + [Offer(0, true, 2)]);
      y.taken == [0, 0]
  {
    var e1 := Given(user, family) + [Offer(0, true, 1)];
    FirstIsTaken(user, family);
    ServeSnoc(e1, Wait(60));
    ServeSnoc(e1 + [Wait(60)], Offer(0, true, 2));
    TakenAgain(Serve(e1));
  }

  /** Two calls in a row, whose rotations then land in the wrong order. */
  predicate BothTaken(y: Service, first: Task, second: Task) {
    && y.taken == [0, 1] && 1 in y.drawn && 3 !in y.drawn && y.state.now == 0
    && y.pending == multiset{first, second}
    && 0 in y.state.rows && 1 !in y.state.rows
    && 1 in y.state.cache && y.state.cache[1].expireAt == USED_TTL
  }

  lemma BothAreTaken(user: User, family: Family)
    ensures BothTaken(Act(Act(GivenTo(user, family), Offer(0, true, 1)), Offer(1, true, 2)),
                      Rotation(0, 1), Rotation(1, 2))
  {
    var y1 := Act(GivenTo(user, family), Offer(0, true, 1));
    assert y1.pending == multiset{Rotation(0, 1)};
    assert Answer(y1.state, 1, true) == Success;
  }

  lemma WrongOrder(y: Service)
    requires BothTaken(y, Rotation(0, 1), Rotation(1, 2))
    ensures var y' := Act(Act(y, Land(Rotation(1, 2))), Land(Rotation(0, 1)));
      && y'.pending == multiset{} && y'.taken == [0, 1] && y'.drawn == y.drawn && y'.state.now == 0
      && Open(y'.state.rows, 1) && 1 in y'.state.cache && y'.state.cache[1].expireAt == USED_TTL
  {
    var y1 := Act(y, Land(Rotation(1, 2)));
    assert y1 == y.(pending := multiset{Rotation(0, 1)});
    assert y1.pending - multiset{Rotation(0, 1)} == multiset{};
  }

  lemma OpenIsTaken(y: Service)
    requires y.taken == [0, 1] && 1 in y.drawn && 3 !in y.drawn && y.state.now == 0
    requires Open(y.state.rows, 1) && 1 in y.state.cache && y.state.cache[1].expireAt == USED_TTL
    ensures Act(Act(y, Wait(USED_TTL)), Offer(1, true, 3)).taken == [0, 1, 1]
  {
    var y' := y.(state := y.state.(now := USED_TTL));
    assert Act(y, Wait(USED_TTL)) == y';
    assert Answer(y'.state, 1, true) == Success;
    assert [0, 1] + [1] == [0, 1, 1];
  }

  /** A rotation that lands before its token has a row is lost, and with every task done the token is taken again. */
  lemma WrongOrderTakesTwice(user: User, family: Family)
    ensures var calls := Given(user, family) + [Offer(0, true, 1)] + [Offer(1, true, 2)];
      var landed := calls + [Land(Rotation(1, 2))] + [Land(Rotation(0, 1))];
      Serve(landed).pending == multiset{} &&
      Serve(landed + [Wait(USED_TTL)] + [Offer(1, true, 3)]).taken == [0, 1, 1]
  {
    var calls := Given(user, family) + [Offer(0, true, 1)] + [Offer(1, true, 2)];
    var landed := calls + [Land(Rotation(1, 2))] + [Land(Rotation(0, 1))];
    GivenRuns(user, family);
    ServeSnoc(Given(user, family), Offer(0, true, 1));
    ServeSnoc(Given(user, family) + [Offer(0, true, 1)], Offer(1, true, 2));
    BothAreTaken(user, family);
    ServeSnoc(calls, Land(Rotation(1, 2)));
    ServeSnoc(calls + [Land(Rotation(1, 2))], Land(Rotation(0, 1)));
    WrongOrder(Serve(calls));
    ServeSnoc(landed, Wait(USED_TTL));
    ServeSnoc(landed + [Wait(USED_TTL)], Offer(1, true, 3));
    OpenIsTaken(Serve(landed));
  }

  /** A rotation whose task fails leaves its token to be taken again once the minute is over. */
  lemma FailedRotationTakesTwice(user: User, family: Family)
    ensures var failed := Given(user, family) + [Offer(0, true, 1)] + [Fail(Rotation(0, 1))];
      Serve(failed).pending == multiset{} && Serve(failed + [Wait(60)] + [Offer(0, true, 2)]).taken == [0, 0]
  {
    var taken := Given(user, family) + [Offer(0, true, 1)];
    FirstIsTaken(user, family);
    ServeSnoc(taken, Fail(Rotation(0, 1)));
    var failed := taken + [Fail(Rotation(0, 1))];
    assert Serve(failed) == Serve(taken).(pending := multiset{});
    ServeSnoc(failed, Wait(60));
    ServeSnoc(failed + [Wait(60)], Offer(0, true, 2));
    TakenAgain(Serve(failed));
  }

  lemma EvictedIsTaken(y: Service)
    requires TakenFirst(y)
    ensures Act(Act(y, Forget(0)), Offer(0, true, 2)).taken == [0, 0]
  {
    var y' := y.(state := y.state.(cache := y.state.cache - {0}));
    assert Act(y, Forget(0)) == y';
    assert Answer(y'.state, 0, true) == Success;
    assert [0] + [0] == [0, 0];
  }

  /** And one that the cache evicts before the rotation lands is taken again at once. */
  lemma EvictionTakesTwice(user: User, family: Family)
    ensures Serve(Given(user, family) + [Offer(0, true, 1)] + [Forget(0)] + [Offer(0, true, 2)]).taken == [0, 0]
  {
    var taken := Given(user, family) + [Offer(0, true, 1)];
    FirstIsTaken(user, family);
    ServeSnoc(taken, Forget(0));
    ServeSnoc(taken + [Forget(0)], Offer(0, true, 2));
    EvictedIsTaken(Serve(taken));
  }
}
