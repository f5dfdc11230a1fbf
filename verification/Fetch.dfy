/**
 A whole fetch of a recipient: the messages found in Redis are handed on one by one and their ids trimmed from
 the inbox, then the same for those found in the table, and any trim that fails turns the fetch into an error. What
 module Delivery calls returned is what is handed on here.
 */
module Fetch {
  import opened Wrappers
  import opened Inbox
  import D = Delivery
  import DF = DeliveryFetch
  import IR = InboxRuns

  /** A message with the replies its commands get, and whether the Redis copy goes if it turns out invalid. */
  datatype Attempt = Attempt(msg: D.Message, counts: seq<Reply>, meters: seq<Reply>, removed: bool)

  predicate Tried(a: Attempt) {
    |a.counts| == D.RETRIES && |a.meters| == D.RETRIES
  }

  /** No column of the table holds a signature. */
  predicate Stored(a: Attempt) {
    a.msg.signature.None?
  }

  /** The counters so far, the messages handed on, and the ids queued for deletion. */
  datatype Tally = Tally(p: D.Progress, handed: seq<D.Message>, queued: seq<D.MsgId>)

  /** Of a message that is not handed on, only one that fails its check on the Redis path is deleted. */
  function HandOn(x: Tally, a: Attempt, path: D.Path, now: nat, f: D.FetchId): Tally {
    var q := DF.Fetched(x.p.(phase := D.Verifying), a.msg, path, a.counts, a.meters, now, f);
    var given := q.phase.Returned?;
    var deleted := given || (path.RedisHit? && !D.Verifies(path, a.msg) && a.removed);
    Tally(q.(phase := D.Verifying), if given then x.handed + [a.msg] else x.handed,
          if deleted then x.queued + [a.msg.id] else x.queued)
  }

  function HandOnAll(x: Tally, attempts: seq<Attempt>, path: D.Path, now: nat, f: D.FetchId): Tally {
    if attempts == [] then x
    else
      var n := |attempts| - 1;
      HandOn(HandOnAll(x, attempts[..n], path, now, f), attempts[n], path, now, f + n)
  }

  lemma HandOnMore(x: Tally, attempts: seq<Attempt>, n: nat, path: D.Path, now: nat, f: D.FetchId)
    requires n < |attempts|
    ensures HandOnAll(x, attempts[..n + 1], path, now, f) ==
            HandOn(HandOnAll(x, attempts[..n], path, now, f), attempts[n], path, now, f + n)
  {
    assert attempts[..n + 1][..n] == attempts[..n];
  }

  /**
   A hit is handed on if and only if it has the valid signature it asks for, one of three tries to count it is
   answered and, when that newly set its flag, one of three tries to meter it. It is queued for deletion when it is
   handed on, or fails its check and its copy could be removed.
   */
  lemma HitIsHandedOnIff(x: Tally, a: Attempt, now: nat, f: D.FetchId)
    requires x.p.phase.Verifying? && Tried(a)
    ensures var genuine := a.msg.requireProof ==> a.msg.signature.Some? && a.msg.signatureValid;
      var given := && genuine && DF.AnyAnswered(a.counts)
                   && (D.Alive(x.p.flags, a.msg.id, now) || DF.LostFirst(a.counts) || DF.AnyAnswered(a.meters));
      var x' := HandOn(x, a, D.RedisHit, now, f);
      && x'.p.phase.Verifying?
      && x'.handed == (if given then x.handed + [a.msg] else x.handed)
      && x'.queued == (if given || (!genuine && a.removed) then x.queued + [a.msg.id] else x.queued)
  {
    DF.FetchedReturnsIff(x.p.(phase := D.Verifying), a.msg, D.RedisHit, a.counts, a.meters, now, f);
  }

  /** Whatever is handed on was found in Redis and has the valid signature it asks for. */
  predicate GoodHit(hits: seq<Attempt>, m: D.Message) {
    (m.requireProof ==> m.signature.Some? && m.signatureValid) && exists i: nat :: i < |hits| && hits[i].msg == m
  }

  lemma GoodHitMore(hits: seq<Attempt>, n: nat, m: D.Message)
    requires n < |hits|
    requires GoodHit(hits[..n], m) || (m == hits[n].msg && (m.requireProof ==> m.signature.Some? && m.signatureValid))
    ensures GoodHit(hits, m)
  {
    if GoodHit(hits[..n], m) {
      var i: nat :| i < n && hits[..n][i].msg == m;
      assert hits[i].msg == m;
    } else {
      assert hits[n].msg == m;
    }
  }

  lemma {:induction false} HandedAreGood(x: Tally, hits: seq<Attempt>, now: nat, f: D.FetchId)
    requires x.p.phase.Verifying? && x.handed == [] && forall i :: 0 <= i < |hits| ==> Tried(hits[i])
    ensures var x' := HandOnAll(x, hits, D.RedisHit, now, f);
      x'.p.phase.Verifying? && forall m :: m in x'.handed ==> GoodHit(hits, m)
  {
    if hits != [] {
      var n := |hits| - 1;
      HandedAreGood(x, hits[..n], now, f);
      var before := HandOnAll(x, hits[..n], D.RedisHit, now, f);
      HitIsHandedOnIff(before, hits[n], now, f + n);
      forall m | m in HandOnAll(x, hits, D.RedisHit, now, f).handed ensures GoodHit(hits, m) {
        GoodHitMore(hits, n, m);
      }
    }
  }

  // ---------------------------------------------------------------- the trims

  function Trimmed(b: Box, ids: seq<string>, reply: Reply, now: nat): Box {
    if ids == [] || reply.Unreached? then b else TrimBox(b, Removed(ids), now)
  }

  predicate TrimAnswers(b: Box, ids: seq<string>, reply: Reply) {
    ids == [] || (reply.Answered? && Trim(b.list, Removed(ids)).Ok?)
  }

  /** The inbox after a fetch, and whether the fetch gives its messages. */
  function Ended(b: Box, hits: seq<string>, misses: seq<string>, first: Reply, second: Reply, now: nat): (Box, bool) {
    var b' := Trimmed(b, hits, first, now);
    if !TrimAnswers(b, hits, first) then (b', false)
    else (Trimmed(b', misses, second, now), TrimAnswers(b', misses, second))
  }

  // ---------------------------------------------------------------- the code

  class MessageFetch {
    const store: DF.InstantMessages
    const inbox: RecipientInbox
    var queued: seq<D.MsgId>

    constructor (store: DF.InstantMessages, inbox: RecipientInbox)
      ensures this.store == store && this.inbox == inbox && queued == []
    {
      this.store, this.inbox, queued := store, inbox, [];
    }

    ghost function State(handed: seq<D.Message>): Tally
      reads this, store
    {
      Tally(store.In(D.Verifying), handed, queued)
    }

    method HandOnOne(a: Attempt, path: D.Path, now: nat, ghost f: D.FetchId, handed: seq<D.Message>)
      returns (handed': seq<D.Message>)
      requires store.Valid() && Tried(a)
      modifies store, this`queued
      ensures store.Valid() && State(handed') == HandOn(old(State(handed)), a, path, now, f)
    {
      var given, phase := store.Deliver(a.msg, path, a.counts, a.meters, now, f);
      assert store.In(phase).(phase := D.Verifying) == store.In(D.Verifying);
      handed' := handed;
      if given.Some? {
        queued := queued + [a.msg.id];
        handed' := handed + [given.value];
      } else if path == D.RedisHit && !D.Verifies(path, a.msg) && a.removed {
        queued := queued + [a.msg.id];
      }
    }

    method HandOnEach(attempts: seq<Attempt>, path: D.Path, now: nat, ghost f: D.FetchId)
      returns (handed: seq<D.Message>)
      requires store.Valid() && forall i :: 0 <= i < |attempts| ==> Tried(attempts[i])
      modifies store, this`queued
      ensures store.Valid() && State(handed) == HandOnAll(old(State([])), attempts, path, now, f)
    {
      handed := [];
      ghost var start := State([]);
      for n := 0 to |attempts|
        invariant store.Valid()
        invariant State(handed) == HandOnAll(start, attempts[..n], path, now, f)
      {
        HandOnMore(start, attempts, n, path, now, f);
        handed := HandOnOne(attempts[n], path, now, f + n, handed);
      }
      assert attempts[..|attempts|] == attempts;
    }

    /** Nothing is handed on from the table. */
    method HandOnStored(rows: seq<Attempt>, now: nat, ghost f: D.FetchId) returns (handed: seq<D.Message>)
      requires store.Valid() && forall i :: 0 <= i < |rows| ==> Tried(rows[i]) && Stored(rows[i])
      modifies store, this`queued
      ensures store.Valid() && handed == [] && State([]) == old(State([]))
    {
      StoredIsNotHandedOn(State([]), rows, now, f);
      handed := HandOnEach(rows, D.SqlFallback, now, f);
    }

    method TrimInbox(ids: seq<string>, reply: Reply, now: nat) returns (ok: bool)
      modifies inbox`list, inbox`expiry
      ensures inbox.State() == Trimmed(old(inbox.State()), ids, reply, now)
      ensures ok <==> TrimAnswers(old(inbox.State()), ids, reply)
    {
      if ids == [] {
        return true;
      }
      if reply == Unreached {
        return false;
      }
      var r := inbox.TrimBatch(ids, now);
      ok := r.Ok? && reply == Answered;
    }

    /** `rows` is what the table gives for the ids that Redis misses, and nothing when the query fails. */
    method FetchMessages(hitIds: seq<string>, hits: seq<Attempt>, missIds: seq<string>, rows: seq<Attempt>,
                         first: Reply, second: Reply, now: nat, ghost f: D.FetchId)
      returns (r: Result<seq<D.Message>, ()>)
      requires store.Valid() && forall i :: 0 <= i < |hits| ==> Tried(hits[i])
      requires forall i :: 0 <= i < |rows| ==> Tried(rows[i]) && Stored(rows[i])
      modifies store, this`queued, inbox`list, inbox`expiry
      ensures store.Valid()
      ensures var x := HandOnAll(old(State([])), hits, D.RedisHit, now, f);
        && State(x.handed) == x
        && (inbox.State(), r.Ok?) == Ended(old(inbox.State()), hitIds, missIds, first, second, now)
        && (r.Ok? ==> r.value == x.handed)
      ensures r.Ok? ==> forall m :: m in r.value ==> GoodHit(hits, m)
    {
      HandedAreGood(State([]), hits, now, f);
      var messages := HandOnEach(hits, D.RedisHit, now, f);
      var ok := TrimInbox(hitIds, first, now);
      if !ok {
        return Err(());
      }
      if missIds != [] {
        var fromTable := HandOnStored(rows, now, f + |hits|);
        messages := messages + fromTable;
        ok := TrimInbox(missIds, second, now);
      }
      r := if ok then Ok(messages) else Err(());
    }
  }

  // ---------------------------------------------------------------- what comes from the table

  lemma StoredChangesNothing(x: Tally, a: Attempt, now: nat, f: D.FetchId)
    requires Stored(a) && Tried(a) && x.p.phase.Verifying?
    ensures HandOn(x, a, D.SqlFallback, now, f) == x
  {
    var q := x.p.(phase := D.Aborted);
    assert D.CheckOne(x.p, a.msg, D.SqlFallback) == q;
    DF.NoMoreCounting(q, a.msg.id, now, f, q, a.counts, 0);
    DF.NoMoreMetering(q, q, a.meters, 0);
  }

  /** A flushed message has lost its signature, which the check on this path asks for: it is never handed on. */
  lemma {:induction false} StoredIsNotHandedOn(x: Tally, rows: seq<Attempt>, now: nat, f: D.FetchId)
    requires x.p.phase.Verifying? && forall i :: 0 <= i < |rows| ==> Tried(rows[i]) && Stored(rows[i])
    ensures HandOnAll(x, rows, D.SqlFallback, now, f) == x
  {
    if rows != [] {
      var n := |rows| - 1;
      StoredIsNotHandedOn(x, rows[..n], now, f);
      StoredChangesNothing(x, rows[n], now, f + n);
    }
  }

  // ---------------------------------------------------------------- what a fetch leaves in the inbox

  lemma TrimmedIds(b: Box, ids: seq<string>, reply: Reply, now: nat)
    requires IR.Ids(b.list) && IR.Distinct(b.list)
    ensures TrimAnswers(b, ids, reply) <==>
            ids == [] || (reply.Answered? && |Without(b.list, Texts(ids))| < UNPACK_LIMIT)
    ensures TrimAnswers(b, ids, reply) ==> Trimmed(b, ids, reply, now).list == Without(b.list, Texts(ids))
  {
    if ids == [] {
      assert Texts(ids) == {};
      IR.WithoutNothing(b.list);
    } else {
      TrimsAgreeOnIds(b.list, ids);
    }
  }

  lemma TrimmedTwice(list: seq<string>, hits: seq<string>, misses: seq<string>)
    requires IR.Ids(list) && IR.Distinct(list)
    ensures var left := Without(list, Texts(hits));
      IR.Ids(left) && IR.Distinct(left) && Without(left, Texts(misses)) == Without(list, Texts(hits + misses))
  {
    IR.WithoutDistinct(list, Texts(hits));
    WithoutTwice(list, Texts(hits), Texts(misses));
    assert Texts(hits + misses) == Texts(hits) + Texts(misses);
  }

  /** A fetch that gives its messages has taken every id it asked for from the inbox, handed on or not. */
  lemma SuccessTakesAll(b: Box, hits: seq<string>, misses: seq<string>, first: Reply, second: Reply, now: nat)
    requires IR.Ids(b.list) && IR.Distinct(b.list)
    ensures var (b', ok) := Ended(b, hits, misses, first, second, now);
      ok ==> b'.list == Without(b.list, Texts(hits + misses))
  {
    TrimmedIds(b, hits, first, now);
    TrimmedTwice(b.list, hits, misses);
    if TrimAnswers(b, hits, first) {
      TrimmedIds(Trimmed(b, hits, first, now), misses, second, now);
    }
  }

  /** It gives them if and only if both trims are answered and leave fewer than 8000 ids. */
  lemma SucceedsIff(b: Box, hits: seq<string>, misses: seq<string>, first: Reply, second: Reply, now: nat)
    requires IR.Ids(b.list) && IR.Distinct(b.list)
    ensures Ended(b, hits, misses, first, second, now).1 <==>
            && (hits == [] || (first.Answered? && |Without(b.list, Texts(hits))| < UNPACK_LIMIT))
            && (misses == [] || (second.Answered? && |Without(b.list, Texts(hits + misses))| < UNPACK_LIMIT))
  {
    TrimmedIds(b, hits, first, now);
    TrimmedTwice(b.list, hits, misses);
    if TrimAnswers(b, hits, first) {
      TrimmedIds(Trimmed(b, hits, first, now), misses, second, now);
    }
  }

  /** A trim whose answer is lost takes the ids and fails the fetch; one that does not arrive only fails it. */
  lemma UnansweredTrimTakes(b: Box, hits: seq<string>, misses: seq<string>, first: Reply, second: Reply, now: nat)
    requires IR.Ids(b.list) && hits != [] && |Without(b.list, Texts(hits))| < UNPACK_LIMIT && !first.Answered?
    ensures var (b', ok) := Ended(b, hits, misses, first, second, now);
      !ok && b'.list == if first.Lost? then Without(b.list, Texts(hits)) else b.list
  {
    TrimsAgreeOnIds(b.list, hits);
  }

  // ---------------------------------------------------------------- runs

  const NOBODY: Tally := Tally(D.Progress(map[], map[], [], D.Verifying), [], [])

  function Plain(id: D.MsgId): D.Message {
    D.Message(id, false, None, false)
  }

  function Tries(id: D.MsgId, reply: Reply): Attempt {
    Attempt(Plain(id), Repeat(reply, D.RETRIES), Repeat(reply, D.RETRIES), false)
  }

  lemma AnsweredIsHandedOn(id: D.MsgId)
    ensures var x := HandOn(NOBODY, Tries(id, Answered), D.RedisHit, 0, 0);
      x.handed == [Plain(id)] && x.queued == [id] && D.Metered(x.p.meter, id) == 1
  {
    var replies := Repeat(Answered, D.RETRIES);
    var p := NOBODY.p.(phase := D.Counting(D.RETRIES));
    assert D.CheckOne(NOBODY.p, Plain(id), D.RedisHit) == p;
    assert replies[..1] == [] + [Answered] && replies[..1][..0] == [];
    var q := D.CountOne(p, id, 0, 0, Answered);
    assert DF.CountAll(p, id, 0, 0, replies[..1]) == q;
    DF.NoMoreCounting(q, id, 0, 0, p, replies, 1);
    var m := D.MeterOne(q, Answered);
    assert DF.MeterAll(q, replies[..1]) == m;
    DF.NoMoreMetering(m, q, replies, 1);
    assert DF.Fetched(NOBODY.p, Plain(id), D.RedisHit, replies, replies, 0, 0) == m;
  }

  /**
   With more than 8000 ids in the inbox, a fetch of one message counts, meters and queues it for deletion, and
   then answers with an error, the inbox gone.
   */
  lemma DiscardedFetch(id: D.MsgId, ids: seq<string>, second: Reply, expiry: Expiry)
    requires UNPACK_LIMIT < |ids| && IR.Distinct(ids) && IR.Ids(ids)
    ensures var x := HandOnAll(NOBODY, [Tries(id, Answered)], D.RedisHit, 0, 0);
      x.handed == [Plain(id)] && x.queued == [id] && D.Metered(x.p.meter, id) == 1
    ensures Ended(Box(ids, expiry), [ids[0]], [], Answered, second, 0) == (Box([], Never), false)
  {
    var one := [Tries(id, Answered)];
    AnsweredIsHandedOn(id);
    assert one[..0] == [];
    assert HandOnAll(NOBODY, one, D.RedisHit, 0, 0) == HandOn(NOBODY, one[0], D.RedisHit, 0, 0);
    TrimsAgreeOnIds(ids, [ids[0]]);
    IR.RemoveFirstFilters(ids, ids[0]);
    assert Texts([ids[0]]) == {ids[0]};
  }

  lemma UnreachedIsNotHandedOn(id: D.MsgId)
    ensures HandOn(NOBODY, Tries(id, Unreached), D.RedisHit, 0, 0) == NOBODY
  {
    var replies := Repeat(Unreached, D.RETRIES);
    var p := NOBODY.p;
    assert D.CheckOne(p, Plain(id), D.RedisHit) == p.(phase := D.Counting(3));
    assert replies[..1][..0] == [] && replies[..2][..1] == replies[..1] && replies[..3][..2] == replies[..2];
    var c := p.(phase := D.Counting(3));
    assert DF.CountAll(c, id, 0, 0, replies[..1]) == p.(phase := D.Counting(2));
    assert DF.CountAll(c, id, 0, 0, replies[..2]) == p.(phase := D.Counting(1));
    assert DF.CountAll(c, id, 0, 0, replies[..3]) == p.(phase := D.Aborted);
    assert replies[..3] == replies;
    var q := p.(phase := D.Aborted);
    DF.NoMoreMetering(q, q, replies, 0);
  }

  /** A message whose counting fails is not handed on, and its id is gone from the inbox all the same. */
  lemma UncountedIsGone(id: D.MsgId, text: string)
    requires |text| == 36
    ensures HandOnAll(NOBODY, [Tries(id, Unreached)], D.RedisHit, 0, 0).handed == []
    ensures Ended(Box([text], Never), [text], [], Answered, Answered, 0) == (Box([], Never), true)
  {
    var one := [Tries(id, Unreached)];
    UnreachedIsNotHandedOn(id);
    assert one[..0] == [];
    SucceedsIff(Box([text], Never), [text], [], Answered, Answered, 0);
    SuccessTakesAll(Box([text], Never), [text], [], Answered, Answered, 0);
    assert [text] + [] == [text];
    IR.WithoutAll([text], Texts([text]));
  }
}
