/**
 The per-recipient inbox list in Redis: how it is rebuilt from the undelivered rows, in pages or in
 one query, how sends append to it, and the two scripts that trim the fetched ids from it.
 */
module Inbox {
  import opened Wrappers

  const MAX_QUEUE_LEN: nat := 10_000
  const PAGE_SIZE: nat := 1000
  const CACHE_TTL_SECS: nat := 600
  /** How the lifetime reads as a script argument. */
  const TTL_TEXT: string := "600"
  const REBUILD_LOCK_TTL_SECS: nat := 5

  /** Lua 5.1 puts 8000 values on its stack at most (LUAI_MAXCSTACK), the unpacked table being one of them. */
  const UNPACK_LIMIT: nat := 8000

  /** When Redis drops a key or gives up a lock. */
  datatype Expiry = Never | At(second: nat)

  /** The list and its expiry; Redis has no empty list, so an empty one has no expiry. */
  datatype Box = Box(list: seq<string>, expiry: Expiry)

  /** LIMIT and OFFSET over a fixed, totally ordered result. */
  function Page(rows: seq<string>, limit: nat, offset: nat): seq<string> {
    rows[Min(offset, |rows|)..Min(offset + limit, |rows|)]
  }

  /** How many ids the page loop appends: whole pages until the limit is reached. */
  function Taken(n: nat, page: nat, limit: nat): nat
    requires page > 0
  {
    Min(n, if limit == 0 then page else (limit + page - 1) / page * page)
  }

  /** Whether the page loop makes the query at this offset. */
  predicate Queried(n: nat, page: nat, limit: nat, offset: nat)
    requires page > 0
  {
    offset % page == 0 && offset <= n && (offset == 0 || offset < limit)
  }

  function Without(items: seq<string>, gone: set<string>): seq<string> {
    if items == [] then []
    else
      var kept := Without(items[..|items| - 1], gone);
      if items[|items| - 1] in gone then kept else kept + [items[|items| - 1]]
  }

  function Texts(ids: seq<string>): set<string> {
    set id | id in ids
  }

  /** What a trim leaves: the other items, or nothing when they are too many to be pushed back. */
  function Trim(list: seq<string>, gone: set<string>): Result<seq<string>, ()> {
    var kept := Without(list, gone);
    if |kept| < UNPACK_LIMIT then Ok(kept) else Err(())
  }

  function TrimBox(b: Box, gone: set<string>, now: nat): Box {
    match Trim(b.list, gone)
    case Ok(kept) => Box(kept, if kept == [] then Never else At(now + CACHE_TTL_SECS))
    case Err(_) => Box([], Never)
  }

  /** All arguments of the first script are in its removal set, the lifetime among them. */
  function Removed(ids: seq<string>): set<string> {
    Texts(ids) + {TTL_TEXT}
  }

  lemma MulOrder(i: int, j: int, page: nat)
    ensures i <= j ==> i * page <= j * page
    ensures (i + 1) * page == i * page + page
  {
    if i <= j {
      assert (j - i) * page >= 0;
    }
  }

  lemma MultipleOf(i: nat, page: nat)
    requires page > 0
    ensures i * page % page == 0
  {
    var n := i * page;
    var q, r := n / page, n % page;
    assert n == q * page + r;
    MulOrder(q + 1, i, page);
    MulOrder(q, i, page);
    MulOrder(i + 1, q, page);
    MulOrder(i, q, page);
  }

  lemma NextMultiple(a: nat, b: nat, page: nat)
    requires page > 0 && a % page == 0 && b % page == 0
    ensures a < b ==> a + page <= b
    ensures (a + page) % page == 0
  {
    var i, j := a / page, b / page;
    assert a == i * page && b == j * page;
    MulOrder(j, i, page);
    MulOrder(i, j, page);
    MulOrder(i + 1, j, page);
    MultipleOf(i + 1, page);
  }

  /** The rounded-up limit is the first multiple of the page size that reaches it. */
  lemma RoundedUp(offset: nat, page: nat, limit: nat)
    requires page > 0 && offset % page == 0 && offset < limit <= offset + page
    ensures (limit + page - 1) / page * page == offset + page
  {
    var i, n := offset / page, limit + page - 1;
    var pages := n / page;
    assert offset == i * page;
    assert n == pages * page + n % page;
    MulOrder(i, pages, page);
    MulOrder(pages, i, page);
    MulOrder(i + 2, pages, page);
    MulOrder(i + 1, pages, page);
  }

  lemma StopsAtTaken(n: nat, page: nat, limit: nat, offset: nat)
    requires page > 0 && Queried(n, page, limit, offset)
    requires offset + page >= limit || offset + page > n
    ensures Min(offset + page, n) == Taken(n, page, limit)
  {
    if limit > 0 {
      var rounded := (limit + page - 1) / page * page;
      assert limit <= rounded;
      if offset + page >= limit {
        RoundedUp(offset, page, limit);
      } else {
        assert n < limit;
      }
    }
  }

  /** A query still to fail is at the next page or later. */
  lemma Onward(n: nat, page: nat, limit: nat, offset: nat, failAt: Option<nat>)
    requires page > 0 && Queried(n, page, limit, offset) && failAt != Some(offset)
    ensures failAt.Some? && Queried(n, page, limit, failAt.value) && offset <= failAt.value ==>
              offset + page <= failAt.value
    ensures (offset + page) % page == 0
  {
    NextMultiple(offset, if failAt.Some? && failAt.value % page == 0 then failAt.value else offset, page);
  }

  class RecipientInbox {
    var list: seq<string>
    var expiry: Expiry
    var tempSet: set<string>
    var lock: Expiry

    function State(): Box
      reads this
    {
      Box(list, expiry)
    }

    /** `failAt` is the offset of the query that fails, if one does: pages already appended stay. */
    method RebuildPaginated(rows: seq<string>, page: nat, limit: nat, failAt: Option<nat>, now: nat) returns (ok: bool)
      requires page > 0
      modifies this`list, this`expiry
      ensures ok <==> failAt.None? || !Queried(|rows|, page, limit, failAt.value)
      ensures ok ==> list == old(list) + rows[..Taken(|rows|, page, limit)]
      ensures ok ==> expiry == (if rows == [] then old(expiry) else At(now + 600))
      ensures !ok ==> list == old(list) + rows[..failAt.value] && expiry == old(expiry)
    {
      var offset, totalAdded := 0, 0;
      assert rows[..0] == [];
      while true
        invariant offset == totalAdded <= |rows| && Queried(|rows|, page, limit, offset)
        invariant failAt.Some? && Queried(|rows|, page, limit, failAt.value) ==> offset <= failAt.value
        invariant list == old(list) + rows[..totalAdded]
        invariant expiry == old(expiry)
        decreases |rows| - offset
      {
        if failAt == Some(offset) {
          return false;
        }
        Onward(|rows|, page, limit, offset, failAt);
        var ids := Page(rows, page, offset);
        if ids == [] {
          StopsAtTaken(|rows|, page, limit, offset);
          break;
        }
        list := list + ids;
        totalAdded := totalAdded + |ids|;
        assert rows[..totalAdded] == rows[..offset] + ids;
        if totalAdded >= limit {
          StopsAtTaken(|rows|, page, limit, offset);
          break;
        }
        if |ids| < page {
          StopsAtTaken(|rows|, page, limit, offset);
          break;
        }
        offset := offset + page;
      }
      if totalAdded > 0 {
        expiry := At(now + CACHE_TTL_SECS);
      }
      ok := true;
    }

    /** The single-query form: one LIMIT query, one script, either of which may fail. */
    method Rebuild(rows: seq<string>, limit: nat, queried: bool, script: Reply, now: nat) returns (ok: bool)
      modifies this`list, this`expiry
      ensures var taken := queried && Min(|rows|, limit) > 0 && !script.Unreached?;
        && list == (if taken then old(list) + rows[..Min(|rows|, limit)] else old(list))
        && expiry == (if taken then At(now + 600) else old(expiry))
      ensures ok <==> queried && (Min(|rows|, limit) == 0 || script.Answered?)
    {
      if !queried {
        return false;
      }
      var undelivered := Page(rows, limit, 0);
      if undelivered == [] {
        return true;
      }
      if script == Unreached {
        return false;
      }
      for i := 0 to |undelivered|
        invariant list == old(list) + undelivered[..i]
        invariant expiry == old(expiry)
      {
        list := list + [undelivered[i]];
      }
      assert undelivered[..|undelivered|] == undelivered;
      expiry := At(now + CACHE_TTL_SECS);
      ok := script == Answered;
    }

    /**
     Rebuilds under a lock, and only an inbox that is still empty. A lost answer to the SET counts as no
     lock, an LLEN that fails returns with the lock held, and all other ways give it back if the DEL arrives.
     */
    method RebuildSafe(rows: seq<string>, failAt: Option<nat>, now: nat,
                       lockAnswered: bool, lengthAnswered: bool, unlockArrives: bool)
      returns (r: Result<bool, ()>)
      modifies this`list, this`expiry, this`lock
      ensures var taken := old(lock.At? && now < lock.second);
        var held := if taken then old(lock) else At(now + 5);
        var given := if unlockArrives then Never else held;
        if taken || !lockAnswered then r == Ok(false) && State() == old(State()) && lock == held
        else if !lengthAnswered then r == Err(()) && State() == old(State()) && lock == held
        else if old(list) != [] then r == Ok(false) && State() == old(State()) && lock == given
        else
          && lock == given
          && (r.Err? <==> failAt.Some? && Queried(|rows|, 1000, 10_000, failAt.value))
          && (r.Ok? ==> r.value && list == rows[..Min(|rows|, 10_000)])
          && (r.Ok? ==> expiry == (if rows == [] then old(expiry) else At(now + 600)))
          && (r.Err? ==> list == rows[..failAt.value] && expiry == old(expiry))
    {
      RebuildsAgreeIff(|rows|, PAGE_SIZE, MAX_QUEUE_LEN);
      if lock.At? && now < lock.second {
        return Ok(false);
      }
      lock := At(now + REBUILD_LOCK_TTL_SECS);
      if !lockAnswered {
        return Ok(false);
      }
      if !lengthAnswered {
        return Err(());
      }
      if |list| > 0 {
        lock := if unlockArrives then Never else lock;
        return Ok(false);
      }
      var ok := RebuildPaginated(rows, PAGE_SIZE, MAX_QUEUE_LEN, failAt, now);
      lock := if unlockArrives then Never else lock;
      r := if ok then Ok(true) else Err(());
    }

    /** RPUSH then LTRIM 0 MAX_QUEUE_LEN, whose end index is inclusive. */
    method Append(id: string)
      modifies this`list
      ensures list == Appended(old(list), id)
    {
      list := list + [id];
      list := list[..Min(|list|, MAX_QUEUE_LEN + 1)];
    }

    /** DEL, then RPUSH of what is unpacked, then EXPIRE; a script that stops does not undo its DEL. */
    method Replace(filtered: seq<string>, now: nat) returns (ok: bool)
      requires |filtered| <= |list|
      modifies this`list, this`expiry
      ensures ok <==> |filtered| < UNPACK_LIMIT
      ensures State() == if !ok || filtered == [] then Box([], Never) else Box(filtered, At(now + CACHE_TTL_SECS))
    {
      list, expiry := [], Never;
      if |filtered| > 0 {
        if |filtered| >= UNPACK_LIMIT {
          return false;
        }
        list := filtered;
        expiry := At(now + CACHE_TTL_SECS);
      }
      ok := true;
    }

    /** The first script: the number removed, or an error that leaves no list. */
    method TrimBatch(ids: seq<string>, now: nat) returns (r: Result<nat, ()>)
      modifies this`list, this`expiry
      ensures State() == if ids == [] then old(State()) else TrimBox(old(State()), Removed(ids), now)
      ensures r.Ok? <==> ids == [] || Trim(old(list), Removed(ids)).Ok?
      ensures r.Ok? ==> r.value == |old(list)| - |list|
    {
      if ids == [] {
        return Ok(0);
      }
      var args := ids + [TTL_TEXT];
      var toRemove: set<string> := {};
      for i := 0 to |args|
        invariant toRemove == Texts(args[..i])
      {
        assert args[..i + 1] == args[..i] + [args[i]];
        toRemove := toRemove + {args[i]};
      }
      assert args[..|args|] == args;
      assert Texts(args) == Removed(ids);
      var filtered := FilterOut(toRemove);
      var removed := |list| - |filtered|;
      var ok := Replace(filtered, now);
      r := if ok then Ok(removed) else Err(());
    }

    /** The second script: a temporary Redis set holds the ids, without the lifetime. */
    method TrimBatchLarge(ids: seq<string>, now: nat) returns (r: Result<nat, ()>)
      modifies this`list, this`expiry, this`tempSet
      ensures State() ==
              if ids == [] then old(State()) else TrimBox(old(State()), old(tempSet) + Texts(ids), now)
      ensures r.Ok? <==> ids == [] || Trim(old(list), old(tempSet) + Texts(ids)).Ok?
      ensures r.Ok? ==> r.value == |old(list)| - |list|
      ensures tempSet == if ids == [] then old(tempSet) else {}
    {
      if ids == [] {
        return Ok(0);
      }
      for i := 0 to |ids|
        modifies `tempSet
        invariant tempSet == old(tempSet) + Texts(ids[..i])
      {
        assert ids[..i + 1] == ids[..i] + [ids[i]];
        tempSet := tempSet + {ids[i]};
      }
      assert ids[..|ids|] == ids;
      var filtered := FilterOut(tempSet);
      tempSet := {};
      var removed := |list| - |filtered|;
      var ok := Replace(filtered, now);
      r := if ok then Ok(removed) else Err(());
    }

    method FilterOut(gone: set<string>) returns (filtered: seq<string>)
      ensures filtered == Without(list, gone)
      ensures |filtered| <= |list|
    {
      filtered := [];
      for i := 0 to |list|
        invariant filtered == Without(list[..i], gone)
        invariant |filtered| <= i
      {
        assert list[..i + 1][..i] == list[..i];
        if list[i] !in gone {
          filtered := filtered + [list[i]];
        }
      }
      assert list[..|list|] == list;
    }
  }

  function Appended(list: seq<string>, id: string): seq<string> {
    (list + [id])[..Min(|list| + 1, MAX_QUEUE_LEN + 1)]
  }

  // ---------------------------------------------------------------- the two rebuilds

  /**
   The page loop appends exactly what the single query returns when the limit is a whole number of pages, as with
   the constants of the code, or is not reached.
   */
  lemma RebuildsAgreeIff(n: nat, page: nat, limit: nat)
    requires page > 0
    ensures Taken(n, page, limit) == Min(n, limit) <==> n <= limit || (limit > 0 && limit % page == 0)
  {
    if limit > 0 {
      var pages := (limit + page - 1) / page;
      var m := limit + page - 1;
      assert m == pages * page + m % page;
      if limit % page == 0 {
        NextMultiple(0, limit, page);
        BackOne(limit, page);
        RoundedUp(limit - page, page, limit);
      } else {
        MultipleOf(pages, page);
      }
    }
  }

  lemma BackOne(n: nat, page: nat)
    requires page > 0 && n >= page && n % page == 0
    ensures (n - page) % page == 0
  {
    var i := n / page;
    assert n == i * page;
    MulOrder(i - 1, i, page);
    MulOrder(i, 0, page);
    MultipleOf(i - 1, page);
  }

  // ---------------------------------------------------------------- trimming

  /** What a filter is: the kept items are those at increasing positions, and no other item is kept. */
  ghost predicate Selects(items: seq<string>, gone: set<string>, kept: seq<string>, at: seq<nat>) {
    && |at| == |kept|
    && (forall k :: 0 <= k < |at| ==> at[k] < |items| && items[at[k]] == kept[k] && kept[k] !in gone)
    && (forall k :: 0 < k < |at| ==> at[k - 1] < at[k])
    && (forall i :: 0 <= i < |items| && items[i] !in gone ==> i in at)
  }

  lemma SelectsOneMore(items: seq<string>, gone: set<string>, kept: seq<string>, at: seq<nat>)
    requires items != [] && Selects(items[..|items| - 1], gone, kept, at)
    ensures var n := |items| - 1;
      if items[n] in gone then Selects(items, gone, kept, at) else Selects(items, gone, kept + [items[n]], at + [n])
  {
    var n := |items| - 1;
    var at' := if items[n] in gone then at else at + [n];
    forall i | 0 <= i < |items| && items[i] !in gone ensures i in at' {
      if i < n {
        assert items[..n][i] == items[i];
        assert i in at;
      } else {
        assert at'[|at'| - 1] == n;
      }
    }
  }

  lemma {:induction false} WithoutSelects(items: seq<string>, gone: set<string>) returns (at: seq<nat>)
    ensures Selects(items, gone, Without(items, gone), at)
  {
    if items == [] {
      at := [];
    } else {
      var n := |items| - 1;
      var before := WithoutSelects(items[..n], gone);
      at := if items[n] in gone then before else before + [n];
      SelectsOneMore(items, gone, Without(items[..n], gone), before);
    }
  }

  lemma {:induction false} WithoutSame(items: seq<string>, a: set<string>, b: set<string>)
    requires forall i :: 0 <= i < |items| ==> (items[i] in a <==> items[i] in b)
    ensures Without(items, a) == Without(items, b)
  {
    if items != [] {
      WithoutSame(items[..|items| - 1], a, b);
    }
  }

  lemma {:induction false} WithoutHas(items: seq<string>, gone: set<string>, x: string)
    ensures x in Without(items, gone) <==> x in items && x !in gone
  {
    if items != [] {
      WithoutHas(items[..|items| - 1], gone, x);
      assert items == items[..|items| - 1] + [items[|items| - 1]];
    }
  }

  /** A trim leaves the filter, for ten minutes from now, exactly when that is fewer than 8000 items. */
  lemma TrimKeepsIff(b: Box, gone: set<string>, now: nat)
    ensures TrimBox(b, gone, now).list == Without(b.list, gone) <==> |Without(b.list, gone)| < 8000
    ensures |Without(b.list, gone)| >= 8000 ==> TrimBox(b, gone, now) == Box([], Never)
    ensures TrimBox(b, gone, now).expiry == if TrimBox(b, gone, now).list == [] then Never else At(now + 600)
  {
    var kept := Without(b.list, gone);
    assert |kept| >= 8000 ==> kept != [];
  }

  /**
   The scripts do the same exactly when the lifetime's text is asked for, or is no item, or when both
   fail because even without it too much is left.
   */
  lemma TrimsAgreeIff(list: seq<string>, ids: seq<string>)
    ensures Trim(list, Removed(ids)) == Trim(list, Texts(ids)) <==>
              "600" in ids || "600" !in list || |Without(list, Removed(ids))| >= 8000
  {
    if TTL_TEXT in ids || TTL_TEXT !in list {
      WithoutSame(list, Removed(ids), Texts(ids));
    } else {
      WithoutHas(list, Removed(ids), TTL_TEXT);
      WithoutHas(list, Texts(ids), TTL_TEXT);
      WithoutMore(list, Texts(ids), {TTL_TEXT});
    }
  }

  lemma WithoutMore(items: seq<string>, a: set<string>, b: set<string>)
    ensures |Without(items, a + b)| <= |Without(items, a)|
  {
    WithoutTwice(items, a, b);
    WithoutShrinks(Without(items, a), b);
  }

  lemma {:induction false} WithoutTwice(items: seq<string>, a: set<string>, b: set<string>)
    ensures Without(Without(items, a), b) == Without(items, a + b)
  {
    if items != [] {
      var n := |items| - 1;
      WithoutTwice(items[..n], a, b);
      if items[n] !in a {
        assert Without(items, a)[..|Without(items, a)| - 1] == Without(items[..n], a);
      }
    }
  }

  lemma {:induction false} WithoutShrinks(items: seq<string>, gone: set<string>)
    ensures |Without(items, gone)| <= |items|
  {
    if items != [] {
      WithoutShrinks(items[..|items| - 1], gone);
    }
  }

  /** Printed ids are 36 characters long, so on an inbox of ids the scripts agree. */
  lemma TrimsAgreeOnIds(list: seq<string>, ids: seq<string>)
    requires forall i :: 0 <= i < |list| ==> |list[i]| == 36
    ensures Without(list, Removed(ids)) == Without(list, Texts(ids))
  {
    assert |TTL_TEXT| == 3;
    WithoutSame(list, Removed(ids), Texts(ids));
  }

  /** The id goes to the end of a list that is not full; at the cap the newest is dropped, and the list stays. */
  lemma FullInboxDropsTheNewest(list: seq<string>, id: string)
    ensures |list| <= 10_000 <==> Appended(list, id) == list + [id]
    ensures |list| == 10_001 <==> Appended(list, id) == list
    ensures |Appended(list, id)| <= 10_001 && Appended(list, id) <= list + [id]
  {
    if |list| == 10_001 {
      assert (list + [id])[..|list|] == list;
    } else if |list| <= 10_000 {
      assert (list + [id])[..|list| + 1] == list + [id];
    }
  }
}
