/**
 Where every counted unit is, over all runs of the usage flush: final flushes, late increments, lost
 replies, deletes that do not arrive and crashes included. For one counter of one key a ledger is
 kept of what the events do to it; the table and Redis then hold what was counted, less what was
 deleted uncommitted, plus what was committed and not deleted.
 */
module UsageLedger {
  import opened UsageFlush

  // ---------------------------------------------------------------- sums over a batch

  /** What the entries for the key add up to. */
  function SumAt(es: seq<Entry>, key: Key, f: Field): nat {
    if es == [] then 0
    else SumAt(es[..|es| - 1], key, f) + if es[|es| - 1].key == key then At(es[|es| - 1].counters, f) else 0
  }

  predicate Has(es: seq<Entry>, key: Key) {
    exists i :: 0 <= i < |es| && es[i].key == key
  }

  /** The key's counter as it was read last. */
  function LastAt(es: seq<Entry>, key: Key, f: Field): nat {
    if es == [] then 0
    else if es[|es| - 1].key == key then At(es[|es| - 1].counters, f)
    else LastAt(es[..|es| - 1], key, f)
  }

  lemma {:induction false} UpsertAdds(rows: map<Key, Row>, es: seq<Entry>, key: Key, f: Field)
    ensures At(InPostgres(Upsert(rows, es), key), f) == At(InPostgres(rows, key), f) + SumAt(es, key, f)
  {
    if es == [] {
    } else {
      UpsertAdds(rows, es[..|es| - 1], key, f);
    }
  }

  lemma {:induction false} SumWithoutZeros(es: seq<Entry>, key: Key, f: Field)
    ensures SumAt(NonZero(es), key, f) == SumAt(es, key, f)
  {
    if es == [] {
    } else {
      var n := |es| - 1;
      var kept := NonZero(es[..n]);
      SumWithoutZeros(es[..n], key, f);
      if IsZero(es[n].counters) {
        assert At(es[n].counters, f) == 0;
      } else {
        assert (kept + [es[n]])[..|kept|] == kept;
      }
    }
  }

  lemma {:induction false} SumOfNone(es: seq<Entry>, key: Key, f: Field)
    requires !Has(es, key)
    ensures SumAt(es, key, f) == 0
  {
    if es != [] {
      var n := |es| - 1;
      assert !Has(es[..n], key) by {
        forall i | 0 <= i < n ensures es[..n][i].key != key {
          assert es[i].key != key;
        }
      }
      SumOfNone(es[..n], key, f);
      assert es[n].key != key;
    }
  }

  // ---------------------------------------------------------------- reads only grow

  predicate AtMost(a: Counters, b: Counters) {
    forall f :: At(a, f) <= At(b, f)
  }

  /** Two reads of one key in one batch: the later one is no smaller. */
  predicate Ordered(es: seq<Entry>, i: nat, j: nat)
    requires i < |es| && j < |es|
  {
    es[i].key == es[j].key ==> AtMost(es[i].counters, es[j].counters)
  }

  ghost predicate Growing(es: seq<Entry>) {
    forall i: nat, j: nat :: i < j < |es| ==> Ordered(es, i, j)
  }

  /** Redis holds at least what was read. */
  predicate Covered(st: Store, e: Entry) {
    AtMost(e.counters, InRedis(st, e.key))
  }

  ghost predicate AllCovered(st: Store, es: seq<Entry>) {
    forall i: nat :: i < |es| ==> Covered(st, es[i])
  }

  ghost predicate ReadInv(s: System) {
    s.cycle.Scanning? ==> Growing(s.cycle.batch) && AllCovered(s.store, s.cycle.batch)
  }

  lemma ReadGrows(st: Store, es: seq<Entry>, key: Key)
    requires Growing(es) && AllCovered(st, es)
    ensures var more := es + [Entry(key, InRedis(st, key))]; Growing(more) && AllCovered(st, more)
  {
    var more := es + [Entry(key, InRedis(st, key))];
    forall i: nat, j: nat | i < j < |more| ensures Ordered(more, i, j) {
      if j < |es| {
        assert Ordered(es, i, j);
      } else {
        assert Covered(st, es[i]);
      }
    }
  }

  lemma StaysCovered(st: Store, st': Store, es: seq<Entry>)
    requires AllCovered(st, es)
    requires forall k :: AtMost(InRedis(st, k), InRedis(st', k))
    ensures AllCovered(st', es)
  {
    forall i: nat | i < |es| ensures Covered(st', es[i]) {
      assert Covered(st, es[i]);
      assert AtMost(InRedis(st, es[i].key), InRedis(st', es[i].key));
    }
  }

  lemma PlusAt(a: Counters, b: Counters, f: Field)
    ensures At(Plus(a, b), f) == At(a, f) + At(b, f)
  {
  }

  lemma IncrementCovers(st: Store, key: Key, c: Counters, es: seq<Entry>)
    requires AllCovered(st, es)
    ensures AllCovered(Increment(st, key, c), es)
  {
    var st' := Increment(st, key, c);
    forall k ensures AtMost(InRedis(st, k), InRedis(st', k)) {
      if k == key {
        forall f ensures At(InRedis(st, k), f) <= At(InRedis(st', k), f) {
          PlusAt(InRedis(st, k), c, f);
        }
      }
    }
    StaysCovered(st, st', es);
  }

  lemma FlagCovers(st: Store, key: Key, flag: bool, es: seq<Entry>)
    requires AllCovered(st, es)
    ensures AllCovered(SetFlag(st, key, flag), es)
  {
    StaysCovered(st, SetFlag(st, key, flag), es);
  }

  lemma ScanKeepsReads(s: System, key: Key, read: ReadOutcome, maxBatch: nat)
    requires ReadInv(s)
    ensures ReadInv(ScanKey(s, key, read, maxBatch))
  {
    if s.cycle.Scanning? {
      var st := SetFlag(s.store, key, true);
      FlagCovers(s.store, key, true, s.cycle.batch);
      ReadGrows(st, s.cycle.batch, key);
      assert InRedis(st, key) == InRedis(s.store, key);
    }
  }

  lemma StepKeepsReads(s: System, e: Event, maxBatch: nat)
    requires ReadInv(s)
    ensures ReadInv(Step(s, e, maxBatch))
  {
    match e
    case Incremented(key, c) =>
      if s.cycle.Scanning? {
        IncrementCovers(s.store, key, c, s.cycle.batch);
      }
    case Scan(key, read) => ScanKeepsReads(s, key, read, maxBatch);
    case _ =>
  }

  // ---------------------------------------------------------------- committed batches

  lemma {:induction false} NonZeroKeeps(es: seq<Entry>, i: nat)
    requires i < |es| && !IsZero(es[i].counters)
    ensures es[i] in NonZero(es)
  {
    if i < |es| - 1 {
      assert es[..|es| - 1][i] == es[i];
      NonZeroKeeps(es[..|es| - 1], i);
    }
  }

  lemma LastIsNew(es: seq<Entry>, i: nat)
    requires Distinct(NonZero(es)) && i < |es| - 1
    requires !IsZero(es[i].counters) && !IsZero(es[|es| - 1].counters)
    ensures es[i].key != es[|es| - 1].key
  {
    var n := |es| - 1;
    assert es[..n][i] == es[i];
    NonZeroKeeps(es[..n], i);
    var k :| 0 <= k < |NonZero(es[..n])| && NonZero(es[..n])[k] == es[i];
    assert NonZero(es)[k] == es[i] && NonZero(es)[|NonZero(es)| - 1] == es[n];
  }

  /** Of two entries with one key in a batch that commits, the first has no counters. */
  lemma CommittedHasNoDoubles(es: seq<Entry>, i: nat)
    requires Growing(es) && Distinct(NonZero(es)) && i < |es| - 1 && es[i].key == es[|es| - 1].key
    ensures IsZero(es[i].counters)
  {
    var n := |es| - 1;
    assert Ordered(es, i, n);
    if !IsZero(es[i].counters) {
      var f :| At(es[i].counters, f) != 0;
      assert At(es[n].counters, f) != 0;
      LastIsNew(es, i);
    }
  }

  lemma Shorter(es: seq<Entry>)
    requires es != [] && Growing(es) && Distinct(NonZero(es))
    ensures Growing(es[..|es| - 1]) && Distinct(NonZero(es[..|es| - 1]))
  {
    var n := |es| - 1;
    var before := NonZero(es[..n]);
    forall i: nat, j: nat | i < j < n ensures Ordered(es[..n], i, j) {
      assert Ordered(es, i, j);
    }
    forall i, j | 0 <= i < j < |before| ensures before[i].key != before[j].key {
      assert NonZero(es)[i] == before[i] && NonZero(es)[j] == before[j];
    }
  }

  lemma {:induction false} SumOfZeros(es: seq<Entry>, key: Key, f: Field)
    requires forall i :: 0 <= i < |es| && es[i].key == key ==> IsZero(es[i].counters)
    ensures SumAt(es, key, f) == 0
  {
    if es != [] {
      var n := |es| - 1;
      forall i | 0 <= i < n && es[..n][i].key == key ensures IsZero(es[..n][i].counters) {
        assert es[i] == es[..n][i];
      }
      SumOfZeros(es[..n], key, f);
      assert es[n].key == key ==> At(es[n].counters, f) == 0;
    }
  }

  /** So a batch that commits adds to a key what was read of it last. */
  lemma {:induction false} SumIsLast(es: seq<Entry>, key: Key, f: Field)
    requires Growing(es) && Distinct(NonZero(es))
    ensures SumAt(es, key, f) == LastAt(es, key, f)
  {
    if es != [] {
      var n := |es| - 1;
      if es[n].key == key {
        forall i | 0 <= i < n && es[..n][i].key == key ensures IsZero(es[..n][i].counters) {
          CommittedHasNoDoubles(es, i);
        }
        SumOfZeros(es[..n], key, f);
      } else {
        Shorter(es);
        SumIsLast(es[..n], key, f);
      }
    }
  }

  // ---------------------------------------------------------------- the ledger

  /**
   For one counter of one key: counted since the key was last read or deleted; committed and still to
   be deleted; deleted without having been committed; committed and left in Redis to be added again.
   */
  datatype Ledger = Ledger(since: nat, open: nat, late: nat, doubled: nat)

  function Close(l: Ledger): Ledger {
    l.(open := 0, doubled := l.doubled + l.open)
  }

  /** A scan that reads the key. */
  predicate ReadsKey(s: System, e: Event, maxBatch: nat, key: Key) {
    && e.Scan? && e.key == key && e.read.Read?
    && s.cycle.Scanning? && |s.cycle.batch| < maxBatch && BeforeCutoff(key, s.cycle.cutoff)
  }

  predicate Commit(s: System, e: Event) {
    e.Flush? && s.cycle.Scanning? && s.cycle.batch != [] && Commits(s.cycle.batch, e.outcome)
  }

  /** A delete of the key that arrives. */
  predicate DeletesKey(s: System, e: Event, key: Key) {
    e.Delete? && e.deleted && s.cycle.Deleting? && s.cycle.todo != [] && s.cycle.todo[0].key == key
  }

  /** The deletes after a commit come to their end, or the flusher stops. */
  predicate EndsDeleting(s: System, e: Event) {
    e.Crash? || (e.Delete? && s.cycle.Deleting? && |s.cycle.todo| == 1)
  }

  function Deleted(l: Ledger): Ledger {
    Ledger(0, 0, l.late + l.since, l.doubled)
  }

  function Post(l: Ledger, s: System, e: Event, maxBatch: nat, key: Key, f: Field): Ledger {
    if e.Incremented? && e.key == key then l.(since := l.since + At(e.c, f))
    else if ReadsKey(s, e, maxBatch, key) then l.(since := 0)
    else if Commit(s, e) then
      var amount := SumAt(s.cycle.batch, key, f);
      if Acknowledged(s.cycle.batch, e.outcome) then l.(open := amount) else l.(doubled := l.doubled + amount)
    else
      var after := if DeletesKey(s, e, key) then Deleted(l) else l;
      if EndsDeleting(s, e) then Close(after) else after
  }

  function Account(now: nat, events: seq<Event>, maxBatch: nat, key: Key, f: Field): Ledger {
    if events == [] then Ledger(0, 0, 0, 0)
    else
      var before := events[..|events| - 1];
      Post(Account(now, before, maxBatch, key, f), Run(now, before, maxBatch), events[|events| - 1], maxBatch, key, f)
  }

  predicate Balanced(s: System, l: Ledger, key: Key, f: Field) {
    At(InPostgres(s.store.rows, key), f) + At(InRedis(s.store, key), f) + l.late ==
    At(Made(s, key), f) + l.open + l.doubled
  }

  /** What Redis holds of a key read into the batch, or waiting to be deleted. */
  predicate Tracked(s: System, l: Ledger, key: Key, f: Field) {
    match s.cycle
    case Idle => l.open == 0
    case Scanning(_, batch) =>
      l.open == 0 && (Has(batch, key) ==> At(InRedis(s.store, key), f) == LastAt(batch, key, f) + l.since)
    case Deleting(_, todo) =>
      todo != [] && (Has(todo, key) ==> At(InRedis(s.store, key), f) == l.open + l.since)
  }

  predicate LedgerInv(s: System, l: Ledger, key: Key, f: Field) {
    Balanced(s, l, key, f) && Tracked(s, l, key, f)
  }

  lemma IncrementPosts(s: System, l: Ledger, added: Key, c: Counters, maxBatch: nat, key: Key, f: Field)
    requires LedgerInv(s, l, key, f)
    ensures var e := Incremented(added, c);
      LedgerInv(Step(s, e, maxBatch), Post(l, s, e, maxBatch, key, f), key, f)
  {
    var s' := Step(s, Incremented(added, c), maxBatch);
    var d := if added == key then At(c, f) else 0;
    IncrementAt(s, added, c, maxBatch, key, f);
    AddedPosts(s, s', l, d, key, f);
    assert Post(l, s, Incremented(added, c), maxBatch, key, f) == l.(since := l.since + d);
  }

  /** An increment is seen in Redis and in the history, and nowhere else. */
  lemma IncrementAt(s: System, added: Key, c: Counters, maxBatch: nat, key: Key, f: Field)
    ensures var s' := Step(s, Incremented(added, c), maxBatch);
      var d := if added == key then At(c, f) else 0;
      && At(InRedis(s'.store, key), f) == At(InRedis(s.store, key), f) + d
      && At(Made(s', key), f) == At(Made(s, key), f) + d
  {
    if added == key {
      PlusAt(InRedis(s.store, key), c, f);
      PlusAt(Made(s, key), c, f);
    }
  }

  lemma AddedPosts(s: System, s': System, l: Ledger, d: nat, key: Key, f: Field)
    requires LedgerInv(s, l, key, f) && s'.cycle == s.cycle && s'.store.rows == s.store.rows
    requires At(InRedis(s'.store, key), f) == At(InRedis(s.store, key), f) + d
    requires At(Made(s', key), f) == At(Made(s, key), f) + d
    ensures LedgerInv(s', l.(since := l.since + d), key, f)
  {
  }

  lemma HasLast(batch: seq<Entry>, e: Entry, key: Key, f: Field)
    ensures Has(batch + [e], key) <==> Has(batch, key) || e.key == key
    ensures LastAt(batch + [e], key, f) == if e.key == key then At(e.counters, f) else LastAt(batch, key, f)
  {
    var more := batch + [e];
    assert more[..|batch|] == batch;
    if Has(batch, key) {
      var i :| 0 <= i < |batch| && batch[i].key == key;
      assert more[i].key == key;
    }
    if e.key == key {
      assert more[|batch|].key == key;
    }
  }

  /** A scan changes no counter in either store. */
  lemma ScanChanges(s: System, scanned: Key, read: ReadOutcome, maxBatch: nat, key: Key)
    ensures var s' := ScanKey(s, scanned, read, maxBatch);
      && s'.store.rows == s.store.rows && s'.made == s.made && InRedis(s'.store, key) == InRedis(s.store, key)
      && s'.cycle == if ReadsKey(s, Scan(scanned, read), maxBatch, scanned)
                     then Scanning(s.cycle.cutoff, s.cycle.batch + [Entry(scanned, InRedis(s.store, scanned))])
                     else s.cycle
  {
  }

  lemma ScanPosts(s: System, l: Ledger, scanned: Key, read: ReadOutcome, maxBatch: nat, key: Key, f: Field)
    requires LedgerInv(s, l, key, f)
    ensures LedgerInv(ScanKey(s, scanned, read, maxBatch), Post(l, s, Scan(scanned, read), maxBatch, key, f), key, f)
  {
    ScanChanges(s, scanned, read, maxBatch, key);
    var e := Scan(scanned, read);
    if ReadsKey(s, e, maxBatch, scanned) {
      HasLast(s.cycle.batch, Entry(scanned, InRedis(s.store, scanned)), key, f);
      assert Post(l, s, e, maxBatch, key, f) == if scanned == key then l.(since := 0) else l;
    } else {
      assert Post(l, s, e, maxBatch, key, f) == l;
    }
  }

  lemma FlushPosts(s: System, l: Ledger, outcome: CommitOutcome, maxBatch: nat, key: Key, f: Field)
    requires LedgerInv(s, l, key, f) && ReadInv(s)
    ensures LedgerInv(FlushBatch(s, outcome), Post(l, s, Flush(outcome), maxBatch, key, f), key, f)
  {
    if Commit(s, Flush(outcome)) {
      CommitAdds(s, outcome, key, f);
    }
  }

  lemma CommitAdds(s: System, outcome: CommitOutcome, key: Key, f: Field)
    requires Commit(s, Flush(outcome)) && ReadInv(s)
    ensures At(InPostgres(FlushBatch(s, outcome).store.rows, key), f) ==
            At(InPostgres(s.store.rows, key), f) + SumAt(s.cycle.batch, key, f)
    ensures SumAt(s.cycle.batch, key, f) == LastAt(s.cycle.batch, key, f)
  {
    var batch := s.cycle.batch;
    UpsertAdds(s.store.rows, NonZero(batch), key, f);
    SumWithoutZeros(batch, key, f);
    SumIsLast(batch, key, f);
  }

  lemma RestHas(todo: seq<Entry>, key: Key)
    requires todo != [] && Has(todo[1..], key)
    ensures Has(todo, key)
  {
    var i :| 0 <= i < |todo[1..]| && todo[1..][i].key == key;
    assert todo[i + 1].key == key;
  }

  lemma DeleteChanges(s: System, untracked: bool, deleted: bool, key: Key)
    requires s.cycle.Deleting? && s.cycle.todo != []
    ensures var s' := DeleteNext(s, untracked, deleted);
      var rest := s.cycle.todo[1..];
      && s'.store.rows == s.store.rows && s'.made == s.made
      && InRedis(s'.store, key) ==
         (if DeletesKey(s, Delete(untracked, deleted), key) then map[] else InRedis(s.store, key))
      && s'.cycle == if rest == [] then Scanning(s.cycle.cutoff, []) else Deleting(s.cycle.cutoff, rest)
  {
  }

  lemma DeletePosts(s: System, l: Ledger, untracked: bool, deleted: bool, maxBatch: nat, key: Key, f: Field)
    requires LedgerInv(s, l, key, f) && s.cycle.Deleting?
    ensures var e := Delete(untracked, deleted);
      LedgerInv(DeleteNext(s, untracked, deleted), Post(l, s, e, maxBatch, key, f), key, f)
  {
    var todo, e := s.cycle.todo, Delete(untracked, deleted);
    DeleteChanges(s, untracked, deleted, key);
    if todo[0].key == key {
      assert Has(todo, key);
    }
    if Has(todo[1..], key) {
      RestHas(todo, key);
    }
    var after := if DeletesKey(s, e, key) then Deleted(l) else l;
    assert Post(l, s, e, maxBatch, key, f) == if |todo| == 1 then Close(after) else after;
  }

  lemma StepPosts(s: System, l: Ledger, e: Event, maxBatch: nat, key: Key, f: Field)
    requires LedgerInv(s, l, key, f) && ReadInv(s)
    ensures LedgerInv(Step(s, e, maxBatch), Post(l, s, e, maxBatch, key, f), key, f)
  {
    match e
    case Incremented(added, c) => IncrementPosts(s, l, added, c, maxBatch, key, f);
    case Scan(scanned, read) => ScanPosts(s, l, scanned, read, maxBatch, key, f);
    case Flush(outcome) => FlushPosts(s, l, outcome, maxBatch, key, f);
    case Delete(untracked, deleted) =>
      if s.cycle.Deleting? {
        DeletePosts(s, l, untracked, deleted, maxBatch, key, f);
      }
    case Tick(_) =>
    case Recover(_) =>
    case Start(_) =>
    case Finish =>
    case Crash =>
  }

  lemma {:induction false} RunPosts(now: nat, events: seq<Event>, maxBatch: nat, key: Key, f: Field)
    ensures ReadInv(Run(now, events, maxBatch))
    ensures LedgerInv(Run(now, events, maxBatch), Account(now, events, maxBatch, key, f), key, f)
  {
    if events == [] {
    } else {
      var before, e := events[..|events| - 1], events[|events| - 1];
      RunPosts(now, before, maxBatch, key, f);
      StepKeepsReads(Run(now, before, maxBatch), e, maxBatch);
      StepPosts(Run(now, before, maxBatch), Account(now, before, maxBatch, key, f), e, maxBatch, key, f);
    }
  }

  lemma {:induction false} EarlierIsZero(es: seq<Entry>, i: nat, j: nat)
    requires Growing(es) && Distinct(NonZero(es)) && i < j < |es| && es[i].key == es[j].key
    ensures IsZero(es[i].counters)
  {
    if j == |es| - 1 {
      CommittedHasNoDoubles(es, i);
    } else {
      Shorter(es);
      EarlierIsZero(es[..|es| - 1], i, j);
    }
  }

  /**
   In every run, a commit adds to the row of a key what was read of it last, however often the scan
   has returned the key: of several entries of one key only the last can have counters.
   */
  lemma CommitAddsLastRead(now: nat, events: seq<Event>, maxBatch: nat, outcome: CommitOutcome, key: Key, f: Field)
    requires var c := Run(now, events, maxBatch).cycle; c.Scanning? && Commits(c.batch, outcome)
    ensures var s := Run(now, events, maxBatch);
      At(InPostgres(FlushBatch(s, outcome).store.rows, key), f) ==
      At(InPostgres(s.store.rows, key), f) + LastAt(s.cycle.batch, key, f)
    ensures var es := Run(now, events, maxBatch).cycle.batch;
      forall i, j :: 0 <= i < j < |es| && es[i].key == es[j].key ==> IsZero(es[i].counters)
  {
    var s := Run(now, events, maxBatch);
    var es := s.cycle.batch;
    RunPosts(now, events, maxBatch, key, f);
    SumIsLast(es, key, f);
    SumWithoutZeros(es, key, f);
    UpsertAdds(s.store.rows, NonZero(es), key, f);
    forall i, j | 0 <= i < j < |es| && es[i].key == es[j].key ensures IsZero(es[i].counters) {
      EarlierIsZero(es, i, j);
    }
  }

  /**
   In every run the table and Redis hold what was counted, less the increments made between the last
   read of the key and its delete, plus what was committed and not deleted: for good, or not yet.
   */
  lemma EveryRunBalances(now: nat, events: seq<Event>, maxBatch: nat, key: Key, f: Field)
    ensures var s := Run(now, events, maxBatch);
      var l := Account(now, events, maxBatch, key, f);
      && At(InPostgres(s.store.rows, key), f) + At(InRedis(s.store, key), f) ==
         At(Made(s, key), f) - l.late + l.doubled + l.open
      && (!s.cycle.Deleting? ==> l.open == 0)
  {
    RunPosts(now, events, maxBatch, key, f);
  }

  // ---------------------------------------------------------------- when nothing is lost or doubled

  /** What a delete of the key takes that was counted after the last read. */
  function Lost(l: Ledger, s: System, e: Event, key: Key): nat {
    if DeletesKey(s, e, key) then l.since else 0
  }

  /**
   What is committed and stays in Redis: by a commit without an answer, a crash between commit and
   delete, or the last delete of a batch when the key's own did not arrive.
   */
  function LeftBehind(l: Ledger, s: System, e: Event, key: Key, f: Field): nat {
    if Commit(s, e) then if Acknowledged(s.cycle.batch, e.outcome) then 0 else SumAt(s.cycle.batch, key, f)
    else if EndsDeleting(s, e) && !DeletesKey(s, e, key) then l.open
    else 0
  }

  lemma PostAdds(l: Ledger, s: System, e: Event, maxBatch: nat, key: Key, f: Field)
    ensures var l' := Post(l, s, e, maxBatch, key, f);
      l'.late == l.late + Lost(l, s, e, key) && l'.doubled == l.doubled + LeftBehind(l, s, e, key, f)
  {
  }

  /** Event `i` deletes the key after more of the counter was counted than had been read. */
  predicate Overtaken(now: nat, events: seq<Event>, maxBatch: nat, key: Key, f: Field, i: nat)
    requires i < |events|
  {
    Lost(Account(now, events[..i], maxBatch, key, f), Run(now, events[..i], maxBatch), events[i], key) > 0
  }

  /** Event `i` leaves some of the counter committed and in Redis, to be added again. */
  predicate Repeated(now: nat, events: seq<Event>, maxBatch: nat, key: Key, f: Field, i: nat)
    requires i < |events|
  {
    LeftBehind(Account(now, events[..i], maxBatch, key, f), Run(now, events[..i], maxBatch), events[i], key, f) > 0
  }

  lemma SameBefore(now: nat, events: seq<Event>, maxBatch: nat, key: Key, f: Field, i: nat)
    requires i < |events| - 1
    ensures var before := events[..|events| - 1];
      && Overtaken(now, before, maxBatch, key, f, i) == Overtaken(now, events, maxBatch, key, f, i)
      && Repeated(now, before, maxBatch, key, f, i) == Repeated(now, events, maxBatch, key, f, i)
  {
    assert events[..|events| - 1][..i] == events[..i];
  }

  lemma LateGrows(now: nat, events: seq<Event>, maxBatch: nat, key: Key, f: Field)
    requires events != []
    ensures var n := |events| - 1;
      Account(now, events, maxBatch, key, f).late == 0 <==>
        Account(now, events[..n], maxBatch, key, f).late == 0 && !Overtaken(now, events, maxBatch, key, f, n)
  {
    var n := |events| - 1;
    PostAdds(Account(now, events[..n], maxBatch, key, f), Run(now, events[..n], maxBatch), events[n], maxBatch, key, f);
  }

  /** Nothing is deleted uncounted exactly when no delete is overtaken by an increment of the counter ... */
  lemma {:induction false} NothingLostIff(now: nat, events: seq<Event>, maxBatch: nat, key: Key, f: Field)
    ensures Account(now, events, maxBatch, key, f).late == 0 <==>
            forall i: nat :: i < |events| ==> !Overtaken(now, events, maxBatch, key, f, i)
  {
    if events != [] {
      var n := |events| - 1;
      NothingLostIff(now, events[..n], maxBatch, key, f);
      LateGrows(now, events, maxBatch, key, f);
      forall i: nat | i < n
        ensures Overtaken(now, events[..n], maxBatch, key, f, i) == Overtaken(now, events, maxBatch, key, f, i)
      {
        SameBefore(now, events, maxBatch, key, f, i);
      }
    }
  }

  lemma DoubledGrows(now: nat, events: seq<Event>, maxBatch: nat, key: Key, f: Field)
    requires events != []
    ensures var n := |events| - 1;
      Account(now, events, maxBatch, key, f).doubled == 0 <==>
        Account(now, events[..n], maxBatch, key, f).doubled == 0 && !Repeated(now, events, maxBatch, key, f, n)
  {
    var n := |events| - 1;
    PostAdds(Account(now, events[..n], maxBatch, key, f), Run(now, events[..n], maxBatch), events[n], maxBatch, key, f);
  }

  /** ... and nothing is counted twice exactly when no commit is left in Redis with some of the counter. */
  lemma {:induction false} NothingDoubledIff(now: nat, events: seq<Event>, maxBatch: nat, key: Key, f: Field)
    ensures Account(now, events, maxBatch, key, f).doubled == 0 <==>
            forall i: nat :: i < |events| ==> !Repeated(now, events, maxBatch, key, f, i)
  {
    if events != [] {
      var n := |events| - 1;
      NothingDoubledIff(now, events[..n], maxBatch, key, f);
      DoubledGrows(now, events, maxBatch, key, f);
      forall i: nat | i < n
        ensures Repeated(now, events[..n], maxBatch, key, f, i) == Repeated(now, events, maxBatch, key, f, i)
      {
        SameBefore(now, events, maxBatch, key, f, i);
      }
    }
  }

  // ---------------------------------------------------------------- regular runs

  /** Regular cycles without crashes, answered commits, increments in their own hour, deletes that arrive. */
  predicate Regular(s: System, e: Event) {
    match e
    case Incremented(key, _) => key.hour == s.now / HOUR
    case Start(flushAll) => !flushAll
    case Flush(outcome) => !outcome.Unacknowledged?
    case Delete(_, deleted) => deleted
    case Crash => false
    case _ => true
  }

  ghost predicate AllRegular(now: nat, events: seq<Event>, maxBatch: nat) {
    forall i :: 0 <= i < |events| ==> Regular(Run(now, events[..i], maxBatch), events[i])
  }

  /** The cycle reads hours that are over, so what it has read stays what Redis holds. */
  predicate Quiet(s: System, l: Ledger, key: Key) {
    && (!s.cycle.Idle? ==> s.cycle.cutoff <= s.now / HOUR * HOUR)
    && (Has(Entries(s.cycle), key) ==> BeforeCutoff(key, s.cycle.cutoff) && l.since == 0)
    && (s.cycle.Deleting? && !Has(s.cycle.todo, key) ==> l.open == 0)
    && l.late == 0 && l.doubled == 0
  }

  lemma HourMonotone(a: nat, b: nat)
    requires a <= b
    ensures a / HOUR * HOUR <= b / HOUR * HOUR
  {
  }

  lemma RegularDelete(s: System, l: Ledger, untracked: bool, maxBatch: nat, key: Key, f: Field)
    requires Quiet(s, l, key) && Tracked(s, l, key, f) && s.cycle.Deleting?
    ensures Quiet(DeleteNext(s, untracked, true), Post(l, s, Delete(untracked, true), maxBatch, key, f), key)
  {
    var todo := s.cycle.todo;
    if todo[0].key == key {
      assert Has(todo, key);
    } else if Has(todo, key) {
      var i :| 0 <= i < |todo| && todo[i].key == key;
      assert todo[1..][i - 1].key == key;
    }
    if Has(todo[1..], key) {
      RestHas(todo, key);
    }
  }

  lemma RegularFlush(s: System, l: Ledger, outcome: CommitOutcome, maxBatch: nat, key: Key, f: Field)
    requires Quiet(s, l, key) && Tracked(s, l, key, f) && !outcome.Unacknowledged?
    ensures Quiet(FlushBatch(s, outcome), Post(l, s, Flush(outcome), maxBatch, key, f), key)
  {
    if s.cycle.Scanning? && !Has(s.cycle.batch, key) {
      SumOfNone(s.cycle.batch, key, f);
    }
  }

  lemma RegularStep(s: System, l: Ledger, e: Event, maxBatch: nat, key: Key, f: Field)
    requires Quiet(s, l, key) && Tracked(s, l, key, f) && Regular(s, e)
    ensures Quiet(Step(s, e, maxBatch), Post(l, s, e, maxBatch, key, f), key)
  {
    match e
    case Tick(d) => HourMonotone(s.now, s.now + d);
    case Incremented(_, _) =>
    case Scan(scanned, _) =>
      if s.cycle.Scanning? {
        HasLast(s.cycle.batch, Entry(scanned, InRedis(s.store, scanned)), key, f);
      }
    case Flush(outcome) => RegularFlush(s, l, outcome, maxBatch, key, f);
    case Delete(untracked, _) =>
      if s.cycle.Deleting? {
        RegularDelete(s, l, untracked, maxBatch, key, f);
      }
    case Recover(_) =>
    case Start(_) =>
    case Finish =>
  }

  lemma {:induction false} RegularRunsQuiet(now: nat, events: seq<Event>, maxBatch: nat, key: Key, f: Field)
    requires AllRegular(now, events, maxBatch)
    ensures Quiet(Run(now, events, maxBatch), Account(now, events, maxBatch, key, f), key)
  {
    if events == [] {
    } else {
      var n := |events| - 1;
      forall i | 0 <= i < n ensures Regular(Run(now, events[..n][..i], maxBatch), events[..n][i]) {
        assert events[..n][..i] == events[..i];
      }
      RegularRunsQuiet(now, events[..n], maxBatch, key, f);
      RunPosts(now, events[..n], maxBatch, key, f);
      RegularStep(Run(now, events[..n], maxBatch), Account(now, events[..n], maxBatch, key, f), events[n], maxBatch,
                  key, f);
    }
  }

  /** No increment is lost or counted twice: between commits and deletes the two stores hold them all. */
  lemma RegularRunsConserve(now: nat, events: seq<Event>, maxBatch: nat, key: Key, f: Field)
    requires AllRegular(now, events, maxBatch)
    ensures var s := Run(now, events, maxBatch);
      var held := At(InPostgres(s.store.rows, key), f) + At(InRedis(s.store, key), f);
      && (!s.cycle.Deleting? ==> held == At(Made(s, key), f))
      && (s.cycle.Deleting? ==> held == At(Made(s, key), f) + Account(now, events, maxBatch, key, f).open)
  {
    EveryRunBalances(now, events, maxBatch, key, f);
    RegularRunsQuiet(now, events, maxBatch, key, f);
  }
}
