/**
 What the usage flush is for: a flush, and a whole cycle, that nothing comes between and nothing fails moves exactly
 the keys it has read from Redis to the table, counter by counter, and leaves every other key as it was.
 */
module UsageMoves {
  import opened UsageFlush
  import opened UsageLedger
  import opened UsageCycles

  predicate Kept(a: Store, b: Store, key: Key) {
    && InRedis(b, key) == InRedis(a, key) && InPostgres(b.rows, key) == InPostgres(a.rows, key)
    && (key in b.active <==> key in a.active)
  }

  /** Redis forgets the key, and the table has all of it. */
  predicate Moved(a: Store, b: Store, key: Key) {
    && key !in b.hashes && InRedis(b, key) == map[]
    && forall f :: At(InPostgres(b.rows, key), f) == At(InPostgres(a.rows, key), f) + At(InRedis(a, key), f)
  }

  /** The entries of a batch are what Redis holds of their keys. */
  ghost predicate Reads(st: Store, es: seq<Entry>) {
    forall i: nat :: i < |es| ==> es[i].counters == InRedis(st, es[i].key)
  }

  // ---------------------------------------------------------------- one batch

  lemma {:induction false} ReadsLast(st: Store, es: seq<Entry>, key: Key, f: Field)
    requires Reads(st, es) && Has(es, key)
    ensures LastAt(es, key, f) == At(InRedis(st, key), f)
  {
    var n := |es| - 1;
    if es[n].key != key {
      var i :| 0 <= i < |es| && es[i].key == key;
      assert es[..n][i].key == key;
      ReadsLast(st, es[..n], key, f);
    }
  }

  lemma ReadsGrow(st: Store, es: seq<Entry>)
    requires Reads(st, es)
    ensures Growing(es)
  {
    forall i: nat, j: nat | i < j < |es| ensures Ordered(es, i, j) {
    }
  }

  lemma {:induction false} NonZeroHas(es: seq<Entry>, key: Key)
    requires Has(NonZero(es), key)
    ensures Has(es, key)
  {
    var n := |es| - 1;
    if es[n].key != key {
      var kept := NonZero(es[..n]);
      var i :| 0 <= i < |NonZero(es)| && NonZero(es)[i].key == key;
      assert i < |kept| && kept[i].key == key;
      NonZeroHas(es[..n], key);
      var k :| 0 <= k < n && es[..n][k].key == key;
      assert es[k].key == key;
    }
  }

  lemma {:induction false} UpsertOther(rows: map<Key, Row>, es: seq<Entry>, key: Key)
    requires !Has(es, key)
    ensures InPostgres(Upsert(rows, es), key) == InPostgres(rows, key)
  {
    if es != [] {
      var n := |es| - 1;
      assert es[n].key != key;
      forall i | 0 <= i < n ensures es[..n][i].key != key {
        assert es[i].key != key;
      }
      UpsertOther(rows, es[..n], key);
    }
  }

  /** An acknowledged commit of what Redis holds adds all of it, and no other key changes. */
  lemma CommitAddsReads(s: System, outcome: CommitOutcome, key: Key)
    requires s.cycle.Scanning? && Acknowledged(s.cycle.batch, outcome) && Reads(s.store, s.cycle.batch)
    ensures var rows, rows' := s.store.rows, FlushBatch(s, outcome).store.rows;
      if Has(s.cycle.batch, key) then
        forall f :: At(InPostgres(rows', key), f) == At(InPostgres(rows, key), f) + At(InRedis(s.store, key), f)
      else InPostgres(rows', key) == InPostgres(rows, key)
  {
    var es, rows := s.cycle.batch, s.store.rows;
    if Has(es, key) {
      ReadsGrow(s.store, es);
      forall f
        ensures At(InPostgres(Upsert(rows, NonZero(es)), key), f) ==
                At(InPostgres(rows, key), f) + At(InRedis(s.store, key), f)
      {
        ReadsLast(s.store, es, key, f);
        SumIsLast(es, key, f);
        SumWithoutZeros(es, key, f);
        UpsertAdds(rows, NonZero(es), key, f);
      }
    } else if es != [] {
      if Has(NonZero(es), key) {
        NonZeroHas(es, key);
      }
      UpsertOther(rows, NonZero(es), key);
    }
  }

  /** Two entries of one key that both have something to add. */
  predicate Doubles(es: seq<Entry>, i: nat, j: nat)
    requires i < j < |es|
  {
    es[i].key == es[j].key && !IsZero(es[i].counters) && !IsZero(es[j].counters)
  }

  /** A batch is acknowledged when its commit takes effect and is answered, or when it has nothing to commit. */
  lemma AcknowledgedIff(es: seq<Entry>, outcome: CommitOutcome)
    ensures Acknowledged(es, outcome) <==>
            && !outcome.NotCommitted?
            && (outcome.Committed? || forall i :: 0 <= i < |es| ==> IsZero(es[i].counters))
            && forall i: nat, j: nat :: i < j < |es| ==> !Doubles(es, i, j)
  {
    AllZeroIff(es);
    NoDoublesIff(es);
  }

  lemma {:induction false} AllZeroIff(es: seq<Entry>)
    ensures NonZero(es) == [] <==> forall i :: 0 <= i < |es| ==> IsZero(es[i].counters)
  {
    if es != [] {
      var n := |es| - 1;
      AllZeroIff(es[..n]);
      assert forall i :: 0 <= i < n ==> es[..n][i] == es[i];
    }
  }

  lemma {:induction false} HasNonZero(es: seq<Entry>, key: Key)
    ensures Has(NonZero(es), key) <==> exists i :: 0 <= i < |es| && es[i].key == key && !IsZero(es[i].counters)
  {
    if es != [] {
      var n := |es| - 1;
      HasNonZero(es[..n], key);
      HasMore(NonZero(es[..n]), es[n], key);
      assert forall i :: 0 <= i < n ==> es[..n][i] == es[i];
    }
  }

  lemma DistinctMore(es: seq<Entry>, e: Entry)
    ensures Distinct(es + [e]) <==> Distinct(es) && !Has(es, e.key)
  {
    var more := es + [e];
    if Distinct(more) {
      forall i | 0 <= i < |es| ensures es[i].key != e.key {
        assert more[i].key != more[|es|].key;
      }
      forall i, j | 0 <= i < j < |es| ensures es[i].key != es[j].key {
        assert more[i].key != more[j].key;
      }
    }
  }

  lemma {:induction false} NoDoublesIff(es: seq<Entry>)
    ensures Distinct(NonZero(es)) <==> forall i: nat, j: nat :: i < j < |es| ==> !Doubles(es, i, j)
  {
    if es != [] {
      var n := |es| - 1;
      NoDoublesIff(es[..n]);
      assert forall i: nat, j: nat :: i < j < n ==> (Doubles(es[..n], i, j) <==> Doubles(es, i, j));
      if !IsZero(es[n].counters) {
        DistinctMore(NonZero(es[..n]), es[n]);
        HasNonZero(es[..n], es[n].key);
        if i :| 0 <= i < n && es[..n][i].key == es[n].key && !IsZero(es[..n][i].counters) {
          assert Doubles(es, i, n);
        }
        if i: nat :| i < n && Doubles(es, i, n) {
          assert es[..n][i].key == es[n].key && !IsZero(es[..n][i].counters);
        }
      }
    }
  }

  lemma HasMore(es: seq<Entry>, e: Entry, key: Key)
    ensures Has(es + [e], key) <==> Has(es, key) || e.key == key
  {
    if i :| 0 <= i < |es| && es[i].key == key {
      assert (es + [e])[i].key == key;
    }
    if e.key == key {
      assert (es + [e])[|es|].key == key;
    }
  }

  lemma {:induction false} UpsertKeys(rows: map<Key, Row>, es: seq<Entry>, key: Key)
    ensures key in Upsert(rows, es) <==> key in rows || Has(es, key)
  {
    if es != [] {
      var n := |es| - 1;
      UpsertKeys(rows, es[..n], key);
      HasMore(es[..n], es[n], key);
      assert es[..n] + [es[n]] == es;
    }
  }

  /** A row is made only where there is something to add. */
  lemma CommitMakesRow(s: System, outcome: CommitOutcome, key: Key)
    requires s.cycle.Scanning? && Acknowledged(s.cycle.batch, outcome) && Reads(s.store, s.cycle.batch)
    requires Has(s.cycle.batch, key)
    ensures key in FlushBatch(s, outcome).store.rows <==> key in s.store.rows || !IsZero(InRedis(s.store, key))
  {
    var es := s.cycle.batch;
    UpsertKeys(s.store.rows, NonZero(es), key);
    HasNonZero(es, key);
    var i :| 0 <= i < |es| && es[i].key == key;
    assert es[i].counters == InRedis(s.store, key);
  }

  lemma FirstOrRest(todo: seq<Entry>, key: Key)
    requires todo != []
    ensures Has(todo, key) <==> todo[0].key == key || Has(todo[1..], key)
  {
    if i :| 0 <= i < |todo| && todo[i].key == key {
      assert i > 0 ==> todo[1..][i - 1].key == key;
    }
    if i :| 0 <= i < |todo| - 1 && todo[1..][i].key == key {
      assert todo[i + 1].key == key;
    }
  }

  /** The deletes take the keys of the batch out of Redis, and touch nothing else. */
  lemma {:induction false} DeletesClear(s: System, untracked: bool, key: Key)
    requires s.cycle.Deleting?
    ensures var s' := DeleteAll(s, untracked, true);
      && s'.store.rows == s.store.rows
      && (if Has(s.cycle.todo, key) then key !in s'.store.hashes
          else InRedis(s'.store, key) == InRedis(s.store, key))
      && (key in s'.store.hashes ==> key in s.store.hashes)
      && (key in s'.store.active <==> key in s.store.active && !(untracked && Has(s.cycle.todo, key)))
    decreases |s.cycle.todo|
  {
    var todo := s.cycle.todo;
    if todo != [] {
      FirstOrRest(todo, key);
      var s' := DeleteNext(s, untracked, true);
      if s'.cycle.Deleting? {
        DeletesClear(s', untracked, key);
      }
    }
  }

  /**
   After an acknowledged flush of what Redis holds, with deletes that arrive, every key of the batch is gone from
   Redis and all of it is in the table; every other key is as it was.
   */
  lemma FlushMoves(s: System, outcome: CommitOutcome, untracked: bool, key: Key)
    requires s.cycle.Scanning? && Acknowledged(s.cycle.batch, outcome) && Reads(s.store, s.cycle.batch)
    ensures var s' := FlushWhole(s, outcome, untracked, true);
      if Has(s.cycle.batch, key) then
        && key !in s'.store.hashes && (untracked ==> key !in s'.store.active)
        && (key in s'.store.rows <==> key in s.store.rows || !IsZero(InRedis(s.store, key)))
        && forall f :: At(InPostgres(s'.store.rows, key), f) ==
                       At(InPostgres(s.store.rows, key), f) + At(InRedis(s.store, key), f)
      else Kept(s.store, s'.store, key) && (key in s'.store.hashes ==> key in s.store.hashes)
  {
    CommitAddsReads(s, outcome, key);
    if Has(s.cycle.batch, key) {
      CommitMakesRow(s, outcome, key);
    }
    var s' := FlushBatch(s, outcome);
    if s'.cycle.Deleting? {
      DeletesClear(s', untracked, key);
    }
  }

  /** A flush that does not commit leaves both stores as they were. */
  lemma FailedFlushKeeps(s: System, outcome: CommitOutcome, untracked: bool, deleted: bool)
    requires s.cycle.Scanning? && !Commits(s.cycle.batch, outcome)
    ensures FlushWhole(s, outcome, untracked, deleted).store == s.store
  {
  }

  // ---------------------------------------------------------------- one key

  /**
   A scanned key of a past hour is marked, and made if it was gone, unless the mark does not arrive; its counters stay
   as they are and go into the batch when they are read. Of a later key nothing is touched.
   */
  lemma ScanMarks(s: System, key: Key, read: ReadOutcome, maxBatch: nat, k: Key)
    requires s.cycle.Scanning? && |s.cycle.batch| < maxBatch
    ensures var s', past := ScanKey(s, key, read, maxBatch), key.hour * 3600 < s.cycle.cutoff;
      && InRedis(s'.store, k) == InRedis(s.store, k) && s'.store.rows == s.store.rows
      && (past && k == key && (read.MarkTimesOut? ==> read.applied) ==>
            k in s'.store.hashes && s'.store.hashes[k].processing)
      && (!past || k != key || (read.MarkTimesOut? && !read.applied) ==>
            (k in s'.store.hashes <==> k in s.store.hashes) &&
            (k in s.store.hashes ==> s'.store.hashes[k] == s.store.hashes[k]))
      && s'.cycle == Scanning(s.cycle.cutoff, s.cycle.batch +
                       if past && read.Read? then [Entry(key, InRedis(s.store, key))] else [])
  {
  }

  /** Recovery takes the mark off every orphan that is still there, and changes nothing else. */
  lemma {:induction false} RecoverClears(st: Store, orphans: seq<Key>, key: Key)
    ensures var st' := RecoverAll(st, orphans);
      && (key in st'.hashes <==> key in st.hashes) && st'.rows == st.rows && st'.active == st.active
      && (key in st.hashes ==>
            st'.hashes[key] == Hash(st.hashes[key].counters, st.hashes[key].processing && key !in orphans))
  {
    if orphans != [] {
      var n := |orphans| - 1;
      RecoverClears(st, orphans[..n], key);
      assert orphans == orphans[..n] + [orphans[n]];
    }
  }

  // ---------------------------------------------------------------- a whole cycle

  /** Each key once, every commit acknowledged, every delete arriving; reads may fail. */
  predicate Smooth(items: seq<Scanned>) {
    && (forall i, j :: 0 <= i < j < |items| ==> items[i].key != items[j].key)
    && (forall i :: 0 <= i < |items| ==> items[i].commit.Committed? && items[i].deleted)
  }

  /** The keys of past hours that the scan reads. */
  function Taken(items: seq<Scanned>, cutoff: nat): set<Key> {
    set i | 0 <= i < |items| && items[i].read.Read? && items[i].key.hour * 3600 < cutoff :: items[i].key
  }

  /** What has been read and is no longer in the batch is moved, and all else is kept. */
  ghost predicate Standing(a: Store, s: System, taken: set<Key>, key: Key) {
    if key in taken && !Has(Entries(s.cycle), key) then Moved(a, s.store, key) else Kept(a, s.store, key)
  }

  ghost predicate ScanInv(a: Store, s: System, taken: set<Key>) {
    && s.cycle.Scanning? && Distinct(s.cycle.batch) && Reads(s.store, s.cycle.batch)
    && (forall i: nat :: i < |s.cycle.batch| ==> s.cycle.batch[i].key in taken)
    && (forall key :: Standing(a, s, taken, key))
  }

  lemma {:induction false} NonZeroDistinct(es: seq<Entry>)
    requires Distinct(es)
    ensures Distinct(NonZero(es))
  {
    if es != [] {
      var n := |es| - 1;
      var kept := NonZero(es[..n]);
      NonZeroDistinct(es[..n]);
      forall i | 0 <= i < |kept| ensures kept[i].key != es[n].key {
        assert Has(kept, kept[i].key);
        NonZeroHas(es[..n], kept[i].key);
        var k :| 0 <= k < n && es[..n][k].key == kept[i].key;
        assert es[k].key != es[n].key;
      }
    }
  }

  lemma FlushKeepsInv(a: Store, s: System, taken: set<Key>, untracked: bool)
    requires ScanInv(a, s, taken)
    ensures ScanInv(a, FlushWhole(s, Committed, untracked, true), taken)
    ensures FlushWhole(s, Committed, untracked, true).cycle == Scanning(s.cycle.cutoff, [])
  {
    var s' := FlushWhole(s, Committed, untracked, true);
    NonZeroDistinct(s.cycle.batch);
    FlushEnds(s, Committed, untracked, true);
    forall key ensures Standing(a, s', taken, key) {
      assert Standing(a, s, taken, key);
      FlushMoves(s, Committed, untracked, key);
      if Has(s.cycle.batch, key) {
        var i :| 0 <= i < |s.cycle.batch| && s.cycle.batch[i].key == key;
        assert key in taken;
      }
      assert !Has(Entries(s'.cycle), key);
    }
  }

  lemma MarkKeeps(a: Store, s: System, taken: set<Key>, key: Key)
    requires ScanInv(a, s, taken) && key !in taken
    ensures ScanInv(a, s.(store := SetFlag(s.store, key, true)), taken)
  {
    var s' := s.(store := SetFlag(s.store, key, true));
    forall k ensures InRedis(s'.store, k) == InRedis(s.store, k) && Standing(a, s', taken, k) {
      assert Standing(a, s, taken, k);
    }
  }

  lemma ReadKeeps(a: Store, s: System, taken: set<Key>, key: Key)
    requires ScanInv(a, s, taken) && key !in taken
    ensures var e := Entry(key, InRedis(s.store, key));
      ScanInv(a, s.(cycle := Scanning(s.cycle.cutoff, s.cycle.batch + [e])), taken + {key})
  {
    var batch := s.cycle.batch + [Entry(key, InRedis(s.store, key))];
    var s' := s.(cycle := Scanning(s.cycle.cutoff, batch));
    forall k ensures Standing(a, s', taken + {key}, k) {
      assert Standing(a, s, taken, k);
      HasMore(s.cycle.batch, batch[|batch| - 1], k);
    }
  }

  lemma ScanKeyKeeps(a: Store, s: System, taken: set<Key>, key: Key, read: ReadOutcome, maxBatch: nat)
    requires ScanInv(a, s, taken) && key !in taken && |s.cycle.batch| < maxBatch
    ensures var s' := ScanKey(s, key, read, maxBatch);
      && ScanInv(a, s', if read.Read? && key.hour * 3600 < s.cycle.cutoff then taken + {key} else taken)
      && s'.cycle.cutoff == s.cycle.cutoff && |s'.cycle.batch| <= maxBatch
  {
    if BeforeCutoff(key, s.cycle.cutoff) {
      MarkKeeps(a, s, taken, key);
      var marked := s.(store := SetFlag(s.store, key, true));
      assert InRedis(marked.store, key) == InRedis(s.store, key);
      ReadKeeps(a, marked, taken, key);
    }
  }

  lemma {:induction false} ScanMoves(a: Store, s: System, items: seq<Scanned>, maxBatch: nat)
    requires ScanInv(a, s, {}) && s.cycle.batch == [] && maxBatch > 0 && Smooth(items)
    ensures var s' := ScanAll(s, items, maxBatch);
      && ScanInv(a, s', Taken(items, s.cycle.cutoff))
      && s'.cycle.cutoff == s.cycle.cutoff && |s'.cycle.batch| < maxBatch
  {
    if items == [] {
      assert Taken(items, s.cycle.cutoff) == {};
    } else {
      var before, item := items[..|items| - 1], items[|items| - 1];
      ScanMoves(a, s, before, maxBatch);
      TakenMore(items, s.cycle.cutoff);
      var b := ScanAll(s, before, maxBatch);
      ScanKeyKeeps(a, b, Taken(before, s.cycle.cutoff), item.key, item.read, maxBatch);
      FlushKeepsInv(a, ScanKey(b, item.key, item.read, maxBatch), Taken(items, s.cycle.cutoff), item.untracked);
    }
  }

  lemma TakenMore(items: seq<Scanned>, cutoff: nat)
    requires items != [] && Smooth(items)
    ensures var before, item := items[..|items| - 1], items[|items| - 1];
      && item.key !in Taken(before, cutoff)
      && Taken(items, cutoff) ==
         Taken(before, cutoff) + if item.read.Read? && item.key.hour * 3600 < cutoff then {item.key} else {}
  {
    var n := |items| - 1;
    assert forall i :: 0 <= i < n ==> items[..n][i] == items[i];
  }

  lemma {:induction false} RecoverKeeps(st: Store, orphans: seq<Key>, key: Key)
    ensures Kept(st, RecoverAll(st, orphans), key)
  {
    if orphans != [] {
      RecoverKeeps(st, orphans[..|orphans| - 1], key);
    }
  }

  /**
   A cycle that nothing comes between and nothing fails, reads apart, moves exactly the keys that it reads and whose
   hour began before its cutoff: the present hour, or a day from now in the flush at shutdown.
   */
  lemma CycleMoves(s: System, orphans: seq<Key>, items: seq<Scanned>, flushAll: bool, untracked: bool, maxBatch: nat,
                   key: Key)
    requires s.cycle.Idle? && maxBatch > 0 && Smooth(items)
    ensures var s' := WholeCycle(s, orphans, items, false, flushAll, Committed, untracked, true, maxBatch);
      if exists i :: 0 <= i < |items| && items[i].key == key && items[i].read.Read?
                     && key.hour * 3600 < (if flushAll then s.now + 86_400 else s.now / 3600 * 3600) then
        && key !in s'.store.hashes
        && forall f :: At(InPostgres(s'.store.rows, key), f) ==
                       At(InPostgres(s.store.rows, key), f) + At(InRedis(s.store, key), f)
      else Kept(s.store, s'.store, key)
  {
    var begun := Begun(s, orphans, flushAll);
    forall k ensures Standing(s.store, begun, {}, k) {
      RecoverKeeps(s.store, orphans, k);
    }
    ScanMoves(s.store, begun, items, maxBatch);
    var cutoff := Cutoff(s.now, flushAll);
    var scanned := ScanAll(begun, items, maxBatch);
    FlushKeepsInv(s.store, scanned, Taken(items, cutoff), untracked);
    assert Standing(s.store, FlushWhole(scanned, Committed, untracked, true), Taken(items, cutoff), key);
  }
}
