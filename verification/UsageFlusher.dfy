/**
 The usage flusher as it runs: the increment helper and a whole flush cycle over the scanned keys,
 each proved to do what the steps of module UsageFlush do when nothing comes between them.
 */
module UsageFlusher {
  import opened UsageFlush
  import opened UsageCycles

  /** The increments of one call added up, a field named twice counting twice. */
  function Total(fields: seq<(Field, nat)>): Counters {
    if fields == [] then map[]
    else
      var last := fields[|fields| - 1];
      Plus(Total(fields[..|fields| - 1]), map[last.0 := last.1])
  }

  /** HINCRBY. */
  function AddField(hashes: map<Key, Hash>, key: Key, f: Field, v: nat): map<Key, Hash> {
    var was := if key in hashes then hashes[key] else Hash(map[], false);
    hashes[key := Hash(was.counters[f := At(was.counters, f) + v], was.processing)]
  }

  function AddFields(hashes: map<Key, Hash>, key: Key, fields: seq<(Field, nat)>): map<Key, Hash> {
    if fields == [] then hashes
    else
      var last := fields[|fields| - 1];
      AddField(AddFields(hashes, key, fields[..|fields| - 1]), key, last.0, last.1)
  }

  lemma PlusHas(a: Counters, b: Counters, g: Field)
    ensures (g in Plus(a, b) <==> g in a || g in b) && (g in Plus(a, b) ==> Plus(a, b)[g] == At(a, g) + At(b, g))
  {
  }

  lemma AddOneAt(base: Counters, sum: Counters, f: Field, v: nat, g: Field)
    ensures var l, r := Plus(base, sum)[f := At(Plus(base, sum), f) + v], Plus(base, Plus(sum, map[f := v]));
      (g in l <==> g in r) && (g in l ==> l[g] == r[g])
  {
    var one := map[f := v];
    PlusHas(base, sum, g);
    PlusHas(sum, one, g);
    PlusHas(base, Plus(sum, one), g);
  }

  lemma AddOneField(base: Counters, sum: Counters, f: Field, v: nat)
    ensures Plus(base, sum)[f := At(Plus(base, sum), f) + v] == Plus(base, Plus(sum, map[f := v]))
  {
    var l, r := Plus(base, sum)[f := At(Plus(base, sum), f) + v], Plus(base, Plus(sum, map[f := v]));
    forall g ensures (g in l <==> g in r) && (g in l ==> l[g] == r[g]) {
      AddOneAt(base, sum, f, v, g);
    }
  }

  lemma AddFieldToSum(hashes: map<Key, Hash>, key: Key, base: Counters, sum: Counters, flag: bool, f: Field, v: nat)
    ensures AddField(hashes[key := Hash(Plus(base, sum), flag)], key, f, v) ==
            hashes[key := Hash(Plus(base, Plus(sum, map[f := v])), flag)]
  {
    AddOneField(base, sum, f, v);
  }

  lemma FirstField(hashes: map<Key, Hash>, key: Key, f: Field, v: nat)
    ensures var was := if key in hashes then hashes[key] else Hash(map[], false);
      AddField(hashes, key, f, v) == hashes[key := Hash(Plus(was.counters, Plus(map[], map[f := v])), was.processing)]
  {
    var was := if key in hashes then hashes[key] else Hash(map[], false);
    AddOneField(was.counters, map[], f, v);
    assert Plus(was.counters, map[]) == was.counters;
  }

  /** The fields one by one are one increment by their total. */
  lemma {:induction false} AddFieldsIsOneSum(hashes: map<Key, Hash>, key: Key, fields: seq<(Field, nat)>)
    requires fields != []
    ensures var was := if key in hashes then hashes[key] else Hash(map[], false);
      AddFields(hashes, key, fields) == hashes[key := Hash(Plus(was.counters, Total(fields)), was.processing)]
  {
    var was := if key in hashes then hashes[key] else Hash(map[], false);
    var last := fields[|fields| - 1];
    var before := fields[..|fields| - 1];
    if before == [] {
      FirstField(hashes, key, last.0, last.1);
    } else {
      AddFieldsIsOneSum(hashes, key, before);
      AddFieldToSum(hashes, key, was.counters, Total(before), was.processing, last.0, last.1);
    }
  }

  class Flusher {
    var hashes: map<Key, Hash>
    var active: set<Key>
    var rows: map<Key, Row>
    const maxBatchSize: nat

    constructor (maxBatchSize: nat)
      requires maxBatchSize > 0
      ensures hashes == map[] && active == {} && rows == map[]
      ensures this.maxBatchSize == maxBatchSize
    {
      hashes, active, rows := map[], {}, map[];
      this.maxBatchSize := maxBatchSize;
    }

    ghost function Stores(): Store
      reads this
    {
      Store(hashes, active, rows)
    }

    /** The stores as a machine state in a given phase. */
    ghost function In(cycle: Cycle, now: nat, made: map<Key, Counters>): System
      reads this
    {
      System(Stores(), cycle, now, made)
    }

    method IncrementFields(key: Key, fields: seq<(Field, nat)>)
      requires fields != []
      modifies this`hashes, this`active
      ensures Stores() == Increment(old(Stores()), key, Total(fields))
    {
      active := active + {key};
      for i := 0 to |fields|
        modifies `hashes
        invariant hashes == AddFields(old(hashes), key, fields[..i])
      {
        assert fields[..i + 1][..i] == fields[..i];
        hashes := AddField(hashes, key, fields[i].0, fields[i].1);
      }
      assert fields[..|fields|] == fields;
      AddFieldsIsOneSum(old(hashes), key, fields);
    }

    method DropKey(key: Key, untracked: bool, deleted: bool)
      modifies this`hashes, this`active
      ensures Stores() == Drop(old(Stores()), key, untracked, deleted)
    {
      if untracked {
        active := active - {key};
      }
      if deleted {
        hashes := hashes - {key};
      }
    }

    method DeleteKeys(batch: seq<Entry>, untracked: bool, deleted: bool,
                      ghost cutoff: nat, ghost now: nat, ghost made: map<Key, Counters>)
      modifies this`hashes, this`active
      ensures DeleteAll(old(In(Phase(cutoff, batch), now, made)), untracked, deleted) ==
              In(Scanning(cutoff, []), now, made)
    {
      ghost var start := In(Phase(cutoff, batch), now, made);
      assert batch[0..] == batch;
      for i := 0 to |batch|
        modifies `hashes, `active
        invariant DeleteAll(start, untracked, deleted) ==
                  DeleteAll(In(Phase(cutoff, batch[i..]), now, made), untracked, deleted)
      {
        assert batch[i..][1..] == batch[i + 1..];
        DeleteAllStep(In(Phase(cutoff, batch[i..]), now, made), untracked, deleted);
        DropKey(batch[i].key, untracked, deleted);
      }
    }

    /** One transaction, then a delete for every key of the batch. */
    method FlushBatchToPg(batch: seq<Entry>, outcome: CommitOutcome, untracked: bool, deleted: bool,
                          ghost cutoff: nat, ghost now: nat, ghost made: map<Key, Counters>)
      returns (flushed: bool)
      modifies this
      ensures FlushWhole(old(In(Scanning(cutoff, batch), now, made)), outcome, untracked, deleted) ==
              In(Scanning(cutoff, []), now, made)
      ensures flushed == (batch == [] || Acknowledged(batch, outcome))
    {
      if batch == [] {
        return true;
      }
      if !Commits(batch, outcome) {
        return false;
      }
      rows := Upsert(rows, NonZero(batch));
      if !Acknowledged(batch, outcome) {
        return false;
      }
      assert FlushBatch(old(In(Scanning(cutoff, batch), now, made)), outcome) == In(Phase(cutoff, batch), now, made);
      DeleteKeys(batch, untracked, deleted, cutoff, now, made);
      flushed := true;
    }

    /** Marks a key of a past hour and reads its counters into the batch. */
    method ReadKey(key: Key, outcome: ReadOutcome, cutoff: nat, batch: seq<Entry>,
                   ghost now: nat, ghost made: map<Key, Counters>)
      returns (batch': seq<Entry>)
      requires |batch| < maxBatchSize
      modifies this`hashes
      ensures ScanKey(old(In(Scanning(cutoff, batch), now, made)), key, outcome, maxBatchSize) ==
              In(Scanning(cutoff, batch'), now, made)
      ensures batch' == batch || |batch'| == |batch| + 1
    {
      batch' := batch;
      if !BeforeCutoff(key, cutoff) {
        return;
      }
      var was := if key in hashes then hashes[key].counters else map[];
      if !outcome.MarkTimesOut? || outcome.applied {
        hashes := hashes[key := Hash(was, true)];
      }
      if outcome.Read? {
        batch' := batch + [Entry(key, was)];
      }
    }

    /** Clears the flags that a crash has left; a scan that fails on the way leaves the others. */
    method RecoverOrphanedKeys(orphans: seq<Key>)
      modifies this`hashes
      ensures Stores() == RecoverAll(old(Stores()), orphans)
    {
      for n := 0 to |orphans|
        invariant Stores() == RecoverAll(old(Stores()), orphans[..n])
      {
        assert orphans[..n + 1][..n] == orphans[..n];
        if orphans[n] in hashes {
          hashes := hashes[orphans[n] := Hash(hashes[orphans[n]].counters, false)];
        }
      }
      assert orphans[..|orphans|] == orphans;
    }

    /** The scan loop; what is left of the batch when it ends. */
    method ScanKeys(items: seq<Scanned>, cutoff: nat, ghost now: nat, ghost made: map<Key, Counters>)
      returns (batch: seq<Entry>)
      requires maxBatchSize > 0
      modifies this
      ensures ScanAll(old(In(Scanning(cutoff, []), now, made)), items, maxBatchSize) ==
              In(Scanning(cutoff, batch), now, made)
    {
      batch := [];
      ghost var start := In(Scanning(cutoff, []), now, made);
      for n := 0 to |items|
        invariant ScanAll(start, items[..n], maxBatchSize) == In(Scanning(cutoff, batch), now, made)
        invariant |batch| < maxBatchSize
      {
        assert items[..n + 1][..n] == items[..n];
        batch := ScanItem(items[n], cutoff, batch, now, made);
      }
      assert items[..|items|] == items;
    }

    /** One turn: a batch that has become full is flushed, and its keys stay in Redis when that fails. */
    method ScanItem(item: Scanned, cutoff: nat, batch: seq<Entry>, ghost now: nat, ghost made: map<Key, Counters>)
      returns (batch': seq<Entry>)
      requires |batch| < maxBatchSize
      modifies this
      ensures ScanOne(old(In(Scanning(cutoff, batch), now, made)), item, maxBatchSize) ==
              In(Scanning(cutoff, batch'), now, made)
      ensures |batch'| < maxBatchSize
    {
      batch' := ReadKey(item.key, item.read, cutoff, batch, now, made);
      if |batch'| >= maxBatchSize {
        var toFlush := batch';
        batch' := [];
        var _ := FlushBatchToPg(toFlush, item.commit, item.untracked, item.deleted, cutoff, now, made);
      }
    }

    /**
     A whole cycle: recovery, the scan, and a flush of the rest. When the scan fails the cycle ends at once,
     and what it has read is forgotten.
     */
    method FlushRedisToPg(orphans: seq<Key>, items: seq<Scanned>, scanFails: bool, now: nat, flushAll: bool,
                          last: CommitOutcome, untracked: bool, deleted: bool, ghost made: map<Key, Counters>)
      returns (ok: bool)
      requires maxBatchSize > 0
      modifies this
      ensures var s := old(In(Idle, now, made));
        && WholeCycle(s, orphans, items, scanFails, flushAll, last, untracked, deleted, maxBatchSize) ==
           In(Idle, now, made)
        && var read := Entries(ScanAll(Begun(s, orphans, flushAll), items, maxBatchSize).cycle);
           ok <==> !scanFails && (read == [] || Acknowledged(read, last))
    {
      RecoverOrphanedKeys(orphans);
      var cutoff := if flushAll then now + DAY else now / HOUR * HOUR;
      var batch := ScanKeys(items, cutoff, now, made);
      if scanFails {
        return false;
      }
      ok := FlushBatchToPg(batch, last, untracked, deleted, cutoff, now, made);
    }
  }
}
