/** Two runs of the usage flush in which the stores do not end with what was counted. */
module UsageRuns {
  import opened UsageFlush

  const ONE: Counters := map[MessagesSent := 1]

  lemma RunSnoc(events: seq<Event>, e: Event)
    ensures Run(0, events + [e], 1) == Step(Run(0, events, 1), e, 1)
  {
    assert (events + [e])[..|events|] == events;
  }

  /** The key's hash holds `redis`, all of it counted, and nothing is in the table. */
  function Holding(key: Key, redis: Counters, flagged: bool, cycle: Cycle): System {
    System(Store(map[key := Hash(redis, flagged)], {key}, map[]), cycle, 0, map[key := redis])
  }

  lemma FirstIncrement(key: Key)
    ensures Step(Initial(0), Incremented(key, ONE), 1) == Holding(key, Plus(map[], ONE), false, Idle)
  {
  }

  lemma ReadAtShutdown(key: Key, one: Counters)
    requires key.hour == 0
    ensures Step(Step(Holding(key, one, false, Idle), Start(true), 1), Scan(key, Read), 1) ==
            Holding(key, one, true, Scanning(DAY, [Entry(key, one)]))
  {
    assert map[key := Hash(one, false)][key := Hash(one, true)] == map[key := Hash(one, true)];
    assert [] + [Entry(key, one)] == [Entry(key, one)];
  }

  lemma LateIncrement(key: Key, one: Counters, cycle: Cycle)
    ensures Step(Holding(key, one, true, cycle), Incremented(key, ONE), 1) ==
            Holding(key, Plus(one, ONE), true, cycle)
  {
  }

  lemma OneEntry(rows: map<Key, Row>, e: Entry)
    requires !IsZero(e.counters)
    ensures Upsert(rows, NonZero([e])) == AddToRow(rows, e) && Distinct(NonZero([e]))
  {
    assert NonZero([e]) == [e] by {
      assert [e][..0] == [];
    }
    assert [e][..0] == [];
    assert Upsert(rows, [e]) == AddToRow(Upsert(rows, []), e);
  }

  lemma LateIsDropped(key: Key, one: Counters, f: Field)
    requires At(one, f) != 0
    ensures var read := Holding(key, Plus(one, ONE), true, Scanning(DAY, [Entry(key, one)]));
      var s := DeleteNext(FlushBatch(read, Committed), true, true);
      && At(InPostgres(s.store.rows, key), f) == At(one, f)
      && InRedis(s.store, key) == map[]
      && At(Made(s, key), f) == At(Plus(one, ONE), f)
  {
    var e := Entry(key, one);
    OneEntry(map[], e);
    var s := FlushBatch(Holding(key, Plus(one, ONE), true, Scanning(DAY, [e])), Committed);
    assert s.cycle == Deleting(DAY, [e]);
    assert InPostgres(s.store.rows, key) == Plus(map[], one);
  }

  function UpToLate(key: Key): seq<Event> {
    [Incremented(key, ONE)] + [Start(true)] + [Scan(key, Read)] + [Incremented(key, ONE)]
  }

  lemma RunUpToRead(key: Key)
    requires key.hour == 0
    ensures Run(0, [Incremented(key, ONE)] + [Start(true)] + [Scan(key, Read)], 1) ==
            Holding(key, Plus(map[], ONE), true, Scanning(DAY, [Entry(key, Plus(map[], ONE))]))
  {
    var one := Plus(map[], ONE);
    var e1 := [Incremented(key, ONE)];
    RunSnoc([], e1[0]);
    assert [] + e1 == e1;
    FirstIncrement(key);
    RunSnoc(e1, Start(true));
    RunSnoc(e1 + [Start(true)], Scan(key, Read));
    ReadAtShutdown(key, one);
  }

  lemma RunUpToLate(key: Key)
    requires key.hour == 0
    ensures Run(0, UpToLate(key), 1) ==
            Holding(key, Plus(Plus(map[], ONE), ONE), true, Scanning(DAY, [Entry(key, Plus(map[], ONE))]))
  {
    var one := Plus(map[], ONE);
    RunUpToRead(key);
    RunSnoc([Incremented(key, ONE)] + [Start(true)] + [Scan(key, Read)], Incremented(key, ONE));
    LateIncrement(key, one, Scanning(DAY, [Entry(key, one)]));
  }

  /** The shutdown flush takes the current hour too, and an increment during it is deleted uncounted. */
  lemma FinalFlushCanLose(key: Key)
    requires key.hour == 0
    ensures var s := Run(0, UpToLate(key) + [Flush(Committed)] + [Delete(true, true)], 1);
      && At(InPostgres(s.store.rows, key), MessagesSent) == 1
      && At(InRedis(s.store, key), MessagesSent) == 0
      && At(Made(s, key), MessagesSent) == 2
  {
    RunUpToLate(key);
    RunSnoc(UpToLate(key), Flush(Committed));
    RunSnoc(UpToLate(key) + [Flush(Committed)], Delete(true, true));
    LateIsDropped(key, Plus(map[], ONE), MessagesSent);
  }

  lemma CommittedUnanswered(key: Key, one: Counters, f: Field)
    requires At(one, f) != 0
    ensures var s := FlushBatch(Holding(key, one, true, Scanning(DAY, [Entry(key, one)])), Unacknowledged);
      && s.cycle == Scanning(DAY, [])
      && At(InPostgres(s.store.rows, key), f) == At(one, f)
      && InRedis(s.store, key) == one && Made(s, key) == one
  {
    var e := Entry(key, one);
    OneEntry(map[], e);
    assert NonZero([e]) == [e] by {
      assert [e][..0] == [];
    }
    assert InPostgres(FlushBatch(Holding(key, one, true, Scanning(DAY, [e])), Unacknowledged).store.rows, key) ==
           Plus(map[], one);
  }

  /** A commit whose answer is lost leaves the key in Redis, where the next cycle will find it again. */
  lemma UnansweredCommitCountsTwice(key: Key)
    requires key.hour == 0
    ensures var events := [Incremented(key, ONE)] + [Start(true)] + [Scan(key, Read)] + [Flush(Unacknowledged)];
      var s := Run(0, events, 1);
      && At(InPostgres(s.store.rows, key), MessagesSent) == 1
      && At(InRedis(s.store, key), MessagesSent) == 1
      && At(Made(s, key), MessagesSent) == 1
  {
    var one := Plus(map[], ONE);
    RunUpToRead(key);
    RunSnoc([Incremented(key, ONE)] + [Start(true)] + [Scan(key, Read)], Flush(Unacknowledged));
    CommittedUnanswered(key, one, MessagesSent);
  }
}
