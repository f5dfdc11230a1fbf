/**
 Whole batches and whole cycles of the usage flush, with nothing coming between their steps: the same as the steps of
 module UsageFlush one after the other, and what they leave in the two stores.
 */
module UsageCycles {
  import opened Wrappers
  import opened UsageFlush
  import opened UsageLedger

  /** A scanned key with the outcomes of its read and of the flush it triggers, if it does. */
  datatype Scanned = Scanned(key: Key, read: ReadOutcome, commit: CommitOutcome, untracked: bool, deleted: bool)

  /** All deletes after a commit, one key at a time. */
  function DeleteAll(s: System, untracked: bool, deleted: bool): System
    decreases if s.cycle.Deleting? then |s.cycle.todo| else 0
  {
    if s.cycle.Deleting? && s.cycle.todo != [] then DeleteAll(DeleteNext(s, untracked, deleted), untracked, deleted)
    else s
  }

  function Phase(cutoff: nat, rest: seq<Entry>): Cycle {
    if rest == [] then Scanning(cutoff, []) else Deleting(cutoff, rest)
  }

  lemma DeleteAllStep(s: System, untracked: bool, deleted: bool)
    requires s.cycle.Deleting? && s.cycle.todo != []
    ensures DeleteAll(s, untracked, deleted) ==
            DeleteAll(System(Drop(s.store, s.cycle.todo[0].key, untracked, deleted),
                             Phase(s.cycle.cutoff, s.cycle.todo[1..]), s.now, s.made),
                      untracked, deleted)
  {
  }

  function FlushWhole(s: System, outcome: CommitOutcome, untracked: bool, deleted: bool): System {
    DeleteAll(FlushBatch(s, outcome), untracked, deleted)
  }

  /** One turn of the scan loop. */
  function ScanOne(s: System, item: Scanned, maxBatch: nat): System {
    var s' := ScanKey(s, item.key, item.read, maxBatch);
    if s'.cycle.Scanning? && |s'.cycle.batch| >= maxBatch then
      FlushWhole(s', item.commit, item.untracked, item.deleted)
    else s'
  }

  function ScanAll(s: System, items: seq<Scanned>, maxBatch: nat): System {
    if items == [] then s
    else ScanOne(ScanAll(s, items[..|items| - 1], maxBatch), items[|items| - 1], maxBatch)
  }

  function RecoverAll(st: Store, orphans: seq<Key>): Store {
    if orphans == [] then st else SetFlag(RecoverAll(st, orphans[..|orphans| - 1]), orphans[|orphans| - 1], false)
  }

  // ---------------------------------------------------------------- the steps they are made of

  function StepAll(s: System, events: seq<Event>, maxBatch: nat): System {
    if events == [] then s
    else Step(StepAll(s, events[..|events| - 1], maxBatch), events[|events| - 1], maxBatch)
  }

  lemma {:induction false} StepAllMore(s: System, first: seq<Event>, second: seq<Event>, maxBatch: nat)
    ensures StepAll(s, first + second, maxBatch) == StepAll(StepAll(s, first, maxBatch), second, maxBatch)
  {
    if second == [] {
      assert first + second == first;
    } else {
      var n := |second| - 1;
      assert (first + second)[..|first| + n] == first + second[..n];
      StepAllMore(s, first, second[..n], maxBatch);
    }
  }

  lemma StepOne(s: System, e: Event, maxBatch: nat)
    ensures StepAll(s, [e], maxBatch) == Step(s, e, maxBatch)
  {
    assert [e][..0] == [];
  }

  /** A flush, then a delete for each entry of a batch whose commit is acknowledged. */
  function FlushSteps(s: System, outcome: CommitOutcome, untracked: bool, deleted: bool): seq<Event> {
    [Flush(outcome)] +
    Repeat(Delete(untracked, deleted),
           if s.cycle.Scanning? && Acknowledged(s.cycle.batch, outcome) then |s.cycle.batch| else 0)
  }

  function ScanSteps(s: System, items: seq<Scanned>, maxBatch: nat): seq<Event> {
    if items == [] then []
    else
      var item := items[|items| - 1];
      var s' := Step(ScanAll(s, items[..|items| - 1], maxBatch), Scan(item.key, item.read), maxBatch);
      ScanSteps(s, items[..|items| - 1], maxBatch) + [Scan(item.key, item.read)] +
      if s'.cycle.Scanning? && |s'.cycle.batch| >= maxBatch then
        FlushSteps(s', item.commit, item.untracked, item.deleted)
      else []
  }

  function Recovers(orphans: seq<Key>): seq<Event> {
    seq(|orphans|, i requires 0 <= i < |orphans| => Recover(orphans[i]))
  }

  /** Where a cycle stands once it has recovered what a crash left behind. */
  function Begun(s: System, orphans: seq<Key>, flushAll: bool): System {
    System(RecoverAll(s.store, orphans), Scanning(Cutoff(s.now, flushAll), []), s.now, s.made)
  }

  /** Recovery, the scan, and a flush of the rest; a scan that fails forgets what it has read. */
  function CycleSteps(s: System, orphans: seq<Key>, items: seq<Scanned>, scanFails: bool, flushAll: bool,
                      last: CommitOutcome, untracked: bool, deleted: bool, maxBatch: nat): seq<Event> {
    var begun := Begun(s, orphans, flushAll);
    Recovers(orphans) + [Start(flushAll)] +
    ScanSteps(begun, items, maxBatch) +
    if scanFails then [Crash]
    else FlushSteps(ScanAll(begun, items, maxBatch), last, untracked, deleted) + [Finish]
  }

  lemma {:induction false} DeletesAreSteps(s: System, untracked: bool, deleted: bool, maxBatch: nat)
    requires s.cycle.Deleting? ==> s.cycle.todo != []
    ensures DeleteAll(s, untracked, deleted) ==
            StepAll(s, Repeat(Delete(untracked, deleted), if s.cycle.Deleting? then |s.cycle.todo| else 0), maxBatch)
    decreases if s.cycle.Deleting? then |s.cycle.todo| else 0
  {
    if s.cycle.Deleting? {
      var e, n := Delete(untracked, deleted), |s.cycle.todo|;
      var s' := DeleteNext(s, untracked, deleted);
      DeletesAreSteps(s', untracked, deleted, maxBatch);
      assert Repeat(e, n) == [e] + Repeat(e, n - 1);
      StepAllMore(s, [e], Repeat(e, n - 1), maxBatch);
      StepOne(s, e, maxBatch);
    }
  }

  lemma FlushIsSteps(s: System, outcome: CommitOutcome, untracked: bool, deleted: bool, maxBatch: nat)
    requires s.cycle.Scanning?
    ensures FlushWhole(s, outcome, untracked, deleted) ==
            StepAll(s, FlushSteps(s, outcome, untracked, deleted), maxBatch)
  {
    var s' := FlushBatch(s, outcome);
    DeletesAreSteps(s', untracked, deleted, maxBatch);
    var n := if Acknowledged(s.cycle.batch, outcome) then |s.cycle.batch| else 0;
    StepAllMore(s, [Flush(outcome)], Repeat(Delete(untracked, deleted), n), maxBatch);
    StepOne(s, Flush(outcome), maxBatch);
  }

  lemma {:induction false} ScansAreSteps(s: System, items: seq<Scanned>, maxBatch: nat)
    ensures ScanAll(s, items, maxBatch) == StepAll(s, ScanSteps(s, items, maxBatch), maxBatch)
  {
    if items != [] {
      var before, item := items[..|items| - 1], items[|items| - 1];
      ScansAreSteps(s, before, maxBatch);
      ScanOneIsSteps(ScanAll(s, before, maxBatch), item, maxBatch);
      var e := Scan(item.key, item.read);
      var s' := Step(ScanAll(s, before, maxBatch), e, maxBatch);
      var flush := FlushSteps(s', item.commit, item.untracked, item.deleted);
      StepAllMore(s, ScanSteps(s, before, maxBatch), [e], maxBatch);
      StepOne(ScanAll(s, before, maxBatch), e, maxBatch);
      StepAllMore(s, ScanSteps(s, before, maxBatch) + [e], flush, maxBatch);
      assert ScanSteps(s, before, maxBatch) + [e] + [] == ScanSteps(s, before, maxBatch) + [e];
    }
  }

  lemma ScanOneIsSteps(s: System, item: Scanned, maxBatch: nat)
    ensures var s' := Step(s, Scan(item.key, item.read), maxBatch);
      ScanOne(s, item, maxBatch) ==
      if s'.cycle.Scanning? && |s'.cycle.batch| >= maxBatch then
        StepAll(s', FlushSteps(s', item.commit, item.untracked, item.deleted), maxBatch)
      else s'
  {
    var s' := ScanKey(s, item.key, item.read, maxBatch);
    if s'.cycle.Scanning? {
      FlushIsSteps(s', item.commit, item.untracked, item.deleted, maxBatch);
    }
  }

  lemma {:induction false} RecoversAreSteps(s: System, orphans: seq<Key>, maxBatch: nat)
    requires s.cycle.Idle?
    ensures StepAll(s, Recovers(orphans), maxBatch) ==
            s.(store := RecoverAll(s.store, orphans))
  {
    if orphans != [] {
      var n := |orphans| - 1;
      var events := Recovers(orphans);
      RecoversAreSteps(s, orphans[..n], maxBatch);
      assert events[..n] == Recovers(orphans[..n]);
    }
  }

  /** A batch, with nothing in between, leaves the machine scanning for the next. */
  lemma {:induction false} DeletesEnd(s: System, untracked: bool, deleted: bool)
    requires s.cycle.Deleting? && s.cycle.todo != []
    ensures DeleteAll(s, untracked, deleted).cycle == Scanning(s.cycle.cutoff, [])
    decreases |s.cycle.todo|
  {
    var s' := DeleteNext(s, untracked, deleted);
    if s'.cycle.Deleting? {
      DeletesEnd(s', untracked, deleted);
    }
  }

  lemma FlushEnds(s: System, outcome: CommitOutcome, untracked: bool, deleted: bool)
    requires s.cycle.Scanning?
    ensures FlushWhole(s, outcome, untracked, deleted).cycle == Scanning(s.cycle.cutoff, [])
  {
    if FlushBatch(s, outcome).cycle.Deleting? {
      DeletesEnd(FlushBatch(s, outcome), untracked, deleted);
    }
  }

  lemma {:induction false} ScansGoOn(s: System, items: seq<Scanned>, maxBatch: nat)
    requires s.cycle.Scanning?
    ensures var c := ScanAll(s, items, maxBatch).cycle; c.Scanning? && c.cutoff == s.cycle.cutoff
  {
    if items != [] {
      ScansGoOn(s, items[..|items| - 1], maxBatch);
      var before, item := ScanAll(s, items[..|items| - 1], maxBatch), items[|items| - 1];
      FlushEnds(ScanKey(before, item.key, item.read, maxBatch), item.commit, item.untracked, item.deleted);
    }
  }

  lemma BegunBySteps(s: System, orphans: seq<Key>, flushAll: bool, maxBatch: nat)
    requires s.cycle.Idle?
    ensures StepAll(s, Recovers(orphans) + [Start(flushAll)],
                    maxBatch) ==
            Begun(s, orphans, flushAll)
  {
    var recovers := Recovers(orphans);
    RecoversAreSteps(s, orphans, maxBatch);
    StepAllMore(s, recovers, [Start(flushAll)], maxBatch);
    StepOne(s.(store := RecoverAll(s.store, orphans)), Start(flushAll), maxBatch);
  }

  lemma ScannedBySteps(s: System, orphans: seq<Key>, items: seq<Scanned>, flushAll: bool, maxBatch: nat)
    requires s.cycle.Idle?
    ensures var begun := Begun(s, orphans, flushAll);
      && StepAll(s, Recovers(orphans) + [Start(flushAll)] + ScanSteps(begun, items, maxBatch), maxBatch) ==
         ScanAll(begun, items, maxBatch)
      && ScanAll(begun, items, maxBatch).cycle.Scanning?
  {
    var begun := Begun(s, orphans, flushAll);
    BegunBySteps(s, orphans, flushAll, maxBatch);
    ScansAreSteps(begun, items, maxBatch);
    StepAllMore(s, Recovers(orphans) + [Start(flushAll)], ScanSteps(begun, items, maxBatch), maxBatch);
    ScansGoOn(begun, items, maxBatch);
  }

  /** A whole cycle and what it leaves. */
  function WholeCycle(s: System, orphans: seq<Key>, items: seq<Scanned>, scanFails: bool, flushAll: bool,
                      last: CommitOutcome, untracked: bool, deleted: bool, maxBatch: nat): System {
    var scanned := ScanAll(Begun(s, orphans, flushAll), items, maxBatch);
    (if scanFails then scanned else FlushWhole(scanned, last, untracked, deleted)).(cycle := Idle)
  }

  /** It is its steps one after the other. */
  lemma CycleIsSteps(s: System, orphans: seq<Key>, items: seq<Scanned>, scanFails: bool, flushAll: bool,
                     last: CommitOutcome, untracked: bool, deleted: bool, maxBatch: nat)
    requires s.cycle.Idle?
    ensures
      StepAll(s, CycleSteps(s, orphans, items, scanFails, flushAll, last, untracked, deleted, maxBatch), maxBatch) ==
      WholeCycle(s, orphans, items, scanFails, flushAll, last, untracked, deleted, maxBatch)
  {
    var begun := Begun(s, orphans, flushAll);
    var scanned := ScanAll(begun, items, maxBatch);
    var events := Recovers(orphans) + [Start(flushAll)] + ScanSteps(begun, items, maxBatch);
    ScannedBySteps(s, orphans, items, flushAll, maxBatch);
    if scanFails {
      StepAllMore(s, events, [Crash], maxBatch);
      StepOne(scanned, Crash, maxBatch);
    } else {
      EndsBySteps(s, events, scanned, last, untracked, deleted, maxBatch);
    }
  }

  lemma EndsBySteps(s: System, events: seq<Event>, scanned: System, last: CommitOutcome, untracked: bool,
                    deleted: bool, maxBatch: nat)
    requires scanned.cycle.Scanning? && StepAll(s, events, maxBatch) == scanned
    ensures StepAll(s, events + (FlushSteps(scanned, last, untracked, deleted) + [Finish]), maxBatch) ==
            FlushWhole(scanned, last, untracked, deleted).(cycle := Idle)
  {
    var flush := FlushSteps(scanned, last, untracked, deleted);
    FlushIsSteps(scanned, last, untracked, deleted, maxBatch);
    FlushEnds(scanned, last, untracked, deleted);
    StepAllMore(s, events, flush + [Finish], maxBatch);
    StepAllMore(scanned, flush, [Finish], maxBatch);
    StepOne(FlushWhole(scanned, last, untracked, deleted), Finish, maxBatch);
  }
}
