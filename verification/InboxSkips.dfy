/**
 When a rebuild that comes to its end in time has read every row that is then in the table, up to the limit:
 rows that leave between two queries move unread ones to before the offset, and rows that come may land there.
 */
module InboxSkips {
  import opened Wrappers
  import opened Inbox
  import opened InboxRebuild
  import IR = InboxRuns
  import InboxTwice

  /** All of `b` is in `a`. */
  predicate Covers(a: seq<string>, b: seq<string>) {
    forall x :: x in b ==> x in a
  }

  /** What the rebuild is to append: the first rows, up to the limit. */
  function Wanted(rows: seq<string>): seq<string> {
    rows[..Min(MAX_QUEUE_LEN, |rows|)]
  }

  predicate GoesOn(t: Phase) {
    t.Paging? || t.Pushing?
  }

  predicate Ended(s: System, r: nat) {
    r in s.tasks && s.tasks[r].Leaving?
  }

  /** However it goes on alone, when the rebuild comes to its end every wanted row is appended. */
  ghost predicate ReadsAllAt(s: System, r: nat)
    requires r in s.tasks
  {
    forall more :: LeftAlone(more, r) && Ended(StepAll(s, more), r) ==>
                     Covers(StepAll(s, more).tasks[r].done, Wanted(s.rows))
  }

  ghost predicate ReadsAll(s: System) {
    forall r :: r in s.tasks && InTime(s, r) && GoesOn(s.tasks[r]) ==> ReadsAllAt(s, r)
  }

  function Gathered(t: Phase): seq<string> {
    if t.Locked? then [] else t.done
  }

  lemma OwnGathers(s: System, e: Event, r: nat)
    requires OwnEvent(e, r) && r in s.tasks && PhaseOk(s.tasks[r]) && !s.tasks[r].Locked?
    ensures var s' := Step(s, e);
      r in s'.tasks ==>
        && !s'.tasks[r].Locked?
        && Gathered(s'.tasks[r]) + PhaseDue(s'.tasks[r], s.rows) == Gathered(s.tasks[r]) + PhaseDue(s.tasks[r], s.rows)
  {
    var t := s.tasks[r];
    if t.Paging? {
      PageDue(t, s.rows);
    }
    if t.Pushing? {
      PushDue(t, s.rows);
      assert t.done + ([t.rest[0]] + PhaseDue(AfterPush(t), s.rows)) ==
             (t.done + [t.rest[0]]) + PhaseDue(AfterPush(t), s.rows);
    }
  }

  lemma {:induction false} AloneGathers(s: System, more: seq<Event>, r: nat)
    requires LeftAlone(more, r) && r in s.tasks && PhaseOk(s.tasks[r]) && !s.tasks[r].Locked?
    ensures var s' := StepAll(s, more);
      r in s'.tasks ==>
        && !s'.tasks[r].Locked?
        && Gathered(s'.tasks[r]) + PhaseDue(s'.tasks[r], s.rows) == Gathered(s.tasks[r]) + PhaseDue(s.tasks[r], s.rows)
  {
    if more != [] {
      var n := |more| - 1;
      AloneKeepsDue(s, more[..n], r);
      AloneGathers(s, more[..n], r);
      if r in StepAll(s, more[..n]).tasks {
        OwnGathers(StepAll(s, more[..n]), more[n], r);
      }
    }
  }

  /** Rows before the offset of the next query: they will not be read any more. */
  function Passed(t: Phase, rows: seq<string>): seq<string> {
    rows[..Min(NextOffset(t), |rows|)]
  }

  ghost predicate WholeAt(s: System, r: nat, rows: seq<string>)
    requires r in s.tasks
  {
    InTime(s, r) && GoesOn(s.tasks[r]) ==>
      Covers(Gathered(s.tasks[r]) + Rest(s.tasks[r]), Passed(s.tasks[r], rows))
  }

  ghost predicate Whole(s: System) {
    forall r :: r in s.tasks ==> WholeAt(s, r, s.rows)
  }

  lemma PassedApart(t: Phase, rows: seq<string>, x: string)
    requires IR.Distinct(rows) && x in Passed(t, rows)
    ensures x !in Unread(t, rows)
  {
    var i :| 0 <= i < |Passed(t, rows)| && Passed(t, rows)[i] == x;
    assert rows[i] == x;
    assert forall k :: 0 <= k < |Unread(t, rows)| ==> Unread(t, rows)[k] == rows[NextOffset(t) + k];
  }

  lemma WantedIff(t: Phase, rows: seq<string>, read: seq<string>)
    requires IR.Distinct(rows) && GoesOn(t) && PhaseOk(t)
    ensures Covers(read + Unread(t, rows), Wanted(rows)) <==> Covers(read, Passed(t, rows))
  {
    assert Wanted(rows) == Passed(t, rows) + Unread(t, rows);
    forall x | x in Passed(t, rows) ensures x in read <==> x in read + Unread(t, rows) {
      PassedApart(t, rows, x);
    }
  }

  lemma EndGathers(s: System, more: seq<Event>, r: nat)
    requires LeftAlone(more, r) && r in s.tasks && PhaseOk(s.tasks[r]) && GoesOn(s.tasks[r])
    requires Ended(StepAll(s, more), r)
    ensures StepAll(s, more).tasks[r].done == Gathered(s.tasks[r]) + Rest(s.tasks[r]) + Unread(s.tasks[r], s.rows)
  {
    var t := s.tasks[r];
    AloneGathers(s, more, r);
    assert PhaseDue(StepAll(s, more).tasks[r], s.rows) == [];
    assert Gathered(t) + PhaseDue(t, s.rows) == Gathered(t) + Rest(t) + Unread(t, s.rows);
  }

  lemma ReadsAllAtIff(s: System, r: nat)
    requires IR.Distinct(s.rows) && r in s.tasks && PhaseOk(s.tasks[r]) && GoesOn(s.tasks[r])
    ensures ReadsAllAt(s, r) <==> Covers(Gathered(s.tasks[r]) + Rest(s.tasks[r]), Passed(s.tasks[r], s.rows))
  {
    WantedIff(s.tasks[r], s.rows, Gathered(s.tasks[r]) + Rest(s.tasks[r]));
    forall more | LeftAlone(more, r) && Ended(StepAll(s, more), r)
      ensures StepAll(s, more).tasks[r].done == Gathered(s.tasks[r]) + Rest(s.tasks[r]) + Unread(s.tasks[r], s.rows)
    {
      EndGathers(s, more, r);
    }
    var end := Finishes(s, r);
    assert Ended(StepAll(s, end), r);
  }

  lemma ReadsAllIsWhole(s: System)
    requires Inv(s)
    ensures ReadsAll(s) <==> Whole(s)
  {
    forall r | r in s.tasks && InTime(s, r) && GoesOn(s.tasks[r])
      ensures ReadsAllAt(s, r) <==> WholeAt(s, r, s.rows)
    {
      assert Holds(s, r);
      ReadsAllAtIff(s, r);
    }
  }

  /** A change of the table after which a row that was not read stands before the offset. */
  ghost predicate RowsSkip(s: System, rows: seq<string>) {
    exists r :: r in s.tasks && !WholeAt(s, r, rows)
  }

  ghost predicate Skips(s: System, e: Event) {
    match e
    case RowsChange(rows) => RowsSkip(s, rows)
    case Leave(gone) => RowsSkip(s, Without(s.rows, gone))
    case _ => false
  }

  lemma PageKeepsWhole(t: Phase, rows: seq<string>)
    requires t.Paging? && PhaseOk(t) && Covers(t.done, Passed(t, rows))
    ensures var t' := AfterPage(t, Page(rows, PAGE_SIZE, t.offset));
      GoesOn(t') ==> Covers(Gathered(t') + Rest(t'), Passed(t', rows))
  {
    var page := Page(rows, PAGE_SIZE, t.offset);
    var t' := AfterPage(t, page);
    if page != [] {
      assert Passed(t', rows) == Passed(t, rows) + page;
    }
  }

  lemma PushKeepsWhole(t: Phase, rows: seq<string>)
    requires t.Pushing? && PhaseOk(t) && Covers(t.done + t.rest, Passed(t, rows))
    ensures var t' := AfterPush(t);
      GoesOn(t') ==> Covers(Gathered(t') + Rest(t'), Passed(t', rows))
  {
    assert t.rest == [t.rest[0]] + t.rest[1..];
    assert t.done + t.rest == (t.done + [t.rest[0]]) + t.rest[1..];
  }

  lemma OwnKeepsWhole(s: System, e: Event)
    requires Inv(s) && Whole(s) && ByRebuild(e) && e.r in s.tasks && InTime(s, e.r)
    ensures Whole(Step(s, e))
  {
    var s', t := Step(s, e), s.tasks[e.r];
    assert Holds(s, e.r) && WholeAt(s, e.r, s.rows);
    if t.Paging? {
      assert t.done + Rest(t) == t.done;
      PageKeepsWhole(t, s.rows);
    }
    if t.Pushing? {
      PushKeepsWhole(t, s.rows);
    }
    forall q | q in s'.tasks ensures WholeAt(s', q, s'.rows) {
      if q != e.r {
        assert InTime(s, q) ==> BothInTime(s, e.r, q);
      }
    }
  }

  lemma WholeDecides(s: System, e: Event)
    requires Inv(s) && Whole(s) && Punctual(s, e)
    ensures Whole(Step(s, e)) <==> !Skips(s, e)
  {
    var s' := Step(s, e);
    if ByRebuild(e) {
      if e.r in s.tasks {
        OwnKeepsWhole(s, e);
      }
    } else {
      forall r | r in s'.tasks ensures r in s.tasks ==> (WholeAt(s', r, s'.rows) <== WholeAt(s, r, s'.rows)) {
      }
      if e.RowsChange? || e.Leave? {
        assert forall r :: r in s.tasks ==> (WholeAt(s', r, s'.rows) <==> WholeAt(s, r, s'.rows));
      }
    }
  }

  /**
   Rebuilds that send each command while their own lock lives: at all times the one in time, if it goes on
   alone, ends with the first rows of the table appended, up to the limit, if and only if no change of the table
   leaves before the offset of its next query a row that it has not read.
   */
  lemma ReadsAllIff(rows: seq<string>, events: seq<Event>)
    requires AllPunctual(rows, events)
    ensures Throughout(rows, events, s => ReadsAll(s)) <==> Excluded(rows, events, (s, e) => Skips(s, e))
  {
    var p, bad := s => ReadsAll(s), (s: System, e: Event) => Skips(s, e);
    assert events[..0] == [];
    forall i: nat | i < |events| ensures DecidesAt(rows, events, i, p, bad) {
      RunInv(rows, events, i);
      RunInv(rows, events, i + 1);
      RunNext(rows, events, i);
      ReadsAllIsWhole(Run(rows, events[..i]));
      ReadsAllIsWhole(Run(rows, events[..i + 1]));
      if Whole(Run(rows, events[..i])) {
        WholeDecides(Run(rows, events[..i]), events[i]);
      }
    }
    ThroughoutIff(rows, events, p, bad);
  }

  // ---------------------------------------------------------------- which changes of the table skip

  /**
   With the rows before the offset read and no other: rows that leave make it skip one if and only if one of
   them stood before the offset and a row behind it stays.
   */
  lemma LeaveSkipsIff(t: Phase, rows: seq<string>, gone: set<string>, read: seq<string>)
    requires Covers(read, Passed(t, rows)) && InboxTwice.Ahead(read, rows, NextOffset(t))
    ensures Covers(read, Passed(t, Without(rows, gone))) <==>
            || Without(Passed(t, rows), gone) == Passed(t, rows)
            || Without(rows[|Passed(t, rows)|..], gone) == []
  {
    var before, behind := Passed(t, rows), rows[|Passed(t, rows)|..];
    var left, stay := Without(before, gone), Without(behind, gone);
    assert rows == before + behind;
    IR.WithoutConcat(before, behind, gone);
    WithoutShorter(before, gone);
    forall x ensures x in left ==> x in before {
      WithoutHas(before, gone, x);
    }
    if left != before && stay != [] {
      WithoutHas(behind, gone, stay[0]);
      assert Passed(t, left + stay)[|left|] == stay[0];
    }
  }

  lemma {:induction false} WithoutShorter(items: seq<string>, gone: set<string>)
    ensures |Without(items, gone)| <= |items|
    ensures |Without(items, gone)| == |items| ==> Without(items, gone) == items
  {
    if items != [] {
      WithoutShorter(items[..|items| - 1], gone);
    }
  }

  /** A new row is skipped if and only if it comes before the offset, unless it was read before. */
  lemma InsertSkipsIff(t: Phase, rows: seq<string>, p: nat, x: string, read: seq<string>)
    requires p <= |rows| && Covers(read, Passed(t, rows))
    ensures Covers(read, Passed(t, InboxTwice.Inserted(rows, p, x))) <==> NextOffset(t) <= p || x in read
  {
    var o, more := NextOffset(t), InboxTwice.Inserted(rows, p, x);
    if p < o {
      assert Passed(t, more)[p] == x;
      forall y | y in Passed(t, more) && y != x ensures y in read {
        var k :| 0 <= k < |Passed(t, more)| && Passed(t, more)[k] == y;
        assert y == if k < p then Passed(t, rows)[k] else Passed(t, rows)[k - 1];
      }
    } else {
      assert Passed(t, more) == Passed(t, rows);
    }
  }
}
