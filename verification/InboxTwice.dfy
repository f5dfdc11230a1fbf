/**
 When a rebuild appends an id that the inbox holds: what decides it among the pages it reads, and among the
 sends and the changes of the table made while it runs.
 */
module InboxTwice {
  import opened Wrappers
  import opened Inbox
  import opened InboxRebuild
  import IR = InboxRuns

  // ---------------------------------------------------------------- exactly when an id comes twice

  /** Now, and whatever the rebuild in time goes on to append if left alone, no id is in the list twice. */
  ghost predicate NoneTwice(s: System) {
    && IR.Distinct(s.list)
    && forall r, more :: r in s.tasks && InTime(s, r) && LeftAlone(more, r) ==> IR.Distinct(StepAll(s, more).list)
  }

  ghost predicate DueClear(s: System, r: nat)
    requires r in s.tasks
  {
    InTime(s, r) ==> IR.Distinct(s.list + Due(s, r))
  }

  ghost predicate Clear(s: System) {
    IR.Distinct(s.list) && forall r :: r in s.tasks ==> DueClear(s, r)
  }

  lemma NoneTwiceIsClear(s: System)
    requires Inv(s)
    ensures NoneTwice(s) <==> Clear(s)
  {
    forall r | r in s.tasks && InTime(s, r)
      ensures DueClear(s, r) <==>
              forall more :: LeftAlone(more, r) ==> IR.Distinct(StepAll(s, more).list)
    {
      assert Holds(s, r);
      var end := Finishes(s, r);
      forall more | LeftAlone(more, r) && DueClear(s, r) ensures IR.Distinct(StepAll(s, more).list) {
        AloneKeepsDue(s, more, r);
        DistinctConcatIff(StepAll(s, more).list, Due(StepAll(s, more), r));
      }
    }
  }

  /** A change of the table after which a row still to be read is in the list or in the page being pushed. */
  ghost predicate RowsClash(s: System, rows: seq<string>) {
    exists r ::
      r in s.tasks && InTime(s, r) && Meets(Unread(s.tasks[r], rows), s.list + Rest(s.tasks[r]))
  }

  /** A send of an id that is in the list, or that a rebuild in time is about to append. */
  ghost predicate SendClashes(s: System, id: string) {
    id in s.list || exists r :: r in s.tasks && InTime(s, r) && id in PhaseDue(s.tasks[r], s.rows)
  }

  ghost predicate Clashes(s: System, e: Event) {
    match e
    case Send(id) => SendClashes(s, id)
    case RowsChange(rows) => RowsClash(s, rows)
    case Leave(gone) => RowsClash(s, Without(s.rows, gone))
    case _ => false
  }

  lemma RowsFromDistinct(rows: seq<string>, offset: nat)
    requires IR.Distinct(rows)
    ensures IR.Distinct(RowsFrom(rows, offset))
  {
  }

  lemma ShrinkKeepsClear(s: System, list: seq<string>)
    requires Inv(s) && Clear(s) && IR.Distinct(list) && forall x :: x in list ==> x in s.list
    ensures Clear(s.(list := list))
  {
    var s' := s.(list := list);
    RowsFromDistinct(s.rows, 0);
    forall r | r in s'.tasks ensures DueClear(s', r) {
      assert DueClear(s, r);
      if InTime(s, r) {
        DistinctConcatIff(s.list, Due(s, r));
        DistinctConcatIff(list, Due(s', r));
      }
    }
  }

  lemma FewerKeepClear(s: System, s': System)
    requires Clear(s) && s'.list == s.list && s'.rows == s.rows && s.now <= s'.now
    requires forall r :: r in s'.tasks ==> r in s.tasks && s'.tasks[r] == s.tasks[r]
    ensures Clear(s')
  {
    forall r | r in s'.tasks ensures DueClear(s', r) {
      assert DueClear(s, r) && Due(s', r) == Due(s, r);
    }
  }

  lemma LockKeepsClear(s: System, r: nat, answered: bool)
    requires Inv(s) && Clear(s)
    ensures Clear(Step(s, SetLock(r, answered)))
  {
    var s' := Step(s, SetLock(r, answered));
    RowsFromDistinct(s.rows, 0);
    forall q | q in s'.tasks ensures DueClear(s', q) {
      if q in s.tasks {
        assert DueClear(s, q) && Due(s', q) == Due(s, q);
      } else {
        assert s'.list + Due(s', q) == if s.list == [] then RowsFrom(s.rows, 0) else s.list;
      }
    }
  }

  /** A command of a rebuild, answered or not, leaves no more due than there was. */
  lemma OwnShrinksDue(s: System, e: Event)
    requires ByRebuild(e) && e.r in s.tasks && PhaseOk(s.tasks[e.r])
    ensures var s' := Step(s, e); s'.list + Due(s', e.r) <= s.list + Due(s, e.r)
  {
    if OwnEvent(e, e.r) {
      OwnKeepsDue(s, e, e.r);
    }
  }

  lemma OwnKeepsClear(s: System, e: Event)
    requires Inv(s) && Clear(s) && ByRebuild(e) && e.r in s.tasks && InTime(s, e.r)
    ensures Clear(Step(s, e))
  {
    var s' := Step(s, e);
    assert Holds(s, e.r) && DueClear(s, e.r);
    OwnShrinksDue(s, e);
    DistinctPrefix(s'.list + Due(s', e.r), s.list + Due(s, e.r));
    DistinctConcatIff(s'.list, Due(s', e.r));
    forall q | q in s'.tasks && InTime(s', q) ensures q == e.r {
      assert BothInTime(s, e.r, q);
    }
  }

  lemma DistinctPrefix(a: seq<string>, b: seq<string>)
    requires a <= b && IR.Distinct(b)
    ensures IR.Distinct(a)
  {
  }

  lemma SendDecides(s: System, id: string)
    requires Inv(s) && Clear(s)
    ensures Clear(Step(s, Send(id))) <==> !SendClashes(s, id)
  {
    var s' := Step(s, Send(id));
    DistinctConcatIff(s.list, [id]);
    assert Meets(s.list, [id]) <==> id in s.list by {
      assert id in [id];
    }
    forall r | r in s.tasks && InTime(s, r) && id !in s.list
      ensures DueClear(s', r) <==> id !in PhaseDue(s.tasks[r], s.rows)
    {
      var due := PhaseDue(s.tasks[r], s.rows);
      assert DueClear(s, r);
      if s.tasks[r].Locked? {
        assert s'.list + [] == s'.list;
      } else {
        DistinctConcatIff(s.list, due);
        DistinctConcatIff(s'.list, due);
        assert Meets(s'.list, due) <==> id in due by {
          assert id in s'.list;
          assert forall x :: x in s.list ==> x in s'.list;
        }
      }
    }
  }

  lemma RowsDecideFor(s: System, rows: seq<string>, r: nat)
    requires Clear(s) && IR.Distinct(rows) && r in s.tasks && InTime(s, r)
    ensures DueClear(s.(rows := rows), r) <==> !Meets(Unread(s.tasks[r], rows), s.list + Rest(s.tasks[r]))
  {
    var s', t := s.(rows := rows), s.tasks[r];
    assert DueClear(s, r);
    RowsFromDistinct(rows, 0);
    RowsFromDistinct(rows, NextOffset(t));
    if t.Locked? {
      assert s'.list + Due(s', r) == if s.list == [] then RowsFrom(rows, 0) else s.list;
    } else {
      assert s.list + Due(s, r) == (s.list + Rest(t)) + Unread(t, s.rows);
      DistinctConcatIff(s.list + Rest(t), Unread(t, s.rows));
      assert s'.list + Due(s', r) == (s.list + Rest(t)) + Unread(t, rows);
      DistinctConcatIff(s.list + Rest(t), Unread(t, rows));
      assert Meets(s.list + Rest(t), Unread(t, rows)) <==> Meets(Unread(t, rows), s.list + Rest(t));
    }
  }

  lemma RowsDecide(s: System, rows: seq<string>)
    requires Clear(s) && IR.Distinct(rows)
    ensures Clear(s.(rows := rows)) <==> !RowsClash(s, rows)
  {
    forall r | r in s.tasks && InTime(s, r)
      ensures DueClear(s.(rows := rows), r) <==> !Meets(Unread(s.tasks[r], rows), s.list + Rest(s.tasks[r]))
    {
      RowsDecideFor(s, rows, r);
    }
  }

  lemma ClearDecides(s: System, e: Event)
    requires Inv(s) && Clear(s) && Punctual(s, e)
    ensures Clear(Step(s, e)) <==> !Clashes(s, e)
  {
    if ByRebuild(e) {
      if e.r in s.tasks {
        OwnKeepsClear(s, e);
      }
    } else if ListShrinks(e) {
      ShrinkLess(s, e);
      ShrinkKeepsClear(s, Step(s, e).list);
    } else {
      match e
      case Send(id) => SendDecides(s, id);
      case RowsChange(rows) => RowsDecide(s, rows);
      case Leave(gone) =>
        WithoutLess(s.rows, gone);
        RowsDecide(s, Without(s.rows, gone));
      case SetLock(r, answered) => LockKeepsClear(s, r, answered);
      case Tick(_) => FewerKeepClear(s, Step(s, e));
      case Die(_) => FewerKeepClear(s, Step(s, e));
    }
  }

  /**
   Rebuilds that send each command while their own lock lives, in any interleaving and over any changes
   of the table: at all times no id is in the list twice, or will be when the rebuild goes on alone, if and only
   if no send is of an id that is there or about to be appended, and no change of the table leaves a row that is
   there at or after the offset of the next query.
   */
  lemma NoneTwiceIff(rows: seq<string>, events: seq<Event>)
    requires AllPunctual(rows, events)
    ensures Throughout(rows, events, s => NoneTwice(s)) <==> Excluded(rows, events, (s, e) => Clashes(s, e))
  {
    var p, bad := s => NoneTwice(s), (s: System, e: Event) => Clashes(s, e);
    assert events[..0] == [];
    forall i: nat | i < |events| ensures DecidesAt(rows, events, i, p, bad) {
      RunInv(rows, events, i);
      RunInv(rows, events, i + 1);
      RunNext(rows, events, i);
      NoneTwiceIsClear(Run(rows, events[..i]));
      NoneTwiceIsClear(Run(rows, events[..i + 1]));
      if Clear(Run(rows, events[..i])) {
        ClearDecides(Run(rows, events[..i]), events[i]);
      }
    }
    ThroughoutIff(rows, events, p, bad);
  }

  // ---------------------------------------------------------------- the same, seen from the queries

  /** Now, and as the page that has been read is pushed, no id is in the list twice. */
  ghost predicate NonePushedTwice(s: System) {
    && IR.Distinct(s.list)
    && forall r, n: nat :: r in s.tasks && InTime(s, r) ==> IR.Distinct(StepAll(s, Repeat(PushNext(r), n)).list)
  }

  function RestAt(s: System, r: nat): seq<string> {
    if r in s.tasks then Rest(s.tasks[r]) else []
  }

  ghost predicate PageClear(s: System) {
    && IR.Distinct(s.list)
    && forall r :: r in s.tasks && InTime(s, r) ==> IR.Distinct(s.list + RestAt(s, r))
  }

  lemma PushOne(s: System, r: nat)
    requires r in s.tasks && PhaseOk(s.tasks[r])
    ensures var s' := Step(s, PushNext(r));
      && r in s'.tasks && PhaseOk(s'.tasks[r]) && s.list <= s'.list
      && s'.list + RestAt(s', r) == s.list + RestAt(s, r)
      && |RestAt(s', r)| == |RestAt(s, r)| - if RestAt(s, r) == [] then 0 else 1
  {
    var t := s.tasks[r];
    if t.Pushing? {
      NextPhaseOk(t, []);
      assert t.rest == [t.rest[0]] + t.rest[1..];
      assert s.list + ([t.rest[0]] + Rest(AfterPush(t))) == (s.list + [t.rest[0]]) + Rest(AfterPush(t));
    }
  }

  lemma {:induction false} PushesKeepRest(s: System, r: nat, n: nat)
    requires r in s.tasks && PhaseOk(s.tasks[r])
    ensures var s' := StepAll(s, Repeat(PushNext(r), n));
      && r in s'.tasks && PhaseOk(s'.tasks[r]) && s.list <= s'.list
      && s'.list + RestAt(s', r) == s.list + RestAt(s, r)
      && |RestAt(s', r)| == if n < |RestAt(s, r)| then |RestAt(s, r)| - n else 0
  {
    if n > 0 {
      PushesKeepRest(s, r, n - 1);
      assert Repeat(PushNext(r), n)[..n - 1] == Repeat(PushNext(r), n - 1);
      PushOne(StepAll(s, Repeat(PushNext(r), n - 1)), r);
    }
  }

  lemma NonePushedTwiceIsClear(s: System)
    requires Inv(s)
    ensures NonePushedTwice(s) <==> PageClear(s)
  {
    forall r | r in s.tasks && InTime(s, r)
      ensures IR.Distinct(s.list + RestAt(s, r)) <==>
              forall n: nat :: IR.Distinct(StepAll(s, Repeat(PushNext(r), n)).list)
    {
      assert Holds(s, r);
      forall n: nat | IR.Distinct(s.list + RestAt(s, r))
        ensures IR.Distinct(StepAll(s, Repeat(PushNext(r), n)).list)
      {
        PushesKeepRest(s, r, n);
        DistinctPrefix(StepAll(s, Repeat(PushNext(r), n)).list, s.list + RestAt(s, r));
      }
      var end := |RestAt(s, r)|;
      PushesKeepRest(s, r, end);
      assert StepAll(s, Repeat(PushNext(r), end)).list == s.list + RestAt(s, r);
    }
  }

  /** An answered query whose page meets the list, or a send of an id of the list or of the page being pushed. */
  ghost predicate Overlaps(s: System, e: Event) {
    match e
    case Query(r, answered) =>
      && answered && r in s.tasks && s.tasks[r].Paging?
      && Meets(s.list, Page(s.rows, PAGE_SIZE, s.tasks[r].offset))
    case Send(id) => id in s.list || exists r :: r in s.tasks && InTime(s, r) && id in RestAt(s, r)
    case _ => false
  }

  lemma QueryDecides(s: System, r: nat)
    requires Inv(s) && PageClear(s) && r in s.tasks && s.tasks[r].Paging? && InTime(s, r)
    ensures PageClear(Step(s, Query(r, true))) <==> !Overlaps(s, Query(r, true))
  {
    var s', page := Step(s, Query(r, true)), Page(s.rows, PAGE_SIZE, s.tasks[r].offset);
    assert IR.Distinct(page);
    DistinctConcatIff(s.list, page);
    assert RestAt(s', r) == page && s'.list == s.list;
    forall q | q in s'.tasks && InTime(s', q) ensures q == r {
      assert BothInTime(s, r, q);
    }
  }

  lemma SendPageDecides(s: System, id: string)
    requires Inv(s) && PageClear(s)
    ensures PageClear(Step(s, Send(id))) <==> !Overlaps(s, Send(id))
  {
    var s' := Step(s, Send(id));
    DistinctConcatIff(s.list, [id]);
    assert Meets(s.list, [id]) <==> id in s.list by {
      assert id in [id];
    }
    forall r | r in s.tasks && InTime(s, r) && id !in s.list
      ensures IR.Distinct(s'.list + RestAt(s', r)) <==> id !in RestAt(s, r)
    {
      DistinctConcatIff(s.list, RestAt(s, r));
      DistinctConcatIff(s'.list, RestAt(s, r));
      assert Meets(s'.list, RestAt(s, r)) <==> id in RestAt(s, r) by {
        assert id in s'.list;
        assert forall x :: x in s.list ==> x in s'.list;
      }
    }
  }

  /** Any other step: the list or what is to be pushed gets shorter. */
  /** A trim, a flush, the cap and the expiry shorten the list. */
  lemma ShrinkKeepsPageClear(s: System, e: Event)
    requires PageClear(s) && ListShrinks(e)
    ensures PageClear(Step(s, e))
  {
    var s' := Step(s, e);
    ShrinkLess(s, e);
    forall r | r in s'.tasks && InTime(s', r) ensures IR.Distinct(s'.list + RestAt(s', r)) {
      DistinctConcatIff(s.list, RestAt(s, r));
      DistinctConcatIff(s'.list, RestAt(s', r));
    }
  }

  /** Other commands of a rebuild push what was read, or give it up. */
  lemma OwnKeepsPageClear(s: System, e: Event)
    requires Inv(s) && PageClear(s) && ByRebuild(e) && !(e.Query? && e.answered)
    requires e.r in s.tasks && InTime(s, e.r)
    ensures PageClear(Step(s, e))
  {
    var s' := Step(s, e);
    assert Holds(s, e.r);
    if e.PushNext? {
      PushOne(s, e.r);
    }
    DistinctConcatIff(s'.list, RestAt(s', e.r));
    forall q | q in s'.tasks && InTime(s', q) ensures q == e.r {
      assert BothInTime(s, e.r, q);
    }
  }

  lemma OthersKeepPageClear(s: System, e: Event)
    requires PageClear(s) && !ByRebuild(e) && !ListShrinks(e) && !e.Send?
    ensures PageClear(Step(s, e))
  {
    var s' := Step(s, e);
    forall r | r in s'.tasks && InTime(s', r) ensures IR.Distinct(s'.list + RestAt(s', r)) {
      assert r !in s.tasks ==> s'.list + RestAt(s', r) == s.list;
    }
  }

  lemma PageClearDecides(s: System, e: Event)
    requires Inv(s) && PageClear(s) && Punctual(s, e)
    ensures PageClear(Step(s, e)) <==> !Overlaps(s, e)
  {
    if e.Send? {
      SendPageDecides(s, e.id);
    } else if ListShrinks(e) {
      ShrinkKeepsPageClear(s, e);
    } else if !ByRebuild(e) {
      OthersKeepPageClear(s, e);
    } else if e.r in s.tasks {
      if e.Query? && e.answered {
        if s.tasks[e.r].Paging? {
          QueryDecides(s, e.r);
        }
      } else {
        OwnKeepsPageClear(s, e);
      }
    }
  }

  /**
   The same rebuilds: at all times no id is in the list twice, or will be when the page read is pushed, if and
   only if every page is apart from the list when it is read, and no send is of an id that is there or in a page
   being pushed.
   */
  lemma PagesApartIff(rows: seq<string>, events: seq<Event>)
    requires AllPunctual(rows, events)
    ensures Throughout(rows, events, s => NonePushedTwice(s)) <==> Excluded(rows, events, (s, e) => Overlaps(s, e))
  {
    var p, bad := s => NonePushedTwice(s), (s: System, e: Event) => Overlaps(s, e);
    assert events[..0] == [];
    forall i: nat | i < |events| ensures DecidesAt(rows, events, i, p, bad) {
      RunInv(rows, events, i);
      RunInv(rows, events, i + 1);
      RunNext(rows, events, i);
      var s, e := Run(rows, events[..i]), events[i];
      NonePushedTwiceIsClear(s);
      NonePushedTwiceIsClear(Step(s, e));
      if PageClear(s) {
        PageClearDecides(s, e);
      }
    }
    ThroughoutIff(rows, events, p, bad);
  }

  // ---------------------------------------------------------------- which changes of the table clash

  function Inserted(rows: seq<string>, p: nat, x: string): seq<string>
    requires p <= |rows|
  {
    rows[..p] + [x] + rows[p..]
  }

  lemma UnreadAt(rows: seq<string>, offset: nat, y: string) returns (k: nat)
    requires y in RowsFrom(rows, offset)
    ensures offset <= k < Min(MAX_QUEUE_LEN, |rows|) && rows[k] == y
  {
    var i :| 0 <= i < |RowsFrom(rows, offset)| && RowsFrom(rows, offset)[i] == y;
    k := offset + i;
  }

  lemma UnreadApart(rows: seq<string>, offset: nat, taken: seq<string>, k: nat)
    requires !Meets(RowsFrom(rows, offset), taken) && offset <= k < Min(MAX_QUEUE_LEN, |rows|)
    ensures rows[k] !in taken
  {
    assert rows[k] == RowsFrom(rows, offset)[k - offset];
  }

  lemma InsertBefore(rows: seq<string>, p: nat, x: string, o: nat, taken: seq<string>)
    requires p <= |rows| && p < o && !Meets(RowsFrom(rows, o), taken)
    ensures Meets(RowsFrom(Inserted(rows, p, x), o), taken) <==>
            o < MAX_QUEUE_LEN && o <= |rows| && rows[o - 1] in taken
  {
    var more := Inserted(rows, p, x);
    forall y | y in RowsFrom(more, o) && y in taken ensures o < MAX_QUEUE_LEN && o <= |rows| && y == rows[o - 1] {
      var k := UnreadAt(more, o, y);
      if k > o {
        UnreadApart(rows, o, taken, k - 1);
      }
    }
    if o < MAX_QUEUE_LEN && o <= |rows| {
      assert RowsFrom(more, o)[0] == more[o] == rows[o - 1];
    }
  }

  lemma InsertAfter(rows: seq<string>, p: nat, x: string, o: nat, taken: seq<string>)
    requires o <= p <= |rows| && !Meets(RowsFrom(rows, o), taken)
    ensures Meets(RowsFrom(Inserted(rows, p, x), o), taken) <==> p < MAX_QUEUE_LEN && x in taken
  {
    var more := Inserted(rows, p, x);
    forall y | y in RowsFrom(more, o) && y in taken ensures p < MAX_QUEUE_LEN && y == x {
      var k := UnreadAt(more, o, y);
      if k != p {
        UnreadApart(rows, o, taken, if k < p then k else k - 1);
      }
    }
    if p < MAX_QUEUE_LEN {
      assert RowsFrom(more, o)[p - o] == more[p] == x;
    }
  }

  /**
   A new row clashes with what is taken, the list and the page being pushed, if and only if it comes before the
   offset of the next query and the row it moves there is taken, or it comes at or after it and is itself taken.
   */
  lemma InsertClashesIff(t: Phase, rows: seq<string>, p: nat, x: string, taken: seq<string>)
    requires p <= |rows| && !Meets(Unread(t, rows), taken)
    ensures var o := NextOffset(t);
      Meets(Unread(t, Inserted(rows, p, x)), taken) <==>
      if p < o then o < MAX_QUEUE_LEN && o <= |rows| && rows[o - 1] in taken else p < MAX_QUEUE_LEN && x in taken
  {
    if p < NextOffset(t) {
      InsertBefore(rows, p, x, NextOffset(t), taken);
    } else {
      InsertAfter(rows, p, x, NextOffset(t), taken);
    }
  }

  /** What a row inserted at `p` does to the rebuild in time. */
  predicate InsertMeets(s: System, r: nat, p: nat, x: string)
    requires r in s.tasks
  {
    var o, taken := NextOffset(s.tasks[r]), s.list + Rest(s.tasks[r]);
    if p < o then o < MAX_QUEUE_LEN && o <= |s.rows| && s.rows[o - 1] in taken else p < MAX_QUEUE_LEN && x in taken
  }

  lemma InsertMeetsIff(s: System, r: nat, p: nat, x: string)
    requires r in s.tasks && InTime(s, r) && DueClear(s, r) && p <= |s.rows|
    ensures InsertMeets(s, r, p, x) <==>
            Meets(Unread(s.tasks[r], Inserted(s.rows, p, x)), s.list + Rest(s.tasks[r]))
  {
    var t := s.tasks[r];
    if t.Locked? {
      assert Unread(t, s.rows) == [];
    } else {
      assert s.list + Due(s, r) == (s.list + Rest(t)) + Unread(t, s.rows);
      DistinctConcatIff(s.list + Rest(t), Unread(t, s.rows));
    }
    InsertClashesIff(t, s.rows, p, x, s.list + Rest(t));
  }

  /** So an insertion clashes if and only if it does so with the rebuild in time. */
  lemma InsertionClashesIff(s: System, p: nat, x: string)
    requires Clear(s) && p <= |s.rows|
    ensures Clashes(s, RowsChange(Inserted(s.rows, p, x))) <==>
            exists r :: r in s.tasks && InTime(s, r) && InsertMeets(s, r, p, x)
  {
    forall r | r in s.tasks && InTime(s, r)
      ensures InsertMeets(s, r, p, x) <==>
              Meets(Unread(s.tasks[r], Inserted(s.rows, p, x)), s.list + Rest(s.tasks[r]))
    {
      assert DueClear(s, r);
      InsertMeetsIff(s, r, p, x);
    }
  }

  // ---------------------------------------------------------------- a table that only loses rows

  /** None of the rows from `from` on is in the list. */
  ghost predicate Ahead(list: seq<string>, rows: seq<string>, from: nat) {
    forall k :: from <= k < |rows| ==> rows[k] !in list
  }

  /** When rows leave, those behind an offset come from behind it. */
  lemma {:induction false} LeaveAhead(list: seq<string>, rows: seq<string>, from: nat, gone: set<string>)
    requires Ahead(list, rows, from)
    ensures Ahead(list, Without(rows, gone), from) && |Without(rows, gone)| <= |rows|
  {
    if rows != [] {
      LeaveAhead(list, rows[..|rows| - 1], from, gone);
    }
  }

  function Sent(events: seq<Event>): set<string> {
    if events == [] then {}
    else Sent(events[..|events| - 1]) + if events[|events| - 1].Send? then {events[|events| - 1].id} else {}
  }

  /** Rows only leave, as messages are delivered or deleted; what is sent is new and not in the table. */
  predicate Steady(e: Event, table: seq<string>, sent: set<string>) {
    !e.RowsChange? && (e.Send? ==> e.id !in table && e.id !in sent)
  }

  ghost predicate AllSteady(table: seq<string>, events: seq<Event>) {
    forall i: nat :: i < |events| ==> Steady(events[i], table, Sent(events[..i]))
  }

  function ReadUpTo(t: Phase): nat {
    match t
    case Paging(_, offset, _) => offset
    case Pushing(_, offset, size, _, _) => offset + size
    case _ => 0
  }

  /** What has not been read is not in the list. */
  ghost predicate Far(t: Phase, list: seq<string>, rows: seq<string>, table: seq<string>) {
    && (forall x :: x in Rest(t) ==> x in table)
    && (t.Paging? || t.Pushing? ==> Ahead(list + Rest(t), rows, ReadUpTo(t)))
  }

  ghost predicate FarAt(s: System, r: nat, table: seq<string>)
    requires r in s.tasks
  {
    InTime(s, r) ==> Far(s.tasks[r], s.list, s.rows, table)
  }

  ghost predicate AllFar(s: System, table: seq<string>, sent: set<string>) {
    && (forall x :: x in s.rows ==> x in table)
    && (forall x :: x in s.list ==> x in table || x in sent)
    && (forall r :: r in s.tasks ==> FarAt(s, r, table))
  }

  lemma LessIsFar(t: Phase, list: seq<string>, list': seq<string>, rows: seq<string>, table: seq<string>)
    requires Far(t, list, rows, table) && forall x :: x in list' ==> x in list
    ensures Far(t, list', rows, table)
  {
  }

  lemma SentIsFar(t: Phase, list: seq<string>, id: string, rows: seq<string>, table: seq<string>)
    requires Far(t, list, rows, table) && id !in table && forall x :: x in rows ==> x in table
    ensures Far(t, list + [id], rows, table)
  {
  }

  lemma LeaveIsFar(t: Phase, list: seq<string>, rows: seq<string>, table: seq<string>, gone: set<string>)
    requires Far(t, list, rows, table)
    ensures Far(t, list, Without(rows, gone), table)
  {
    if t.Paging? || t.Pushing? {
      LeaveAhead(list + Rest(t), rows, ReadUpTo(t), gone);
    }
  }

  lemma PageIsFar(t: Phase, list: seq<string>, rows: seq<string>, table: seq<string>)
    requires t.Paging? && Far(t, list, rows, table) && IR.Distinct(rows) && forall x :: x in rows ==> x in table
    ensures Far(AfterPage(t, Page(rows, PAGE_SIZE, t.offset)), list, rows, table)
  {
    var page := Page(rows, PAGE_SIZE, t.offset);
    if page != [] {
      var o := t.offset;
      assert page == rows[o..o + |page|];
      forall k | o + |page| <= k < |rows| ensures rows[k] !in list + page {
        assert forall i :: 0 <= i < |page| ==> page[i] == rows[o + i];
      }
    }
  }

  lemma PushIsFar(t: Phase, list: seq<string>, rows: seq<string>, table: seq<string>)
    requires t.Pushing? && PhaseOk(t) && Far(t, list, rows, table)
    ensures Far(AfterPush(t), list + [t.rest[0]], rows, table)
  {
    assert t.rest == [t.rest[0]] + t.rest[1..];
    assert list + t.rest == (list + [t.rest[0]]) + t.rest[1..];
  }

  lemma OwnKeepsFar(s: System, e: Event, table: seq<string>, sent: set<string>)
    requires Inv(s) && AllFar(s, table, sent) && ByRebuild(e) && e.r in s.tasks && InTime(s, e.r)
    ensures AllFar(Step(s, e), table, sent)
  {
    var s', t := Step(s, e), s.tasks[e.r];
    assert Holds(s, e.r) && FarAt(s, e.r, table);
    if t.Paging? {
      PageIsFar(t, s.list, s.rows, table);
    }
    if t.Pushing? {
      PushIsFar(t, s.list, s.rows, table);
    }
    forall q | q in s'.tasks ensures FarAt(s', q, table) {
      if q != e.r {
        assert InTime(s, q) ==> BothInTime(s, e.r, q);
      }
    }
  }

  lemma StepKeepsFar(s: System, e: Event, table: seq<string>, sent: set<string>)
    requires Inv(s) && IR.Distinct(s.list) && AllFar(s, table, sent) && Punctual(s, e) && Steady(e, table, sent)
    ensures AllFar(Step(s, e), table, sent + if e.Send? then {e.id} else {})
  {
    var s' := Step(s, e);
    assert !e.Send? ==> sent + {} == sent;
    if ByRebuild(e) {
      if e.r in s.tasks {
        OwnKeepsFar(s, e, table, sent);
      }
    } else {
      if ListShrinks(e) {
        ShrinkLess(s, e);
      }
      if e.Leave? {
        WithoutLess(s.rows, e.gone);
      }
      forall r | r in s'.tasks && r in s.tasks ensures FarAt(s', r, table) {
        assert FarAt(s, r, table);
        if InTime(s, r) {
          LeaveIsFar(s.tasks[r], s.list, s.rows, table, if e.Leave? then e.gone else {});
          if e.Send? {
            SentIsFar(s.tasks[r], s.list, e.id, s.rows, table);
          } else {
            LessIsFar(s.tasks[r], s.list, s'.list, s.rows, table);
          }
        }
      }
    }
  }

  lemma FarIsApart(t: Phase, list: seq<string>, rows: seq<string>, table: seq<string>)
    requires Far(t, list, rows, table) && PhaseOk(t)
    ensures !Meets(Unread(t, rows), list + Rest(t))
  {
    forall x | x in Unread(t, rows) ensures x !in list + Rest(t) {
      var k := UnreadAt(rows, NextOffset(t), x);
    }
  }

  lemma FarNeverClashes(s: System, e: Event, table: seq<string>, sent: set<string>)
    requires Inv(s) && AllFar(s, table, sent) && Steady(e, table, sent)
    ensures !Clashes(s, e)
  {
    forall r | r in s.tasks && InTime(s, r)
      ensures e.Send? ==> e.id !in PhaseDue(s.tasks[r], s.rows)
      ensures e.Leave? ==> !Meets(Unread(s.tasks[r], Without(s.rows, e.gone)), s.list + Rest(s.tasks[r]))
    {
      assert FarAt(s, r, table) && Holds(s, r);
      if e.Leave? {
        LeaveIsFar(s.tasks[r], s.list, s.rows, table, e.gone);
        FarIsApart(s.tasks[r], s.list, Without(s.rows, e.gone), table);
      }
    }
  }

  lemma SteadyStep(s: System, e: Event, table: seq<string>, sent: set<string>)
    requires Inv(s) && Clear(s) && AllFar(s, table, sent) && Punctual(s, e) && Steady(e, table, sent)
    ensures Clear(Step(s, e)) && AllFar(Step(s, e), table, sent + if e.Send? then {e.id} else {})
  {
    FarNeverClashes(s, e, table, sent);
    ClearDecides(s, e);
    StepKeepsFar(s, e, table, sent);
  }

  lemma {:induction false} SteadyRunsAreFar(table: seq<string>, events: seq<Event>, i: nat)
    requires AllPunctual(table, events) && AllSteady(table, events) && i <= |events|
    ensures Clear(Run(table, events[..i])) && AllFar(Run(table, events[..i]), table, Sent(events[..i]))
  {
    if i > 0 {
      SteadyRunsAreFar(table, events, i - 1);
      RunInv(table, events, i - 1);
      RunNext(table, events, i - 1);
      assert events[..i][..i - 1] == events[..i - 1];
      SteadyStep(Run(table, events[..i - 1]), events[i - 1], table, Sent(events[..i - 1]));
    }
  }

  /**
   Over a table that only loses rows, with sends of new ids, rebuilds that send each command while their own
   lock lives leave no id twice, however they interleave with one another, trims, flushes and expiries.
   */
  lemma PunctualRebuildsLeaveNoneTwice(table: seq<string>, events: seq<Event>)
    requires AllPunctual(table, events) && AllSteady(table, events)
    ensures Throughout(table, events, s => NoneTwice(s))
  {
    var bad := (s: System, e: Event) => Clashes(s, e);
    forall i: nat | i < |events| ensures !HappensAt(table, events, i, bad) {
      SteadyRunsAreFar(table, events, i);
      RunInv(table, events, i);
      FarNeverClashes(Run(table, events[..i]), events[i], table, Sent(events[..i]));
    }
    NoneTwiceIff(table, events);
  }
}
