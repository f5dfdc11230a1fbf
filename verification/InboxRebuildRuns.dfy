/**
 Runs of rebuilds that put an id into the inbox twice or leave one out: a lock that ran out, a message that
 reaches the table meanwhile, and rows that come and leave between two queries.
 */
module InboxRebuildRuns {
  import opened Wrappers
  import opened Inbox
  import opened InboxRebuild
  import IR = InboxRuns

  function Start(rows: seq<string>): System {
    System([], Never, 0, rows, map[])
  }

  /** One rebuild, and when its lock runs out. */
  function One(list: seq<string>, rows: seq<string>, t: Phase): System {
    System(list, At(5), 0, rows, map[0 := t])
  }

  /** A rebuild that has found the list empty. */
  function Begun(): seq<Event> {
    [SetLock(0, true)] + [Length(0, true)]
  }

  lemma BegunRuns(rows: seq<string>)
    ensures Run(rows, Begun()) == One([], rows, Paging(5, 0, []))
  {
    StepAllSnoc(Start(rows), [], SetLock(0, true));
    assert [] + [SetLock(0, true)] == [SetLock(0, true)];
    assert Step(Start(rows), SetLock(0, true)) == One([], rows, Locked(5));
    StepAllSnoc(Start(rows), [SetLock(0, true)], Length(0, true));
    assert map[0 := Locked(5)][0 := Paging(5, 0, [])] == map[0 := Paging(5, 0, [])];
  }

  lemma QueryOne(list: seq<string>, rows: seq<string>, t: Phase)
    requires t.Paging?
    ensures Step(One(list, rows, t), Query(0, true)) == One(list, rows, AfterPage(t, Page(rows, PAGE_SIZE, t.offset)))
  {
    var t' := AfterPage(t, Page(rows, PAGE_SIZE, t.offset));
    assert map[0 := t][0 := t'] == map[0 := t'];
  }

  lemma PushOne(list: seq<string>, rows: seq<string>, t: Phase)
    requires t.Pushing? && t.rest != []
    ensures Step(One(list, rows, t), PushNext(0)) == One(list + [t.rest[0]], rows, AfterPush(t))
  {
    assert map[0 := t][0 := AfterPush(t)] == map[0 := AfterPush(t)];
  }

  // ---------------------------------------------------------------- a lock that ran out

  /** Both rebuilds see an empty list: the first is held up until its lock is gone. */
  function Late(): seq<Event> {
    Begun() + [Tick(REBUILD_LOCK_TTL_SECS)] + [SetLock(1, true)] + [Length(1, true)]
  }

  function BothPaging(id: string): System {
    System([], At(10), 5, [id], map[0 := Paging(5, 0, []), 1 := Paging(10, 0, [])])
  }

  lemma SecondComes(id: string)
    ensures var s := One([], [id], Paging(5, 0, [])).(now := 5);
      Step(Step(s, SetLock(1, true)), Length(1, true)) == BothPaging(id)
  {
    assert map[0 := Paging(5, 0, []), 1 := Locked(10)][1 := Paging(10, 0, [])] == BothPaging(id).tasks;
  }

  lemma LateRuns(id: string)
    ensures Run([id], Late()) == BothPaging(id)
  {
    BegunRuns([id]);
    StepAllSnoc(Start([id]), Begun(), Tick(REBUILD_LOCK_TTL_SECS));
    var e3 := Begun() + [Tick(REBUILD_LOCK_TTL_SECS)];
    StepAllSnoc(Start([id]), e3, SetLock(1, true));
    StepAllSnoc(Start([id]), e3 + [SetLock(1, true)], Length(1, true));
    SecondComes(id);
  }

  function BothPushing(id: string): System {
    System([], At(10), 5, [id], map[0 := Pushing(5, 0, 1, [id], []), 1 := Pushing(10, 0, 1, [id], [])])
  }

  lemma BothQuery(id: string)
    ensures Step(Step(BothPaging(id), Query(0, true)), Query(1, true)) == BothPushing(id)
  {
    assert Page([id], PAGE_SIZE, 0) == [id];
    assert BothPaging(id).tasks[0 := Pushing(5, 0, 1, [id], [])][1 := Pushing(10, 0, 1, [id], [])] ==
           BothPushing(id).tasks;
  }

  lemma BothPush(id: string)
    ensures Step(Step(BothPushing(id), PushNext(0)), PushNext(1)).list == [id, id]
  {
    assert [] + [id] + [id] == [id, id];
  }

  /** So each appends the table, and every undelivered id is in the inbox twice. */
  lemma LateRebuildRepeats(id: string)
    ensures Run([id], Late() + [Query(0, true)] + [Query(1, true)] + [PushNext(0)] + [PushNext(1)]).list == [id, id]
  {
    LateRuns(id);
    var e1, e2 := Late() + [Query(0, true)], Late() + [Query(0, true)] + [Query(1, true)];
    StepAllSnoc(Start([id]), Late(), Query(0, true));
    StepAllSnoc(Start([id]), e1, Query(1, true));
    BothQuery(id);
    StepAllSnoc(Start([id]), e2, PushNext(0));
    StepAllSnoc(Start([id]), e2 + [PushNext(0)], PushNext(1));
    BothPush(id);
  }

  // ---------------------------------------------------------------- a message that reaches the table

  /** A message sent and flushed between LLEN and the query of a rebuild in time is in the list twice. */
  lemma GrowingTableRepeats(id: string)
    ensures Run([], Begun() + [Send(id)] + [RowsChange([id])] + [Query(0, true)] + [PushNext(0)]).list == [id, id]
  {
    var e2 := Begun() + [Send(id)] + [RowsChange([id])];
    BegunRuns([]);
    StepAllSnoc(Start([]), Begun(), Send(id));
    StepAllSnoc(Start([]), Begun() + [Send(id)], RowsChange([id]));
    assert [] + [id] == [id];
    assert Run([], e2) == One([id], [id], Paging(5, 0, []));
    StepAllSnoc(Start([]), e2, Query(0, true));
    QueryOne([id], [id], Paging(5, 0, []));
    assert Page([id], PAGE_SIZE, 0) == [id];
    StepAllSnoc(Start([]), e2 + [Query(0, true)], PushNext(0));
    PushOne([id], [id], Pushing(5, 0, 1, [id], []));
    assert [id] + [id] == [id, id];
  }

  // ---------------------------------------------------------------- between two queries

  /** A rebuild that has pushed its first page. */
  function FirstPage(): seq<Event> {
    Begun() + [Query(0, true)] + Repeat(PushNext(0), PAGE_SIZE)
  }

  function PagePushed(rows: seq<string>, n: nat): System
    requires PAGE_SIZE <= |rows| && n <= PAGE_SIZE
  {
    One(rows[..n], rows, if n < PAGE_SIZE then Pushing(5, 0, PAGE_SIZE, rows[n..PAGE_SIZE], rows[..n])
                         else Paging(5, PAGE_SIZE, rows[..n]))
  }

  lemma PushedOneMore(rows: seq<string>, n: nat)
    requires PAGE_SIZE <= |rows| && n < PAGE_SIZE
    ensures Step(PagePushed(rows, n), PushNext(0)) == PagePushed(rows, n + 1)
  {
    var t := PagePushed(rows, n).tasks[0];
    PushOne(rows[..n], rows, t);
    assert t.rest[0] == rows[n] && t.rest[1..] == rows[n + 1..PAGE_SIZE];
    assert rows[..n] + [rows[n]] == rows[..n + 1];
  }

  lemma {:induction false} PagePushes(rows: seq<string>, n: nat)
    requires PAGE_SIZE <= |rows| && n <= PAGE_SIZE
    ensures Run(rows, Begun() + [Query(0, true)] + Repeat(PushNext(0), n)) == PagePushed(rows, n)
  {
    var e2 := Begun() + [Query(0, true)];
    if n == 0 {
      assert e2 + Repeat(PushNext(0), 0) == e2;
      BegunRuns(rows);
      StepAllSnoc(Start(rows), Begun(), Query(0, true));
      QueryOne([], rows, Paging(5, 0, []));
      assert Page(rows, PAGE_SIZE, 0) == rows[0..PAGE_SIZE];
    } else {
      PagePushes(rows, n - 1);
      assert e2 + Repeat(PushNext(0), n) == e2 + Repeat(PushNext(0), n - 1) + [PushNext(0)];
      StepAllSnoc(Start(rows), e2 + Repeat(PushNext(0), n - 1), PushNext(0));
      PushedOneMore(rows, n - 1);
    }
  }

  /** An older message reaches the table after the first page, and the last id of that page is read again. */
  lemma ShiftedRowRepeats(rows: seq<string>, older: string)
    requires PAGE_SIZE <= |rows|
    ensures Run(rows, FirstPage() + [RowsChange([older] + rows)] + [Query(0, true)] + [PushNext(0)]).list ==
            rows[..PAGE_SIZE] + [rows[PAGE_SIZE - 1]]
  {
    var more := [older] + rows;
    var t := Paging(5, PAGE_SIZE, rows[..PAGE_SIZE]);
    PagePushes(rows, PAGE_SIZE);
    StepAllSnoc(Start(rows), FirstPage(), RowsChange(more));
    var e := FirstPage() + [RowsChange(more)];
    assert Run(rows, e) == One(rows[..PAGE_SIZE], more, t);
    StepAllSnoc(Start(rows), e, Query(0, true));
    QueryOne(rows[..PAGE_SIZE], more, t);
    assert Page(more, PAGE_SIZE, PAGE_SIZE)[0] == more[PAGE_SIZE] == rows[PAGE_SIZE - 1];
    StepAllSnoc(Start(rows), e + [Query(0, true)], PushNext(0));
    PushOne(rows[..PAGE_SIZE], more, AfterPage(t, Page(more, PAGE_SIZE, PAGE_SIZE)));
  }

  /** Of 1001 messages the first is delivered after the first page: the rebuild ends without the last one. */
  lemma LeavingRowSkips(rows: seq<string>)
    requires |rows| == PAGE_SIZE + 1 && IR.Distinct(rows)
    ensures var s := Run(rows, FirstPage() + [Leave({rows[0]})] + [Query(0, true)]);
      && 0 in s.tasks && s.tasks[0] == Leaving(5, rows[..PAGE_SIZE])
      && s.list == rows[..PAGE_SIZE] && rows[PAGE_SIZE] in s.rows && rows[PAGE_SIZE] !in s.list
  {
    var gone, t := {rows[0]}, Paging(5, PAGE_SIZE, rows[..PAGE_SIZE]);
    PagePushes(rows, PAGE_SIZE);
    StepAllSnoc(Start(rows), FirstPage(), Leave(gone));
    StepAllSnoc(Start(rows), FirstPage() + [Leave(gone)], Query(0, true));
    QueryOne(rows[..PAGE_SIZE], Without(rows, gone), t);
    FirstLeaves(rows);
    assert Page(rows[1..], PAGE_SIZE, PAGE_SIZE) == [];
    assert rows[PAGE_SIZE] == rows[1..][PAGE_SIZE - 1];
  }

  lemma FirstLeaves(rows: seq<string>)
    requires rows != [] && IR.Distinct(rows)
    ensures Without(rows, {rows[0]}) == rows[1..]
  {
    assert rows == rows[..1] + rows[1..];
    IR.WithoutConcat(rows[..1], rows[1..], {rows[0]});
    IR.WithoutAll(rows[..1], {rows[0]});
    IR.WithoutNone(rows[1..], {rows[0]});
  }
}
