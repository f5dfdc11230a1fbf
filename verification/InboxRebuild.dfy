/**
 Rebuilds of one inbox command by command: any number of them at once, with sends, trims, flushes and
 changes of the table in between. The lock lives five seconds whatever its holder does, and whoever
 comes to the end of a rebuild deletes it. What a rebuild that keeps to its lock has still to append.
 */
module InboxRebuild {
  import opened Wrappers
  import opened Inbox
  import IR = InboxRuns

  /**
   Where a rebuild is; `until` is when the lock it took runs out, and `done` what it has appended, kept as a
   history.
   */
  datatype Phase =
    | Locked(until: nat)
    | Paging(until: nat, offset: nat, done: seq<string>)
    | Pushing(until: nat, offset: nat, size: nat, rest: seq<string>, done: seq<string>)
    | Leaving(until: nat, done: seq<string>)

  datatype System = System(list: seq<string>, lock: Expiry, now: nat, rows: seq<string>, tasks: map<nat, Phase>)

  datatype Event =
    | Tick(d: nat)
    | RowsChange(rows: seq<string>)
    | Leave(gone: set<string>)
    | Send(id: string)
    | Cut
    | Trim(gone: set<string>)
    | RemoveOne(id: string)
    | Vanish
    | SetLock(r: nat, answered: bool)
    | Length(r: nat, answered: bool)
    | Query(r: nat, answered: bool)
    | PushNext(r: nat)
    | PushFails(r: nat)
    | Release(r: nat, arrives: bool)
    | Die(r: nat)

  predicate Free(lock: Expiry, now: nat) {
    lock.Never? || lock.second <= now
  }

  function WithPhase(s: System, r: nat, phase: Phase): System {
    s.(tasks := s.tasks[r := phase])
  }

  /** After the last id of a page: the next page, unless the limit is reached or the page was short. */
  function PageDone(until: nat, offset: nat, size: nat, done: seq<string>): Phase {
    if offset + size >= MAX_QUEUE_LEN || size < PAGE_SIZE then Leaving(until, done)
    else Paging(until, offset + PAGE_SIZE, done)
  }

  function LengthStep(s: System, r: nat, answered: bool): System
    requires r in s.tasks && s.tasks[r].Locked?
  {
    var until := s.tasks[r].until;
    if !answered then s.(tasks := s.tasks - {r})
    else WithPhase(s, r, if s.list == [] then Paging(until, 0, []) else Leaving(until, []))
  }

  function AfterPage(t: Phase, page: seq<string>): Phase
    requires t.Paging?
  {
    if page == [] then Leaving(t.until, t.done) else Pushing(t.until, t.offset, |page|, page, t.done)
  }

  function QueryStep(s: System, r: nat, answered: bool): System
    requires r in s.tasks && s.tasks[r].Paging?
  {
    var t := s.tasks[r];
    WithPhase(s, r, AfterPage(t, if answered then Page(s.rows, PAGE_SIZE, t.offset) else []))
  }

  function AfterPush(t: Phase): Phase
    requires t.Pushing? && t.rest != []
  {
    var done := t.done + [t.rest[0]];
    if |t.rest| == 1 then PageDone(t.until, t.offset, t.size, done) else t.(rest := t.rest[1..], done := done)
  }

  function PushStep(s: System, r: nat): System
    requires r in s.tasks && s.tasks[r].Pushing? && s.tasks[r].rest != []
  {
    WithPhase(s.(list := s.list + [s.tasks[r].rest[0]]), r, AfterPush(s.tasks[r]))
  }

  function Step(s: System, e: Event): System {
    match e
    case Tick(d) => s.(now := s.now + d)
    case RowsChange(rows) => s.(rows := rows)
    case Leave(gone) => s.(rows := Without(s.rows, gone))
    case Send(id) => s.(list := s.list + [id])
    case Cut => s.(list := s.list[..Min(|s.list|, MAX_QUEUE_LEN + 1)])
    case Trim(gone) => s.(list := Without(s.list, gone))
    case RemoveOne(id) => s.(list := IR.RemoveFirst(s.list, id))
    case Vanish => s.(list := [])
    case SetLock(r, answered) =>
      if r in s.tasks || !Free(s.lock, s.now) then s
      else
        var until := s.now + REBUILD_LOCK_TTL_SECS;
        s.(lock := At(until), tasks := if answered then s.tasks[r := Locked(until)] else s.tasks)
    case Length(r, answered) => if r in s.tasks && s.tasks[r].Locked? then LengthStep(s, r, answered) else s
    case Query(r, answered) => if r in s.tasks && s.tasks[r].Paging? then QueryStep(s, r, answered) else s
    case PushNext(r) => if r in s.tasks && s.tasks[r].Pushing? && s.tasks[r].rest != [] then PushStep(s, r) else s
    case PushFails(r) =>
      if r in s.tasks && s.tasks[r].Pushing? then WithPhase(s, r, Leaving(s.tasks[r].until, s.tasks[r].done)) else s
    case Release(r, arrives) =>
      if r in s.tasks && s.tasks[r].Leaving? then
        s.(lock := if arrives then Never else s.lock, tasks := s.tasks - {r})
      else s
    case Die(r) => s.(tasks := s.tasks - {r})
  }

  function StepAll(s: System, events: seq<Event>): System {
    if events == [] then s else Step(StepAll(s, events[..|events| - 1]), events[|events| - 1])
  }

  function Run(rows: seq<string>, events: seq<Event>): System {
    StepAll(System([], Never, 0, rows, map[]), events)
  }

  lemma StepAllSnoc(s: System, events: seq<Event>, e: Event)
    ensures StepAll(s, events + [e]) == Step(StepAll(s, events), e)
  {
    assert (events + [e])[..|events|] == events;
  }

  lemma {:induction false} StepAllCons(s: System, e: Event, more: seq<Event>)
    ensures StepAll(s, [e] + more) == StepAll(Step(s, e), more)
  {
    if more == [] {
      assert [e] + more == [] + [e];
      StepAllSnoc(s, [], e);
    } else {
      var n := |more| - 1;
      StepAllCons(s, e, more[..n]);
      assert [e] + more == ([e] + more[..n]) + [more[n]];
      StepAllSnoc(s, [e] + more[..n], more[n]);
    }
  }

  // ---------------------------------------------------------------- rebuilds that keep to their lock

  predicate InTime(s: System, r: nat)
    requires r in s.tasks
  {
    s.now < s.tasks[r].until
  }

  predicate ByRebuild(e: Event) {
    e.Length? || e.Query? || e.PushNext? || e.PushFails? || e.Release?
  }

  /** A command of a rebuild is sent while its own lock lives; rows of a table are different. */
  predicate Punctual(s: System, e: Event) {
    && (ByRebuild(e) && e.r in s.tasks ==> InTime(s, e.r))
    && (e.RowsChange? ==> IR.Distinct(e.rows))
  }

  ghost predicate AllPunctual(rows: seq<string>, events: seq<Event>) {
    IR.Distinct(rows) && forall i: nat :: i < |events| ==> Punctual(Run(rows, events[..i]), events[i])
  }

  predicate PhaseOk(t: Phase) {
    match t
    case Paging(_, offset, _) => offset % PAGE_SIZE == 0 && offset + PAGE_SIZE <= MAX_QUEUE_LEN
    case Pushing(_, offset, size, rest, _) =>
      && offset % PAGE_SIZE == 0 && offset + PAGE_SIZE <= MAX_QUEUE_LEN
      && 0 < |rest| <= size <= PAGE_SIZE
    case _ => true
  }

  /** A rebuild in time holds the lock. */
  predicate Holds(s: System, r: nat)
    requires r in s.tasks
  {
    PhaseOk(s.tasks[r]) && (InTime(s, r) ==> s.lock == At(s.tasks[r].until))
  }

  predicate BothInTime(s: System, r: nat, q: nat) {
    r in s.tasks && q in s.tasks && InTime(s, r) && InTime(s, q)
  }

  ghost predicate Inv(s: System) {
    && IR.Distinct(s.rows)
    && (forall r :: r in s.tasks ==> Holds(s, r))
    && (forall r, q :: BothInTime(s, r, q) ==> r == q)
  }

  /** Fewer rebuilds, or a later clock. */
  lemma LessKeepsInv(s: System, s': System)
    requires Inv(s) && IR.Distinct(s'.rows) && s'.lock == s.lock && s.now <= s'.now
    requires forall r :: r in s'.tasks ==> r in s.tasks && s'.tasks[r] == s.tasks[r]
    ensures Inv(s')
  {
    forall r | r in s'.tasks ensures Holds(s', r) {
      assert Holds(s, r);
    }
    forall r, q | BothInTime(s', r, q) ensures r == q {
      assert BothInTime(s, r, q);
    }
  }

  lemma PhaseKeepsInv(s: System, r: nat, t: Phase, list: seq<string>)
    requires Inv(s) && r in s.tasks && t.until == s.tasks[r].until && PhaseOk(t)
    ensures Inv(WithPhase(s.(list := list), r, t))
  {
    var s' := WithPhase(s.(list := list), r, t);
    forall q | q in s'.tasks ensures Holds(s', q) {
      assert Holds(s, q);
    }
    forall p, q | BothInTime(s', p, q) ensures p == q {
      assert BothInTime(s, p, q);
    }
  }

  lemma GoneKeepsInv(s: System, r: nat, lock: Expiry)
    requires Inv(s) && r in s.tasks && InTime(s, r)
    ensures Inv(s.(lock := lock, tasks := s.tasks - {r}))
  {
    var s' := s.(lock := lock, tasks := s.tasks - {r});
    forall q | q in s'.tasks ensures Holds(s', q) {
      assert Holds(s, q) && (InTime(s, q) ==> BothInTime(s, r, q));
    }
    forall p, q | BothInTime(s', p, q) ensures p == q {
      assert BothInTime(s, p, q);
    }
  }

  lemma LockKeepsInv(s: System, r: nat, answered: bool)
    requires Inv(s)
    ensures Inv(Step(s, SetLock(r, answered)))
  {
    var s' := Step(s, SetLock(r, answered));
    if s' != s {
      forall q | q in s'.tasks ensures Holds(s', q) {
        assert q != r ==> Holds(s, q);
      }
      forall p, q | BothInTime(s', p, q) ensures p == q {
        assert p != r ==> Holds(s, p);
        assert q != r ==> Holds(s, q);
      }
    }
  }

  lemma NextPhaseOk(t: Phase, page: seq<string>)
    requires PhaseOk(t) && |page| <= PAGE_SIZE
    ensures t.Paging? ==> PhaseOk(AfterPage(t, page))
    ensures t.Pushing? ==> PhaseOk(AfterPush(t))
  {
  }

  lemma RebuildKeepsInv(s: System, e: Event)
    requires Inv(s) && ByRebuild(e) && Punctual(s, e)
    ensures Inv(Step(s, e))
  {
    if e.r in s.tasks {
      var r, t := e.r, s.tasks[e.r];
      assert Holds(s, r);
      assert s.(list := s.list) == s;
      match e
      case Length(_, answered) =>
        if t.Locked? {
          if answered {
            PhaseKeepsInv(s, r, LengthStep(s, r, true).tasks[r], s.list);
          } else {
            GoneKeepsInv(s, r, s.lock);
          }
        }
      case Query(_, answered) =>
        if t.Paging? {
          var page := if answered then Page(s.rows, PAGE_SIZE, t.offset) else [];
          NextPhaseOk(t, page);
          PhaseKeepsInv(s, r, AfterPage(t, page), s.list);
        }
      case PushNext(_) =>
        if t.Pushing? && t.rest != [] {
          NextPhaseOk(t, []);
          PhaseKeepsInv(s, r, AfterPush(t), s.list + [t.rest[0]]);
        }
      case PushFails(_) =>
        if t.Pushing? {
          PhaseKeepsInv(s, r, Leaving(t.until, t.done), s.list);
        }
      case Release(_, arrives) =>
        if t.Leaving? {
          GoneKeepsInv(s, r, if arrives then Never else s.lock);
        }
    }
  }

  lemma StepKeepsInv(s: System, e: Event)
    requires Inv(s) && Punctual(s, e)
    ensures Inv(Step(s, e))
  {
    if ByRebuild(e) {
      RebuildKeepsInv(s, e);
    } else if e.SetLock? {
      LockKeepsInv(s, e.r, e.answered);
    } else {
      if e.Leave? {
        WithoutLess(s.rows, e.gone);
      }
      LessKeepsInv(s, Step(s, e));
    }
  }

  lemma {:induction false} RunInv(rows: seq<string>, events: seq<Event>, i: nat)
    requires AllPunctual(rows, events) && i <= |events|
    ensures Inv(Run(rows, events[..i]))
  {
    if i > 0 {
      RunInv(rows, events, i - 1);
      assert events[..i] == events[..i - 1] + [events[i - 1]];
      StepAllSnoc(System([], Never, 0, rows, map[]), events[..i - 1], events[i - 1]);
      StepKeepsInv(Run(rows, events[..i - 1]), events[i - 1]);
    }
  }

  // ---------------------------------------------------------------- all steps of a run at once

  ghost predicate HoldsAt(rows: seq<string>, events: seq<Event>, i: nat, p: System -> bool)
    requires i <= |events|
  {
    p(Run(rows, events[..i]))
  }

  ghost predicate Throughout(rows: seq<string>, events: seq<Event>, p: System -> bool) {
    forall i: nat :: i <= |events| ==> HoldsAt(rows, events, i, p)
  }

  ghost predicate HappensAt(rows: seq<string>, events: seq<Event>, i: nat, bad: (System, Event) -> bool)
    requires i < |events|
  {
    bad(Run(rows, events[..i]), events[i])
  }

  ghost predicate Excluded(rows: seq<string>, events: seq<Event>, bad: (System, Event) -> bool) {
    forall i: nat :: i < |events| ==> !HappensAt(rows, events, i, bad)
  }

  /** Where `p` holds, the next event keeps it exactly when it is not `bad`. */
  ghost predicate DecidesAt(rows: seq<string>, events: seq<Event>, i: nat, p: System -> bool,
                            bad: (System, Event) -> bool)
    requires i < |events|
  {
    HoldsAt(rows, events, i, p) ==> (HoldsAt(rows, events, i + 1, p) <==> !HappensAt(rows, events, i, bad))
  }

  lemma ThroughoutIff(rows: seq<string>, events: seq<Event>, p: System -> bool, bad: (System, Event) -> bool)
    requires HoldsAt(rows, events, 0, p)
    requires forall i: nat :: i < |events| ==> DecidesAt(rows, events, i, p, bad)
    ensures Throughout(rows, events, p) <==> Excluded(rows, events, bad)
  {
    var n := |events|;
    var good, wrong := (i: nat) => i <= n && HoldsAt(rows, events, i, p),
                       (i: nat) => i < n && HappensAt(rows, events, i, bad);
    forall i: nat | i < n && good(i) ensures good(i + 1) <==> !wrong(i) {
      assert DecidesAt(rows, events, i, p, bad);
    }
    AlwaysIff(n, good, wrong);
    assert forall i: nat :: i <= n ==> (good(i) <==> HoldsAt(rows, events, i, p));
    assert forall i: nat :: i < n ==> (wrong(i) <==> HappensAt(rows, events, i, bad));
  }

  lemma RunNext(rows: seq<string>, events: seq<Event>, i: nat)
    requires i < |events|
    ensures Run(rows, events[..i + 1]) == Step(Run(rows, events[..i]), events[i])
  {
    assert events[..i + 1] == events[..i] + [events[i]];
    StepAllSnoc(System([], Never, 0, rows, map[]), events[..i], events[i]);
  }

  // ---------------------------------------------------------------- lists without repeats

  predicate Meets(a: seq<string>, b: seq<string>) {
    exists x :: x in a && x in b
  }

  lemma DistinctConcatIff(a: seq<string>, b: seq<string>)
    ensures IR.Distinct(a + b) <==> IR.Distinct(a) && IR.Distinct(b) && !Meets(a, b)
  {
    var c := a + b;
    if IR.Distinct(c) {
      forall i, j | 0 <= i < j < |a| ensures a[i] != a[j] {
        assert c[i] == a[i] && c[j] == a[j];
      }
      forall i, j | 0 <= i < j < |b| ensures b[i] != b[j] {
        assert c[|a| + i] == b[i] && c[|a| + j] == b[j];
      }
      forall i, j | 0 <= i < |a| && 0 <= j < |b| ensures a[i] != b[j] {
        assert c[i] == a[i] && c[|a| + j] == b[j];
      }
    } else {
      var i, j :| 0 <= i < j < |c| && c[i] == c[j];
      assert i < |a| && j >= |a| ==> a[i] in a && a[i] in b;
    }
  }

  lemma {:induction false} RemoveFirstLess(list: seq<string>, id: string)
    requires IR.Distinct(list)
    ensures IR.Distinct(IR.RemoveFirst(list, id))
    ensures forall x :: x in IR.RemoveFirst(list, id) ==> x in list
  {
    if list != [] && list[0] != id {
      RemoveFirstLess(list[1..], id);
      assert forall x :: x in list[1..] ==> x in list;
      assert list[0] !in list[1..];
    }
  }

  lemma {:induction false} WithoutLess(list: seq<string>, gone: set<string>)
    requires IR.Distinct(list)
    ensures IR.Distinct(Without(list, gone))
    ensures forall x :: x in Without(list, gone) ==> x in list
  {
    if list != [] {
      var n := |list| - 1;
      WithoutLess(list[..n], gone);
      assert list[n] !in list[..n];
    }
  }

  /** Trims, flushes, the cap and the expiry. */
  predicate ListShrinks(e: Event) {
    e.Cut? || e.Trim? || e.RemoveOne? || e.Vanish?
  }

  lemma ShrinkLess(s: System, e: Event)
    requires IR.Distinct(s.list) && ListShrinks(e)
    ensures var list := Step(s, e).list;
      IR.Distinct(list) && (forall x :: x in list ==> x in s.list) && Step(s, e) == s.(list := list)
  {
    match e
    case Cut =>
    case Trim(gone) => WithoutLess(s.list, gone);
    case RemoveOne(id) => RemoveFirstLess(s.list, id);
    case Vanish =>
  }

  // ---------------------------------------------------------------- what a rebuild has still to append

  /** Rows from `offset` to the limit. */
  function RowsFrom(rows: seq<string>, offset: nat): seq<string> {
    if offset >= MAX_QUEUE_LEN then [] else rows[Min(offset, |rows|)..Min(MAX_QUEUE_LEN, |rows|)]
  }

  /** The ids of a page read and not yet pushed. */
  function Rest(t: Phase): seq<string> {
    if t.Pushing? then t.rest else []
  }

  /** The offset of the next query; the limit when there is none. */
  function NextOffset(t: Phase): nat {
    match t
    case Paging(_, offset, _) => offset
    case Pushing(_, offset, size, _, _) => if size < PAGE_SIZE then MAX_QUEUE_LEN else offset + PAGE_SIZE
    case _ => MAX_QUEUE_LEN
  }

  function Unread(t: Phase, rows: seq<string>): seq<string> {
    RowsFrom(rows, NextOffset(t))
  }

  function PhaseDue(t: Phase, rows: seq<string>): seq<string> {
    Rest(t) + Unread(t, rows)
  }

  /** What a rebuild would append if nothing else happened. */
  function Due(s: System, r: nat): seq<string> {
    if r !in s.tasks then []
    else if s.tasks[r].Locked? then if s.list == [] then RowsFrom(s.rows, 0) else []
    else PhaseDue(s.tasks[r], s.rows)
  }

  lemma PageSplits(rows: seq<string>, offset: nat)
    requires offset + PAGE_SIZE <= MAX_QUEUE_LEN
    ensures var page := Page(rows, PAGE_SIZE, offset);
      && |page| <= PAGE_SIZE
      && RowsFrom(rows, offset) == page + if |page| < PAGE_SIZE then [] else RowsFrom(rows, offset + PAGE_SIZE)
  {
  }

  /** Commands of rebuild `r` that are answered. */
  predicate OwnEvent(e: Event, r: nat) {
    ByRebuild(e) && e.r == r && !e.PushFails? && (e.Length? || e.Query? ==> e.answered)
  }

  ghost predicate LeftAlone(more: seq<Event>, r: nat) {
    forall i :: 0 <= i < |more| ==> OwnEvent(more[i], r)
  }

  lemma PushDue(t: Phase, rows: seq<string>)
    requires PhaseOk(t) && t.Pushing?
    ensures PhaseDue(t, rows) == [t.rest[0]] + PhaseDue(AfterPush(t), rows)
  {
    assert t.rest == [t.rest[0]] + t.rest[1..];
  }

  lemma PageDue(t: Phase, rows: seq<string>)
    requires PhaseOk(t) && t.Paging?
    ensures PhaseDue(AfterPage(t, Page(rows, PAGE_SIZE, t.offset)), rows) == PhaseDue(t, rows)
  {
    PageSplits(rows, t.offset);
  }

  lemma OwnPush(s: System, r: nat)
    requires r in s.tasks && s.tasks[r].Pushing? && PhaseOk(s.tasks[r])
    ensures var s' := Step(s, PushNext(r)); s'.list + Due(s', r) == s.list + Due(s, r)
  {
    var t := s.tasks[r];
    PushDue(t, s.rows);
    assert !AfterPush(t).Locked?;
    assert s.list + ([t.rest[0]] + PhaseDue(AfterPush(t), s.rows)) ==
           (s.list + [t.rest[0]]) + PhaseDue(AfterPush(t), s.rows);
  }

  /** Left alone, a rebuild appends what is due and nothing else. */
  lemma OwnKeepsDue(s: System, e: Event, r: nat)
    requires OwnEvent(e, r) && (r in s.tasks ==> PhaseOk(s.tasks[r]))
    ensures var s' := Step(s, e);
      && s'.list + Due(s', r) == s.list + Due(s, r) && s.list <= s'.list
      && s'.rows == s.rows && (r in s'.tasks ==> PhaseOk(s'.tasks[r]))
  {
    if r in s.tasks {
      var t := s.tasks[r];
      match e
      case Length(_, _) =>
      case Query(_, _) =>
        if t.Paging? {
          PageDue(t, s.rows);
          NextPhaseOk(t, Page(s.rows, PAGE_SIZE, t.offset));
        }
      case PushNext(_) =>
        if t.Pushing? {
          OwnPush(s, r);
          NextPhaseOk(t, []);
        }
      case Release(_, _) =>
    }
  }

  lemma {:induction false} AloneKeepsDue(s: System, more: seq<Event>, r: nat)
    requires LeftAlone(more, r) && (r in s.tasks ==> PhaseOk(s.tasks[r]))
    ensures var s' := StepAll(s, more);
      && s'.list + Due(s', r) == s.list + Due(s, r) && s.list <= s'.list
      && s'.rows == s.rows && (r in s'.tasks ==> PhaseOk(s'.tasks[r]))
  {
    if more != [] {
      var n := |more| - 1;
      AloneKeepsDue(s, more[..n], r);
      OwnKeepsDue(StepAll(s, more[..n]), more[n], r);
    }
  }

  function NextCommand(t: Phase, r: nat): Event {
    match t
    case Locked(_) => Length(r, true)
    case Paging(_, _, _) => Query(r, true)
    case Pushing(_, _, _, _, _) => PushNext(r)
    case Leaving(_, _) => Release(r, true)
  }

  function Rank(t: Phase): nat {
    match t
    case Locked(_) => 3
    case Paging(_, _, _) => 2
    case Pushing(_, _, _, _, _) => 1
    case Leaving(_, _) => 0
  }

  lemma NextIsSmaller(s: System, r: nat)
    requires r in s.tasks && PhaseOk(s.tasks[r]) && !s.tasks[r].Leaving?
    ensures var s' := Step(s, NextCommand(s.tasks[r], r));
      r in s'.tasks && 2 * |Due(s', r)| + Rank(s'.tasks[r]) < 2 * |Due(s, r)| + Rank(s.tasks[r])
  {
    OwnKeepsDue(s, NextCommand(s.tasks[r], r), r);
  }

  /** Left alone for long enough, a rebuild comes to its end. */
  lemma {:induction false} Finishes(s: System, r: nat) returns (more: seq<Event>)
    requires r in s.tasks && PhaseOk(s.tasks[r])
    ensures LeftAlone(more, r) && StepAll(s, more).list == s.list + Due(s, r)
    ensures r in StepAll(s, more).tasks && StepAll(s, more).tasks[r].Leaving?
    decreases 2 * |Due(s, r)| + Rank(s.tasks[r])
  {
    if s.tasks[r].Leaving? {
      more := [];
    } else {
      var e := NextCommand(s.tasks[r], r);
      OwnKeepsDue(s, e, r);
      NextIsSmaller(s, r);
      var rest := Finishes(Step(s, e), r);
      more := [e] + rest;
      StepAllCons(s, e, rest);
    }
  }

  /**
   What becomes of the lock and the rebuild when it does not come to its pages: a lost answer to the SET leaves the
   lock and no rebuild, a failing LLEN ends the rebuild with the lock held, and a list that is not empty ends it with
   the lock given back if the DEL arrives. The list is left as it was.
   */
  lemma ShortRebuilds(s: System, r: nat, arrives: bool)
    requires r !in s.tasks && Free(s.lock, s.now)
    ensures var s' := Step(s, SetLock(r, false));
      s'.lock == At(s.now + 5) && s'.tasks == s.tasks && s'.list == s.list
    ensures var s' := Step(Step(s, SetLock(r, true)), Length(r, false));
      s'.lock == At(s.now + 5) && s'.tasks == s.tasks && s'.list == s.list
    ensures s.list != [] ==>
      var s' := Step(Step(Step(s, SetLock(r, true)), Length(r, true)), Release(r, arrives));
      s'.lock == (if arrives then Never else At(s.now + 5)) && s'.tasks == s.tasks && s'.list == s.list
  {
    var locked := Step(s, SetLock(r, true));
    assert locked.tasks - {r} == s.tasks;
    if s.list != [] {
      var found := Step(locked, Length(r, true));
      assert found.tasks[r].Leaving? && found.tasks - {r} == s.tasks;
    }
  }

  /**
   A push that fails ends the rebuild, which then gives its lock back like any other; a rebuild that dies leaves the
   lock to run out. Neither takes back what has been pushed.
   */
  lemma BrokenRebuilds(s: System, r: nat)
    requires r in s.tasks && s.tasks[r].Pushing?
    ensures var s' := Step(Step(s, PushFails(r)), Release(r, true));
      s'.lock == Never && s'.tasks == s.tasks - {r} && s'.list == s.list
    ensures var s' := Step(s, Die(r)); s'.lock == s.lock && s'.tasks == s.tasks - {r} && s'.list == s.list
    ensures Step(s, Vanish).list == [] && Step(s, Vanish).tasks == s.tasks
  {
    var failed := Step(s, PushFails(r));
    assert failed.tasks[r].Leaving? && failed.tasks - {r} == s.tasks - {r};
  }
}
