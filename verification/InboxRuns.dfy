/**
 One inbox over time: sends, trims by fetches, removals by the flusher, rebuilds of the empty list, and
 the expiry that every trim renews and no send does. What the list holds after any such run, and when
 that is all that was sent and not fetched. A rebuild is one step here; module InboxRebuild takes it apart.
 */
module InboxRuns {
  import opened Wrappers
  import opened Inbox
  import UuidText

  /** A send is a Push and a Cut, and anything may come between the two. */
  datatype Event = Tick(d: nat) | Push(id: string) | Cut | Trim(ids: seq<string>) | Flush(ids: seq<string>)
                 | Rebuild(ids: seq<string>)

  datatype State = State(box: Box, now: nat)

  /** LREM key 1 id. */
  function RemoveFirst(list: seq<string>, id: string): seq<string> {
    if list == [] then []
    else if list[0] == id then list[1..]
    else [list[0]] + RemoveFirst(list[1..], id)
  }

  function RemoveEach(list: seq<string>, ids: seq<string>): seq<string> {
    if ids == [] then list else RemoveFirst(RemoveEach(list, ids[..|ids| - 1]), ids[|ids| - 1])
  }

  function Relisted(b: Box, list: seq<string>): Box {
    Box(list, if list == [] then Never else b.expiry)
  }

  predicate Expires(s: State, d: nat) {
    s.box.expiry.At? && s.box.expiry.second <= s.now + d
  }

  predicate Rebuilds(s: State, e: Event) {
    e.Rebuild? && s.box.list == [] && e.ids != []
  }

  function Step(s: State, e: Event): State {
    match e
    case Tick(d) => State(if Expires(s, d) then Box([], Never) else s.box, s.now + d)
    case Push(id) => s.(box := s.box.(list := s.box.list + [id]))
    case Cut => s.(box := s.box.(list := s.box.list[..Min(|s.box.list|, MAX_QUEUE_LEN + 1)]))
    case Trim(ids) => if ids == [] then s else s.(box := TrimBox(s.box, Removed(ids), s.now))
    case Flush(ids) => s.(box := Relisted(s.box, RemoveEach(s.box.list, ids)))
    case Rebuild(ids) => if Rebuilds(s, e) then s.(box := Box(ids, At(s.now + CACHE_TTL_SECS))) else s
  }

  function Run(events: seq<Event>): State {
    if events == [] then State(Box([], Never), 0)
    else Step(Run(events[..|events| - 1]), events[|events| - 1])
  }

  function List(events: seq<Event>): seq<string> {
    Run(events).box.list
  }

  /** A push and the cut that follows it are one send of module Inbox. */
  lemma PushThenCut(s: State, id: string)
    ensures Step(Step(s, Push(id)), Cut) == s.(box := s.box.(list := Appended(s.box.list, id)))
  {
  }

  // ---------------------------------------------------------------- how long it is kept

  /** The second of the last trim or rebuild since the list was last empty. */
  function RenewedAt(events: seq<Event>): Option<nat> {
    if events == [] then None
    else
      var before, e := events[..|events| - 1], events[|events| - 1];
      if Run(events).box.list == [] then None
      else if (e.Trim? && e.ids != []) || (e.Rebuild? && Rebuilds(Run(before), e)) then Some(Run(before).now)
      else RenewedAt(before)
  }

  /** In every run the list goes ten minutes after its last trim or rebuild, whatever is sent; without one it stays. */
  lemma {:induction false} KeptTenMinutes(events: seq<Event>)
    ensures var b := Run(events).box;
      match RenewedAt(events)
      case None => b.expiry.Never?
      case Some(t) => b.list != [] && b.expiry == At(t + 600) && Run(events).now < t + 600
  {
    if events != [] {
      var before, e := events[..|events| - 1], events[|events| - 1];
      KeptTenMinutes(before);
      if e.Trim? {
        TrimKeepsIff(Run(before).box, Removed(e.ids), Run(before).now);
      }
    }
  }

  // ---------------------------------------------------------------- ids are fresh

  function NamedBy(e: Event): set<string> {
    match e
    case Tick(_) => {}
    case Push(id) => {id}
    case Cut => {}
    case Trim(ids) => Texts(ids)
    case Flush(ids) => Texts(ids)
    case Rebuild(ids) => Texts(ids)
  }

  function Named(events: seq<Event>): set<string> {
    if events == [] then {} else Named(events[..|events| - 1]) + NamedBy(events[|events| - 1])
  }

  predicate Distinct(list: seq<string>) {
    forall i, j :: 0 <= i < j < |list| ==> list[i] != list[j]
  }

  predicate Ids(list: seq<string>) {
    forall i :: 0 <= i < |list| ==> |list[i]| == 36
  }

  /** An id is printed, and new when it is pushed; a rebuild appends different ids. */
  predicate FreshEvent(e: Event, named: set<string>) {
    && (e.Push? ==> |e.id| == 36 && e.id !in named)
    && (e.Rebuild? ==> Distinct(e.ids) && Ids(e.ids))
  }

  ghost predicate Fresh(events: seq<Event>) {
    forall i :: 0 <= i < |events| ==> FreshEvent(events[i], Named(events[..i]))
  }

  lemma FreshBefore(events: seq<Event>)
    requires events != [] && Fresh(events)
    ensures Fresh(events[..|events| - 1]) && FreshEvent(events[|events| - 1], Named(events[..|events| - 1]))
  {
    var before := events[..|events| - 1];
    forall i | 0 <= i < |before| ensures FreshEvent(before[i], Named(before[..i])) {
      assert before[..i] == events[..i];
    }
  }

  // ---------------------------------------------------------------- filters of distinct ids

  lemma {:induction false} WithoutConcat(a: seq<string>, b: seq<string>, gone: set<string>)
    ensures Without(a + b, gone) == Without(a, gone) + Without(b, gone)
  {
    if b == [] {
      assert a + b == a;
    } else {
      var n := |b| - 1;
      assert (a + b)[..|a| + n] == a + b[..n];
      WithoutConcat(a, b[..n], gone);
    }
  }

  lemma {:induction false} WithoutDistinct(list: seq<string>, gone: set<string>)
    requires Distinct(list) && Ids(list)
    ensures Distinct(Without(list, gone)) && Ids(Without(list, gone))
  {
    if list != [] {
      var n := |list| - 1;
      WithoutDistinct(list[..n], gone);
      WithoutHas(list[..n], gone, list[n]);
    }
  }

  lemma WithoutNone(list: seq<string>, gone: set<string>)
    requires forall i :: 0 <= i < |list| ==> list[i] !in gone
    ensures Without(list, gone) == list
  {
    WithoutSame(list, gone, {});
    WithoutNothing(list);
  }

  lemma {:induction false} WithoutNothing(list: seq<string>)
    ensures Without(list, {}) == list
  {
    if list != [] {
      WithoutNothing(list[..|list| - 1]);
    }
  }

  lemma {:induction false} WithoutAll(list: seq<string>, gone: set<string>)
    requires forall i :: 0 <= i < |list| ==> list[i] in gone
    ensures Without(list, gone) == []
  {
    if list != [] {
      WithoutAll(list[..|list| - 1], gone);
    }
  }

  lemma WithoutOne(list: seq<string>, id: string, gone: set<string>)
    ensures Without(list + [id], gone) == Without(list, gone) + if id in gone then [] else [id]
  {
    assert (list + [id])[..|list|] == list;
  }

  /** In a list without repeats, removing the first occurrence is filtering. */
  lemma {:induction false} RemoveFirstFilters(list: seq<string>, id: string)
    requires Distinct(list)
    ensures RemoveFirst(list, id) == Without(list, {id})
  {
    if list != [] {
      WithoutConcat([list[0]], list[1..], {id});
      assert [list[0]] + list[1..] == list;
      WithoutOne([], list[0], {id});
      assert [] + [list[0]] == [list[0]];
      if list[0] == id {
        WithoutNone(list[1..], {id});
      } else {
        RemoveFirstFilters(list[1..], id);
      }
    }
  }

  lemma {:induction false} RemoveEachFilters(list: seq<string>, ids: seq<string>)
    requires Distinct(list) && Ids(list)
    ensures RemoveEach(list, ids) == Without(list, Texts(ids))
  {
    if ids == [] {
      assert Texts(ids) == {};
      WithoutNothing(list);
    } else {
      var n := |ids| - 1;
      RemoveEachFilters(list, ids[..n]);
      WithoutDistinct(list, Texts(ids[..n]));
      RemoveFirstFilters(Without(list, Texts(ids[..n])), ids[n]);
      WithoutTwice(list, Texts(ids[..n]), {ids[n]});
      assert ids == ids[..n] + [ids[n]];
      assert Texts(ids) == Texts(ids[..n]) + {ids[n]};
    }
  }

  function Items(list: seq<string>): set<string> {
    set id | id in list
  }

  /** What LTRIM drops: the newest. */
  function CutOff(list: seq<string>): seq<string> {
    list[Min(|list|, MAX_QUEUE_LEN + 1)..]
  }

  lemma PrefixApart(list: seq<string>, k: nat)
    requires Distinct(list) && k <= |list|
    ensures forall i :: 0 <= i < k ==> list[..k][i] !in Items(list[k..])
  {
    forall i | 0 <= i < k ensures list[..k][i] !in Items(list[k..]) {
      assert forall j :: k <= j < |list| ==> list[i] != list[j];
    }
  }

  lemma CutIsItems(list: seq<string>)
    ensures forall i :: 0 <= i < |list| ==> list[i] in Items(list)
  {
  }

  lemma Parted(list: seq<string>, kept: seq<string>, cut: seq<string>, gone: set<string>)
    requires list == kept + cut
    requires forall i :: 0 <= i < |kept| ==> kept[i] !in gone
    requires forall i :: 0 <= i < |cut| ==> cut[i] in gone
    ensures Without(list, gone) == kept
  {
    WithoutConcat(kept, cut, gone);
    WithoutNone(kept, gone);
    WithoutAll(cut, gone);
  }

  lemma PrefixFilters(list: seq<string>, k: nat)
    requires Distinct(list) && k <= |list|
    ensures list[..k] == Without(list, Items(list[k..]))
  {
    PrefixApart(list, k);
    CutIsItems(list[k..]);
    assert list == list[..k] + list[k..];
    Parted(list, list[..k], list[k..], Items(list[k..]));
  }

  lemma CutFilters(list: seq<string>)
    requires Distinct(list)
    ensures list[..Min(|list|, MAX_QUEUE_LEN + 1)] == Without(list, Items(CutOff(list)))
  {
    PrefixFilters(list, Min(|list|, MAX_QUEUE_LEN + 1));
  }

  /** Steps that leave nothing of the list: its expiry, and a trim that would keep too much. */
  predicate Wipes(s: State, e: Event) {
    match e
    case Tick(d) => Expires(s, d)
    case Trim(ids) => ids != [] && Inbox.Trim(s.box.list, Removed(ids)).Err?
    case _ => false
  }

  /** What a step makes of a list of distinct ids. */
  lemma StepList(s: State, e: Event)
    requires Distinct(s.box.list) && Ids(s.box.list)
    ensures var list, list' := s.box.list, Step(s, e).box.list;
      if Wipes(s, e) then list' == []
      else
        match e
        case Tick(_) => list' == list
        case Push(id) => list' == list + [id]
        case Cut => list' == Without(list, Items(CutOff(list)))
        case Trim(ids) => list' == Without(list, Texts(ids))
        case Flush(ids) => list' == Without(list, Texts(ids))
        case Rebuild(ids) => list' == if Rebuilds(s, e) then ids else list
  {
    match e
    case Trim(ids) =>
      TrimsAgreeOnIds(s.box.list, ids);
      WithoutNothing(s.box.list);
      assert ids == [] ==> Texts(ids) == {};
    case Flush(ids) => RemoveEachFilters(s.box.list, ids);
    case Cut => CutFilters(s.box.list);
    case _ =>
  }

  // ---------------------------------------------------------------- first in, first out

  /**
   What was pushed, and what was fetched, flushed or cut off, since the list last vanished or was rebuilt.
   */
  datatype Log = Log(pushed: seq<string>, gone: set<string>)

  function Since(events: seq<Event>): Log {
    if events == [] then Log([], {})
    else
      var before, e := events[..|events| - 1], events[|events| - 1];
      var log := Since(before);
      if Wipes(Run(before), e) then Log([], {})
      else
        match e
        case Tick(_) => log
        case Push(id) => log.(pushed := log.pushed + [id])
        case Cut => log.(gone := log.gone + Items(CutOff(List(before))))
        case Trim(ids) => log.(gone := log.gone + Texts(ids))
        case Flush(ids) => log.(gone := log.gone + Texts(ids))
        case Rebuild(ids) => if Rebuilds(Run(before), e) then Log(ids, {}) else log
  }

  ghost predicate LogOk(log: Log, named: set<string>) {
    && Distinct(log.pushed) && Ids(log.pushed) && log.gone <= named
    && forall i :: 0 <= i < |log.pushed| ==> log.pushed[i] in named
  }

  lemma LogKeeps(events: seq<Event>)
    requires events != [] && Fresh(events)
    requires LogOk(Since(events[..|events| - 1]), Named(events[..|events| - 1]))
    requires Items(List(events[..|events| - 1])) <= Named(events[..|events| - 1])
    ensures LogOk(Since(events), Named(events))
  {
    var before, e := events[..|events| - 1], events[|events| - 1];
    FreshBefore(events);
    if Since(events) == Since(before) {
    } else if e.Push? && !Wipes(Run(before), e) {
      LogKeepsPush(Since(before), Named(before), e.id);
    }
  }

  lemma LogKeepsPush(log: Log, named: set<string>, id: string)
    requires LogOk(log, named) && id !in named && |id| == 36
    ensures LogOk(log.(pushed := log.pushed + [id]), named + {id})
  {
  }

  lemma ListStep(s: State, e: Event, log: Log, log': Log)
    requires Distinct(log.pushed) && Ids(log.pushed) && s.box.list == Without(log.pushed, log.gone)
    requires e.Push? ==> e.id !in log.gone
    requires log' ==
      if Wipes(s, e) then Log([], {})
      else match e
        case Tick(_) => log
        case Push(id) => log.(pushed := log.pushed + [id])
        case Cut => log.(gone := log.gone + Items(CutOff(s.box.list)))
        case Trim(ids) => log.(gone := log.gone + Texts(ids))
        case Flush(ids) => log.(gone := log.gone + Texts(ids))
        case Rebuild(ids) => if Rebuilds(s, e) then Log(ids, {}) else log
    ensures Step(s, e).box.list == Without(log'.pushed, log'.gone)
  {
    WithoutDistinct(log.pushed, log.gone);
    StepList(s, e);
    match e
    case Tick(_) =>
    case Push(id) => WithoutOne(log.pushed, id, log.gone);
    case Cut => WithoutTwice(log.pushed, log.gone, Items(CutOff(s.box.list)));
    case Trim(ids) => WithoutTwice(log.pushed, log.gone, Texts(ids));
    case Flush(ids) => WithoutTwice(log.pushed, log.gone, Texts(ids));
    case Rebuild(ids) => WithoutNothing(ids);
  }

  /**
   In every run the inbox is first in, first out: what was pushed, in order, less what was fetched, flushed or
   cut off, counting from the last time the list expired, was lost to a trim, or was rebuilt.
   */
  lemma {:induction false} InboxIsFifo(events: seq<Event>)
    requires Fresh(events)
    ensures List(events) == Without(Since(events).pushed, Since(events).gone)
    ensures LogOk(Since(events), Named(events))
  {
    if events != [] {
      var before := events[..|events| - 1];
      FreshBefore(events);
      InboxIsFifo(before);
      forall id | id in List(before) ensures id in Named(before) {
        WithoutHas(Since(before).pushed, Since(before).gone, id);
      }
      LogKeeps(events);
      ListStep(Run(before), events[|events| - 1], Since(before), Since(events));
    }
  }

  // ---------------------------------------------------------------- all that was offered and not fetched

  /** Ids a step takes from the inbox without their being fetched. */
  function LostBy(s: State, e: Event): set<string> {
    match e
    case Tick(d) => if Expires(s, d) then Items(s.box.list) else {}
    case Push(_) => {}
    case Cut => Items(CutOff(s.box.list))
    case Trim(ids) => if Wipes(s, e) then Items(s.box.list) - Texts(ids) else {}
    case Flush(ids) => Items(s.box.list) * Texts(ids)
    case Rebuild(_) => {}
  }

  /** Since the last rebuild of the empty list: what it and the sends offered, what was fetched, what was lost. */
  datatype Account = Account(offered: seq<string>, fetched: set<string>, lost: set<string>)

  function Book(a: Account, s: State, e: Event): Account {
    if Rebuilds(s, e) then Account(e.ids, {}, {})
    else Account(if e.Push? then a.offered + [e.id] else a.offered,
                 if e.Trim? then a.fetched + Texts(e.ids) else a.fetched,
                 a.lost + LostBy(s, e))
  }

  function Offers(events: seq<Event>): Account {
    if events == [] then Account([], {}, {})
    else Book(Offers(events[..|events| - 1]), Run(events[..|events| - 1]), events[|events| - 1])
  }

  ghost predicate Booked(a: Account, list: seq<string>) {
    list == Without(a.offered, a.fetched + a.lost) && forall id :: id in a.lost ==> id in a.offered
  }

  lemma TakeMore(offered: seq<string>, out: set<string>, more: set<string>, list: seq<string>, left: seq<string>)
    requires list == Without(offered, out) && left == Without(list, more)
    ensures left == Without(offered, out + more)
  {
    WithoutTwice(offered, out, more);
  }

  /** Steps other than sends and rebuilds leave the list without what they fetch and lose. */
  lemma TakenByStep(s: State, e: Event)
    requires Distinct(s.box.list) && Ids(s.box.list) && !e.Push? && !e.Rebuild?
    ensures Step(s, e).box.list == Without(s.box.list, (if e.Trim? then Texts(e.ids) else {}) + LostBy(s, e))
  {
    var list := s.box.list;
    var more := (if e.Trim? then Texts(e.ids) else {}) + LostBy(s, e);
    StepList(s, e);
    if Wipes(s, e) {
      WithoutAll(list, more);
    } else {
      match e
      case Tick(_) =>
        assert more == {};
        WithoutNothing(list);
      case Cut => assert more == Items(CutOff(list));
      case Trim(ids) => assert more == Texts(ids);
      case Flush(ids) => WithoutSame(list, Texts(ids), more);
    }
  }

  lemma BookKeeps(s: State, e: Event, a: Account)
    requires Booked(a, s.box.list) && Distinct(s.box.list) && Ids(s.box.list)
    requires e.Push? ==> e.id !in a.offered && e.id !in a.fetched
    ensures Booked(Book(a, s, e), Step(s, e).box.list)
  {
    var list, out := s.box.list, a.fetched + a.lost;
    if e.Rebuild? {
      var a' := Book(a, s, e);
      WithoutNothing(e.ids);
      assert e.ids != [] && list == [] ==> a'.fetched + a'.lost == {};
      assert a.lost + {} == a.lost;
    } else if e.Push? {
      WithoutOne(a.offered, e.id, out);
      assert a.lost + {} == a.lost;
    } else {
      var more := (if e.Trim? then Texts(e.ids) else {}) + LostBy(s, e);
      TakenByStep(s, e);
      TakeMore(a.offered, out, more, list, Step(s, e).box.list);
      assert Book(a, s, e).fetched + Book(a, s, e).lost == out + more;
      forall id | id in LostBy(s, e) ensures id in a.offered {
        WithoutHas(a.offered, out, id);
      }
    }
  }

  lemma {:induction false} OffersAreNamed(events: seq<Event>)
    ensures forall id :: id in Offers(events).offered ==> id in Named(events)
    ensures Offers(events).fetched <= Named(events)
  {
    if events != [] {
      OffersAreNamed(events[..|events| - 1]);
    }
  }

  /** Only what was offered is lost, and the inbox is what was offered less what was fetched or lost. */
  lemma {:induction false} RunsAreBooked(events: seq<Event>)
    requires Fresh(events)
    ensures Booked(Offers(events), List(events))
  {
    if events == [] {
      assert Offers(events).fetched + Offers(events).lost == {};
    } else {
      var before := events[..|events| - 1];
      FreshBefore(events);
      RunsAreBooked(before);
      InboxIsFifo(before);
      WithoutDistinct(Since(before).pushed, Since(before).gone);
      OffersAreNamed(before);
      BookKeeps(Run(before), events[|events| - 1], Offers(before));
    }
  }

  /**
   In every run the inbox holds all that was sent or rebuilt since the last rebuild and not fetched, in order, if
   and only if every id taken by an expiry, the flusher, a trim that failed or the cap has been fetched as well.
   */
  lemma HoldsAllUnfetchedIff(events: seq<Event>)
    requires Fresh(events)
    ensures var a := Offers(events);
      List(events) == Without(a.offered, a.fetched) <==> a.lost <= a.fetched
  {
    var a := Offers(events);
    RunsAreBooked(events);
    if a.lost <= a.fetched {
      assert a.fetched + a.lost == a.fetched;
    } else {
      var id :| id in a.lost && id !in a.fetched;
      WithoutHas(a.offered, a.fetched, id);
      WithoutHas(a.offered, a.fetched + a.lost, id);
    }
  }

  // ---------------------------------------------------------------- runs

  lemma RunSnoc(events: seq<Event>, e: Event)
    ensures Run(events + [e]) == Step(Run(events), e)
  {
    assert (events + [e])[..|events|] == events;
  }

  function SendAll(ids: seq<string>): seq<Event> {
    if ids == [] then [] else SendAll(ids[..|ids| - 1]) + [Push(ids[|ids| - 1])] + [Cut]
  }

  lemma SendKeeps(list: seq<string>, id: string)
    requires |list| <= MAX_QUEUE_LEN
    ensures Step(Step(State(Box(list, Never), 0), Push(id)), Cut) == State(Box(list + [id], Never), 0)
  {
    assert (list + [id])[..|list| + 1] == list + [id];
  }

  lemma {:induction false} SendAllKeeps(ids: seq<string>)
    requires |ids| <= MAX_QUEUE_LEN + 1
    ensures Run(SendAll(ids)) == State(Box(ids, Never), 0)
  {
    if ids != [] {
      var before, id := ids[..|ids| - 1], ids[|ids| - 1];
      SendAllKeeps(before);
      RunSnoc(SendAll(before), Push(id));
      RunSnoc(SendAll(before) + [Push(id)], Cut);
      SendKeeps(before, id);
      assert before + [id] == ids;
    }
  }

  /** A trim starts the list's lifetime and a send does not renew it: the second id is gone unfetched. */
  lemma ExpiryTakesUnfetched(a: string, b: string, c: string)
    requires |a| == |b| == |c| == 36 && a != b
    ensures List(SendAll([a, b]) + [Trim([a])] + [Tick(600)] + [Push(c)]) == [c]
  {
    var e2 := SendAll([a, b]);
    SendAllKeeps([a, b]);
    RunSnoc(e2, Trim([a]));
    TrimOfTwo(a, b);
    var e3 := e2 + [Trim([a])];
    RunSnoc(e3, Tick(CACHE_TTL_SECS));
    assert Run(e3 + [Tick(CACHE_TTL_SECS)]) == State(Box([], Never), CACHE_TTL_SECS);
    RunSnoc(e3 + [Tick(CACHE_TTL_SECS)], Push(c));
    assert [] + [c] == [c];
  }

  lemma TrimOfTwo(a: string, b: string)
    requires |a| == |b| == 36 && a != b
    ensures Step(State(Box([a, b], Never), 0), Trim([a])) == State(Box([b], At(CACHE_TTL_SECS)), 0)
  {
    WithoutShort(a, b);
  }

  lemma WithoutShort(a: string, b: string)
    requires |a| == |b| == 36 && a != b
    ensures Without([a, b], Texts([a])) == [b]
    ensures Without([a, b], Removed([a])) == [b]
  {
    WithoutOne([a], b, Texts([a]));
    WithoutOne([], a, Texts([a]));
    assert [] + [a] == [a] && [a] + [b] == [a, b];
    TrimsAgreeOnIds([a, b], [a]);
  }

  /** Of 8001 ids or more, a fetch of the first loses them all. */
  lemma BigTrimLosesAll(ids: seq<string>)
    requires 8000 < |ids| <= 10_001 && Distinct(ids) && Ids(ids)
    ensures List(SendAll(ids)) == ids
    ensures Run(SendAll(ids) + [Trim([ids[0]])]).box == Box([], Never)
  {
    SendAllKeeps(ids);
    RunSnoc(SendAll(ids), Trim([ids[0]]));
    TrimsAgreeOnIds(ids, [ids[0]]);
    assert Texts([ids[0]]) == {ids[0]};
    RemoveFirstFilters(ids, ids[0]);
  }

  function HexDigit(n: nat, place: nat): UuidText.Nibble {
    if place == 0 then n % 16 else HexDigit(n / 16, place - 1)
  }

  /** The printed UUID that ends in the four hexadecimal digits of `n`. */
  function IdText(n: nat): string {
    UuidText.Print(seq(28, _ => 0) + [HexDigit(n, 3), HexDigit(n, 2), HexDigit(n, 1), HexDigit(n, 0)])
  }

  lemma FourDigits(n: nat)
    requires n < 65_536
    ensures n == HexDigit(n, 3) * 4096 + HexDigit(n, 2) * 256 + HexDigit(n, 1) * 16 + HexDigit(n, 0)
  {
    assert HexDigit(n, 1) == n / 16 % 16;
    assert HexDigit(n, 2) == n / 16 / 16 % 16;
    assert HexDigit(n, 3) == n / 16 / 16 / 16 % 16;
  }

  lemma IdTextInjective(m: nat, n: nat)
    requires m < 65_536 && n < 65_536 && IdText(m) == IdText(n)
    ensures m == n
  {
    var u: UuidText.Uuid := seq(28, _ => 0) + [HexDigit(m, 3), HexDigit(m, 2), HexDigit(m, 1), HexDigit(m, 0)];
    var v: UuidText.Uuid := seq(28, _ => 0) + [HexDigit(n, 3), HexDigit(n, 2), HexDigit(n, 1), HexDigit(n, 0)];
    UuidText.PrintInjective(u, v);
    assert u[28] == v[28] && u[29] == v[29] && u[30] == v[30] && u[31] == v[31];
    FourDigits(m);
    FourDigits(n);
  }

  /** There are inboxes of that many ids, so a reachable one is lost by fetching a single message. */
  lemma BigTrimIsReachable()
    ensures exists ids ::
              8000 < |List(SendAll(ids))| && Run(SendAll(ids) + [Trim([ids[0]])]).box == Box([], Never)
  {
    var ids := seq(UNPACK_LIMIT + 1, n requires 0 <= n => IdText(n));
    forall i, j | 0 <= i < j < |ids| ensures ids[i] != ids[j] {
      if ids[i] == ids[j] {
        IdTextInjective(i, j);
      }
    }
    BigTrimLosesAll(ids);
  }
}
