/**
 What becomes of a message over whole runs of the pipeline: every message sent is in exactly one
 place, failed batches included, and what that means for deletes, purges and late flushes.
 */
module MessageConservation {
  import opened MessageFlusher

  // ---------------------------------------------------------------- where a message is

  function Occurrences(ms: seq<Message>, id: MsgId): nat {
    if ms == [] then 0
    else Occurrences(ms[..|ms| - 1], id) + if ms[|ms| - 1].id == id then 1 else 0
  }

  /** Occurrences in batches that were never committed. */
  function FailedOccurrences(batches: seq<Batch>, id: MsgId): nat {
    if batches == [] then 0
    else
      var last := batches[|batches| - 1];
      FailedOccurrences(batches[..|batches| - 1], id) + if last.stored then 0 else Occurrences(last.messages, id)
  }

  function One(b: bool): nat {
    if b then 1 else 0
  }

  function InStore(db: Store, id: MsgId): nat {
    One(id in db.rows) + One(id in db.removed)
  }

  function InFlow(f: Flow, id: MsgId): nat {
    Occurrences(f.task.channel, id) + Occurrences(f.task.buffer, id)
    + FailedOccurrences(f.task.batches, id) + InStore(f.db, id)
  }

  /** Channel, buffer, failed batches, table, deleted rows, emergency writes running and failed. */
  function Copies(s: System, id: MsgId): nat {
    InFlow(s.flow, id) + One(id in s.pending) + One(id in s.unwritten)
  }

  /** A message is in exactly one place once it was sent, and nowhere before. */
  ghost predicate Conserved(s: System, id: MsgId) {
    Copies(s, id) == One(id in s.sent)
  }

  lemma {:induction false} OccurrencesAppend(a: seq<Message>, b: seq<Message>, id: MsgId)
    ensures Occurrences(a + b, id) == Occurrences(a, id) + Occurrences(b, id)
  {
    if b == [] {
      assert a + b == a;
    } else {
      assert (a + b)[..|a + b| - 1] == a + b[..|b| - 1];
      OccurrencesAppend(a, b[..|b| - 1], id);
    }
  }

  lemma OccurrencesOfOne(m: Message, id: MsgId)
    ensures Occurrences([m], id) == One(m.id == id)
  {
    assert [m][..0] == [];
  }

  /** Rows change only under the ids of the messages inserted, and stay once there. */
  lemma {:induction false} InsertAllAt(rows: map<MsgId, Row>, ms: seq<Message>, id: MsgId)
    ensures id in InsertAll(rows, ms) <==> id in rows || Occurrences(ms, id) > 0
    ensures id in rows ==> InsertAll(rows, ms)[id] == rows[id]
    ensures id !in rows && Occurrences(ms, id) > 0 ==>
              !InsertAll(rows, ms)[id].delivered && !InsertAll(rows, ms)[id].stamped
  {
    if ms != [] {
      InsertAllAt(rows, ms[..|ms| - 1], id);
    }
  }

  lemma FlushConserves(f: Flow, outcome: FlushOutcome, id: MsgId)
    requires InFlow(f, id) <= 1
    ensures InFlow(FlushBatch(f, outcome), id) == InFlow(f, id)
  {
    if f.task.buffer != [] {
      InsertAllAt(f.db.rows, f.task.buffer, id);
      var done := f.task.batches + [Batch(f.task.buffer, !outcome.NotCommitted?)];
      assert done[..|done| - 1] == f.task.batches;
    }
  }

  lemma ReceiveConserves(f: Flow, id: MsgId)
    requires f.task.channel != []
    ensures InFlow(Received(f), id) == InFlow(f, id)
  {
    var t := f.task;
    OccurrencesAppend([t.channel[0]], t.channel[1..], id);
    assert [t.channel[0]] + t.channel[1..] == t.channel;
    OccurrencesAppend(t.buffer, [t.channel[0]], id);
  }

  lemma WakeConserves(f: Flow, w: Wakeup, id: MsgId)
    requires InFlow(f, id) <= 1
    ensures InFlow(Wake(f, w), id) == InFlow(f, id)
  {
    if w.Tick? {
      FlushConserves(f, w.outcome, id);
    } else if f.task.channel != [] {
      ReceiveConserves(f, id);
      FlushConserves(Received(f), w.outcome, id);
    }
  }

  lemma DeleteConserves(db: Store, ids: set<MsgId>, id: MsgId)
    requires InStore(db, id) <= 1
    ensures InStore(DeleteRows(db, ids), id) == InStore(db, id)
  {
  }

  lemma DeleterConserves(f: DeleteFlow, w: DeleteWakeup, id: MsgId)
    requires InStore(f.db, id) <= 1
    ensures InStore(WakeDeleter(f, w).db, id) == InStore(f.db, id)
  {
    var g := if w.DeleteReceive? && f.task.channel != [] then TaskReceived(f) else f;
    DeleteConserves(f.db, Ids(g.task.buffer, false), id);
  }

  lemma SendConserves(s: System, m: Message, id: MsgId)
    requires Conserved(s, id)
    ensures Conserved(SendTo(s, m), id)
  {
    OccurrencesAppend(s.flow.task.channel, [m], id);
    OccurrencesOfOne(m, id);
  }

  lemma StepConserves(s: System, e: Event, id: MsgId)
    requires Conserved(s, id)
    ensures Conserved(Step(s, e), id)
  {
    match e
    case Send(m) => SendConserves(s, m, id);
    case EmergencyWrite(other, ok) =>
    case FlusherWakes(w) => WakeConserves(s.flow, w, id);
    case QueueDelete(_) =>
    case DirectDelete(other, ok) => DeleteConserves(s.flow.db, {other}, id);
    case DeleterWakes(w) => DeleterConserves(DeleteFlow(s.deleter, s.flow.db), w, id);
    case MarkRead(other) =>
    case Purge(aged, ok) => DeleteConserves(s.flow.db, Purgeable(s.flow.db, aged), id);
  }

  lemma {:induction false} EveryMessageIsInOnePlace(events: seq<Event>, id: MsgId)
    ensures Conserved(Run(Initial(), events), id)
  {
    if events == [] {
    } else {
      EveryMessageIsInOnePlace(events[..|events| - 1], id);
      StepConserves(Run(Initial(), events[..|events| - 1]), events[|events| - 1], id);
    }
  }

  /** So ON CONFLICT never discards a message: what a flush is about to insert has no row. */
  lemma NoInsertConflicts(events: seq<Event>, id: MsgId)
    ensures var s := Run(Initial(), events);
      (Occurrences(s.flow.task.buffer, id) > 0 || id in s.pending) ==>
        id !in s.flow.db.rows && id !in s.flow.db.removed
  {
    EveryMessageIsInOnePlace(events, id);
  }

  // ---------------------------------------------------------------- what is never lost

  /** Steps under which no message can be lost: no failed insert, and no emergency write that fails. */
  predicate Durable(e: Event) {
    match e
    case FlusherWakes(w) => !w.outcome.NotCommitted?
    case EmergencyWrite(_, ok) => ok
    case _ => true
  }

  ghost predicate AllDurable(events: seq<Event>) {
    forall i :: 0 <= i < |events| ==> Durable(events[i])
  }

  lemma DurableStep(s: System, e: Event, id: MsgId)
    requires Durable(e) && FailedOccurrences(s.flow.task.batches, id) == 0 && id !in s.unwritten
    ensures FailedOccurrences(Step(s, e).flow.task.batches, id) == 0 && id !in Step(s, e).unwritten
  {
    if e.FlusherWakes? {
      var bs := Step(s, e).flow.task.batches;
      if bs != s.flow.task.batches {
        assert bs[..|bs| - 1] == s.flow.task.batches;
      }
    }
  }

  lemma {:induction false} NothingFails(events: seq<Event>, id: MsgId)
    requires AllDurable(events)
    ensures var s := Run(Initial(), events);
      FailedOccurrences(s.flow.task.batches, id) == 0 && id !in s.unwritten
  {
    if events != [] {
      NothingFails(events[..|events| - 1], id);
      DurableStep(Run(Initial(), events[..|events| - 1]), events[|events| - 1], id);
    }
  }

  /** When every insert commits, a sent message is waiting, in the table, or was deleted from it. */
  lemma SentIsKept(events: seq<Event>, id: MsgId)
    requires AllDurable(events)
    ensures var s := Run(Initial(), events);
      id in s.sent ==>
        || Occurrences(s.flow.task.channel, id) == 1 || Occurrences(s.flow.task.buffer, id) == 1
        || id in s.pending || id in s.flow.db.rows || id in s.flow.db.removed
  {
    EveryMessageIsInOnePlace(events, id);
    NothingFails(events, id);
  }

  // ---------------------------------------------------------------- the deletes

  /** Only group rows are ever marked delivered. */
  ghost predicate OnlyGroupsDelivered(db: Store) {
    forall id :: id in db.rows && db.rows[id].delivered ==> db.rows[id].group
  }

  lemma {:induction false} InsertAllPlain(rows: map<MsgId, Row>, ms: seq<Message>)
    requires forall id :: id in rows && rows[id].delivered ==> rows[id].group
    ensures forall id :: id in InsertAll(rows, ms) && InsertAll(rows, ms)[id].delivered ==>
                           InsertAll(rows, ms)[id].group
  {
    if ms != [] {
      InsertAllPlain(rows, ms[..|ms| - 1]);
    }
  }

  lemma StepKeepsGroupsOnly(s: System, e: Event)
    requires OnlyGroupsDelivered(s.flow.db)
    ensures OnlyGroupsDelivered(Step(s, e).flow.db)
  {
    if e.FlusherWakes? {
      var g := if e.wakeup.Receive? && s.flow.task.channel != [] then Received(s.flow) else s.flow;
      InsertAllPlain(s.flow.db.rows, g.task.buffer);
    }
  }

  lemma {:induction false} RunKeepsGroupsOnly(events: seq<Event>)
    ensures OnlyGroupsDelivered(Run(Initial(), events).flow.db)
  {
    if events != [] {
      RunKeepsGroupsOnly(events[..|events| - 1]);
      StepKeepsGroupsOnly(Run(Initial(), events[..|events| - 1]), events[|events| - 1]);
    }
  }

  /** The purger asks for delivered rows outside groups, and this pipeline makes none. */
  lemma PurgerFindsNothing(events: seq<Event>, aged: set<MsgId>)
    ensures Purgeable(Run(Initial(), events).flow.db, aged) == {}
  {
    RunKeepsGroupsOnly(events);
  }

  // ---------------------------------------------------------------- the deleter's backlog

  /** Wakeups that found no connection since the deleter's last tick that did. */
  function Stalls(events: seq<Event>): nat {
    if events == [] then 0
    else
      var before := Stalls(events[..|events| - 1]);
      match events[|events| - 1]
      case DeleterWakes(w) => if w.outcome.NoConnection? then before + 1 else if w.DeleteTick? then 0 else before
      case _ => before
  }

  lemma StepBacklog(s: System, e: Event)
    ensures var n, n' := |s.deleter.buffer|, |Step(s, e).deleter.buffer|;
      n' == n || n' < MAX_DELETE_BATCH || (e.DeleterWakes? && e.deleteWakeup.outcome.NoConnection? && n' == n + 1)
    ensures e.DeleterWakes? && e.deleteWakeup.DeleteTick? && !e.deleteWakeup.outcome.NoConnection? ==>
              Step(s, e).deleter.buffer == []
  {
  }

  /** Only connection failures let the deleter's buffer grow past its batch size ... */
  lemma {:induction false} BacklogIsBounded(events: seq<Event>)
    ensures |Run(Initial(), events).deleter.buffer| < MAX_DELETE_BATCH + Stalls(events)
  {
    if events != [] {
      BacklogIsBounded(events[..|events| - 1]);
      StepBacklog(Run(Initial(), events[..|events| - 1]), events[|events| - 1]);
    }
  }

  lemma QueueThenStall(s: System, task: DeleteTask)
    requires s.deleter.channel == []
    ensures var d := Step(Step(s, QueueDelete(task)), DeleterWakes(DeleteReceive(NoConnection))).deleter;
      |d.buffer| == |s.deleter.buffer| + 1 && d.channel == []
  {
  }

  lemma RunSnoc(events: seq<Event>, e: Event)
    ensures Run(Initial(), events + [e]) == Step(Run(Initial(), events), e)
  {
    assert (events + [e])[..|events|] == events;
  }

  function Backlog(n: nat): seq<Event> {
    if n == 0 then []
    else Backlog(n - 1) + [QueueDelete(DeleteTask(n, false)), DeleterWakes(DeleteReceive(NoConnection))]
  }

  /** ... and with them there is no bound: it then holds every task queued. */
  lemma {:induction false} BacklogGrows(n: nat)
    ensures var d := Run(Initial(), Backlog(n)).deleter; |d.buffer| == n && d.channel == []
  {
    if n > 0 {
      BacklogGrows(n - 1);
      var before := Backlog(n - 1);
      var queue, wake := QueueDelete(DeleteTask(n, false)), DeleterWakes(DeleteReceive(NoConnection));
      assert Backlog(n) == before + [queue] + [wake];
      RunSnoc(before, queue);
      RunSnoc(before + [queue], wake);
      QueueThenStall(Run(Initial(), before), DeleteTask(n, false));
    }
  }
}
