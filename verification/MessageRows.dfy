/**
 What the tasks of the message pipeline do to the table: which rows a flush adds and a delete batch takes or marks,
 when a batch is attempted at all, and whose rows they are over whole runs.
 */
module MessageRows {
  import opened MessageFlusher

  // ---------------------------------------------------------------- one batch

  predicate Asks(tasks: seq<DeleteTask>, id: MsgId, group: bool) {
    DeleteTask(id, group) in tasks
  }

  lemma IdsAsked(tasks: seq<DeleteTask>, id: MsgId, group: bool)
    ensures id in Ids(tasks, group) <==> Asks(tasks, id, group)
  {
    if t :| t in tasks && t.group == group && t.id == id {
      assert t == DeleteTask(id, group);
    }
  }

  /**
   An applied delete batch takes exactly the rows outside groups that it names as such, and marks as delivered exactly
   the group rows that it names as such and that have no delivery time yet; it leaves every other row as it was.
   */
  lemma AppliedBatchIff(f: DeleteFlow, id: MsgId)
    requires f.task.buffer != []
    ensures var tasks, rows := f.task.buffer, f.db.rows;
      var f' := RunDeleteBatch(f, Applied);
      && (id in f'.db.rows <==> id in rows && !(Asks(tasks, id, false) && !rows[id].group))
      && (id in f'.db.removed <==> id in f.db.removed || (id in rows && id !in f'.db.rows))
      && (id in f'.db.rows ==>
            if Asks(tasks, id, true) && rows[id].group && !rows[id].stamped then f'.db.rows[id] == Row(true, true, true)
            else f'.db.rows[id] == rows[id])
      && f'.task.buffer == []
  {
    IdsAsked(f.task.buffer, id, false);
    IdsAsked(f.task.buffer, id, true);
  }

  /** A batch rolled back or without a connection leaves the table as it was; only the latter keeps its tasks. */
  lemma UnappliedBatch(f: DeleteFlow, outcome: DeleteOutcome)
    requires !outcome.Applied?
    ensures var f' := RunDeleteBatch(f, outcome);
      f'.db == f.db && f'.task.buffer == if outcome.NoConnection? then f.task.buffer else []
  {
  }

  /** A delete past the full channel takes the one row it names unless it is a group's; a read stamps a row. */
  lemma SingleStatements(s: System, id: MsgId, other: MsgId)
    requires id in s.direct
    ensures var rows, rows' := s.flow.db.rows, Step(s, DirectDelete(id, true)).flow.db.rows;
      && (other in rows' <==> other in rows && (other != id || rows[id].group))
      && (other in rows' ==> rows'[other] == rows[other])
    ensures id !in Step(s, DirectDelete(id, true)).direct && Step(s, DirectDelete(id, false)).flow == s.flow
    ensures var rows, rows' := s.flow.db.rows, Step(s, MarkRead(id)).flow.db.rows;
      && (other in rows' <==> other in rows)
      && (other in rows ==> rows'[other] == if other == id then rows[id].(stamped := true) else rows[other])
  {
  }

  predicate Holds(ms: seq<Message>, id: MsgId) {
    exists i: nat :: i < |ms| && ms[i].id == id
  }

  lemma {:induction false} InsertsRow(rows: map<MsgId, Row>, ms: seq<Message>, id: MsgId)
    ensures id in InsertAll(rows, ms) <==> id in rows || Holds(ms, id)
    ensures id in rows ==> InsertAll(rows, ms)[id] == rows[id]
    ensures id in InsertAll(rows, ms) && id !in rows ==>
              exists i: nat :: i < |ms| && ms[i].id == id && InsertAll(rows, ms)[id] == Row(ms[i].group, false, false)
  {
    if ms != [] {
      var n := |ms| - 1;
      InsertsRow(rows, ms[..n], id);
      if Holds(ms[..n], id) {
        var i: nat :| i < n && ms[..n][i].id == id;
        assert ms[i].id == id;
      }
      if id in InsertAll(rows, ms[..n]) && id !in rows {
        var i: nat :| i < n && ms[..n][i].id == id &&
                      InsertAll(rows, ms[..n])[id] == Row(ms[..n][i].group, false, false);
        assert ms[i].id == id;
      } else if ms[n].id == id {
        assert Holds(ms, id);
      }
    }
  }

  /** A flush that commits gives each message of the buffer an undelivered row of its kind; other rows stay. */
  lemma FlushInserts(f: Flow, outcome: FlushOutcome, id: MsgId)
    requires !outcome.NotCommitted?
    ensures var rows, rows' := f.db.rows, FlushBatch(f, outcome).db.rows;
      && (id in rows' <==> id in rows || Holds(f.task.buffer, id))
      && (id in rows ==> rows'[id] == rows[id])
      && (id in rows' && id !in rows ==>
            exists i: nat :: i < |f.task.buffer| && f.task.buffer[i].id == id &&
                             rows'[id] == Row(f.task.buffer[i].group, false, false))
  {
    InsertsRow(f.db.rows, f.task.buffer, id);
  }

  // ---------------------------------------------------------------- when there is one

  /** Receiving a message makes the flusher flush if and only if that fills its batch of 2000. */
  lemma FlushesWhenFull(f: Flow, outcome: FlushOutcome)
    requires |f.task.buffer| < 2000 && f.task.channel != []
    ensures var t := Wake(f, Receive(outcome)).task;
      && |t.batches| == |f.task.batches| + (if |f.task.buffer| == 1999 then 1 else 0)
      && |t.buffer| == (if |f.task.buffer| == 1999 then 0 else |f.task.buffer| + 1)
  {
  }

  /** A batch of 1000 or more tasks is attempted at every task received; a smaller one waits for the timer. */
  lemma DeletesWhenFull(f: DeleteFlow, outcome: DeleteOutcome)
    requires f.task.channel != [] && !outcome.NoConnection?
    ensures var t := WakeDeleter(f, DeleteReceive(outcome)).task;
      && |t.batches| == |f.task.batches| + (if |f.task.buffer| >= 999 then 1 else 0)
      && |t.buffer| == (if |f.task.buffer| >= 999 then 0 else |f.task.buffer| + 1)
  {
  }

  /** A message goes past a channel of 20 000, and a delete past one of 10 000, if and only if it is full. */
  lemma FullChannels(s: System, m: Message, task: DeleteTask)
    requires m.id !in s.sent && m.id !in s.pending && task.id !in s.direct
    ensures m.id in Step(s, Send(m)).pending <==> |s.flow.task.channel| >= 20_000
    ensures |s.flow.task.channel| < 20_000 ==> Step(s, Send(m)).flow.task.channel == s.flow.task.channel + [m]
    ensures task.id in Step(s, QueueDelete(task)).direct <==> |s.deleter.channel| >= 10_000
    ensures |s.deleter.channel| < 10_000 ==> Step(s, QueueDelete(task)).deleter.channel == s.deleter.channel + [task]
  {
  }

  // ---------------------------------------------------------------- whole runs

  /** The messages as they were sent: whether to a group. */
  function SentAs(events: seq<Event>): map<MsgId, bool> {
    if events == [] then map[]
    else
      var sent := SentAs(events[..|events| - 1]);
      match events[|events| - 1]
      case Send(m) => if m.id in sent then sent else sent[m.id := m.group]
      case _ => sent
  }

  ghost predicate Right(ms: seq<Message>, sent: map<MsgId, bool>) {
    forall i: nat :: i < |ms| ==> ms[i].id in sent && sent[ms[i].id] == ms[i].group
  }

  ghost predicate RightStore(db: Store, sent: map<MsgId, bool>) {
    && (forall id :: id in db.rows ==> id in sent && sent[id] == db.rows[id].group)
    && (forall id :: id in db.removed ==> id in sent && !sent[id])
  }

  ghost predicate RightFlow(f: Flow, sent: map<MsgId, bool>) {
    Right(f.task.channel, sent) && Right(f.task.buffer, sent) && RightStore(f.db, sent)
  }

  ghost predicate Inv(s: System, sent: map<MsgId, bool>) {
    && s.sent == sent.Keys && RightFlow(s.flow, sent)
    && forall id :: id in s.pending ==> id in sent && sent[id] == s.pending[id]
  }

  lemma FlushKeepsRight(f: Flow, outcome: FlushOutcome, sent: map<MsgId, bool>)
    requires RightFlow(f, sent)
    ensures RightFlow(FlushBatch(f, outcome), sent)
  {
    if !outcome.NotCommitted? {
      var rows := FlushBatch(f, outcome).db.rows;
      forall id | id in rows ensures id in sent && sent[id] == rows[id].group {
        FlushInserts(f, outcome, id);
      }
    }
  }

  lemma WakeKeepsRight(f: Flow, w: Wakeup, sent: map<MsgId, bool>)
    requires RightFlow(f, sent)
    ensures RightFlow(Wake(f, w), sent)
  {
    match w
    case Tick(outcome) => FlushKeepsRight(f, outcome, sent);
    case Receive(outcome) =>
      if f.task.channel != [] {
        assert Right(Received(f).task.buffer, sent);
        FlushKeepsRight(Received(f), outcome, sent);
      }
  }

  lemma DeleteKeepsRight(db: Store, ids: set<MsgId>, sent: map<MsgId, bool>)
    requires RightStore(db, sent)
    ensures RightStore(DeleteRows(db, ids), sent)
  {
  }

  lemma DeleterKeepsRight(f: DeleteFlow, w: DeleteWakeup, sent: map<MsgId, bool>)
    requires RightStore(f.db, sent)
    ensures RightStore(WakeDeleter(f, w).db, sent)
  {
    var g := if w.DeleteReceive? && f.task.channel != [] then TaskReceived(f) else f;
    DeleteKeepsRight(f.db, Ids(g.task.buffer, false), sent);
  }

  lemma SendKeepsRight(s: System, m: Message, sent: map<MsgId, bool>)
    requires Inv(s, sent) && m.id !in sent
    ensures Inv(SendTo(s, m), sent[m.id := m.group])
  {
  }

  lemma StepKeepsRight(s: System, e: Event, sent: map<MsgId, bool>)
    requires Inv(s, sent) && (e.Send? ==> e.m.id in sent)
    ensures Inv(Step(s, e), sent)
  {
    match e
    case Send(_) =>
    case EmergencyWrite(id, ok) =>
    case FlusherWakes(w) => WakeKeepsRight(s.flow, w, sent);
    case QueueDelete(_) =>
    case DirectDelete(id, _) => DeleteKeepsRight(s.flow.db, {id}, sent);
    case DeleterWakes(w) => DeleterKeepsRight(DeleteFlow(s.deleter, s.flow.db), w, sent);
    case MarkRead(_) =>
    case Purge(aged, _) => DeleteKeepsRight(s.flow.db, Purgeable(s.flow.db, aged), sent);
  }

  lemma {:induction false} RunKeepsRight(events: seq<Event>)
    ensures Inv(Run(Initial(), events), SentAs(events))
  {
    if events != [] {
      var before, e := events[..|events| - 1], events[|events| - 1];
      RunKeepsRight(before);
      if e.Send? && e.m.id !in SentAs(before) {
        SendKeepsRight(Run(Initial(), before), e.m, SentAs(before));
      } else {
        StepKeepsRight(Run(Initial(), before), e, SentAs(before));
      }
    }
  }

  /** In every run a row is of the kind its message was sent as, and no row of a group message is ever deleted. */
  lemma RowsAreTheirMessages(events: seq<Event>, id: MsgId)
    ensures var db, sent := Run(Initial(), events).flow.db, SentAs(events);
      && (id in db.rows ==> id in sent && db.rows[id].group == sent[id])
      && (id in db.removed ==> id in sent && !sent[id])
  {
    RunKeepsRight(events);
  }
}
