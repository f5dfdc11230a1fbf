/**
 Deletes that come before the insert: once an applied delete task has taken a message out of the
 table, when the message can get back there, to be fetched again.
 */
module MessageRevival {
  import opened MessageFlusher
  import opened MessageConservation

  /** The batch this wakeup applies holds a task to delete the message. */
  predicate Deletes(d: Deleter, w: DeleteWakeup, id: MsgId) {
    && w.outcome.Applied?
    && match w
       case DeleteTick(_) => DeleteTask(id, false) in d.buffer
       case DeleteReceive(_) =>
         d.channel != [] && |d.buffer| + 1 >= MAX_DELETE_BATCH && DeleteTask(id, false) in d.buffer + [d.channel[0]]
  }

  /** Still to be inserted: in the channel, in the flusher's buffer, or in an emergency write. */
  predicate Waiting(s: System, id: MsgId) {
    Occurrences(s.flow.task.channel, id) + Occurrences(s.flow.task.buffer, id) > 0 || id in s.pending
  }

  lemma DeleteTakesRow(s: System, w: DeleteWakeup, id: MsgId)
    requires Deletes(s.deleter, w, id) && (id in s.flow.db.rows ==> !s.flow.db.rows[id].group)
    ensures var s' := Step(s, DeleterWakes(w));
      && id !in s'.flow.db.rows && s'.flow.task == s.flow.task
      && s'.pending == s.pending && s'.sent == s.sent && s'.unwritten == s.unwritten
  {
    var tasks := if w.DeleteTick? then s.deleter.buffer else s.deleter.buffer + [s.deleter.channel[0]];
    var i :| 0 <= i < |tasks| && tasks[i] == DeleteTask(id, false);
    assert id in Ids(tasks, false);
  }

  /** Places a message never leaves. */
  function Sunk(s: System, id: MsgId): nat {
    FailedOccurrences(s.flow.task.batches, id) + One(id in s.flow.db.removed) + One(id in s.unwritten)
  }

  lemma WakeKeepsSunk(f: Flow, w: Wakeup, id: MsgId)
    ensures FailedOccurrences(Wake(f, w).task.batches, id) >= FailedOccurrences(f.task.batches, id)
    ensures Wake(f, w).db.removed == f.db.removed
  {
    var bs := Wake(f, w).task.batches;
    if bs != f.task.batches {
      assert bs[..|bs| - 1] == f.task.batches;
    }
  }

  lemma StepKeepsSunk(s: System, e: Event, id: MsgId)
    ensures Sunk(Step(s, e), id) >= Sunk(s, id)
  {
    if e.FlusherWakes? {
      WakeKeepsSunk(s.flow, e.wakeup, id);
    }
  }

  lemma {:induction false} SunkStays(events: seq<Event>, more: seq<Event>, id: MsgId)
    requires Sunk(Run(Initial(), events), id) >= 1
    ensures Sunk(Run(Initial(), events + more), id) >= 1
  {
    if more == [] {
      assert events + more == events;
    } else {
      var n := |more| - 1;
      SunkStays(events, more[..n], id);
      assert events + more == events + more[..n] + [more[n]];
      RunSnoc(events + more[..n], more[n]);
      StepKeepsSunk(Run(Initial(), events + more[..n]), more[n], id);
    }
  }

  ghost predicate InTable(events: seq<Event>, more: seq<Event>, id: MsgId) {
    id in Run(Initial(), events + more).flow.db.rows
  }

  lemma TickInserts(f: Flow, id: MsgId)
    requires Occurrences(f.task.buffer, id) > 0
    ensures id in Wake(f, Tick(Flushed)).db.rows
  {
    InsertAllAt(f.db.rows, f.task.buffer, id);
  }

  lemma ReceiveBrings(f: Flow, id: MsgId)
    requires Occurrences(f.task.channel, id) > 0
    ensures var f' := Wake(f, Receive(Flushed));
      && |f'.task.channel| < |f.task.channel|
      && (id in f'.db.rows || Occurrences(f'.task.channel, id) + Occurrences(f'.task.buffer, id) > 0)
  {
    var t := f.task;
    assert t.channel == [t.channel[0]] + t.channel[1..];
    OccurrencesAppend([t.channel[0]], t.channel[1..], id);
    OccurrencesAppend(t.buffer, [t.channel[0]], id);
    InsertAllAt(f.db.rows, t.buffer + [t.channel[0]], id);
  }

  lemma TickGetsIn(events: seq<Event>, id: MsgId)
    requires Occurrences(Run(Initial(), events).flow.task.buffer, id) > 0
    ensures InTable(events, [FlusherWakes(Tick(Flushed))], id)
  {
    RunSnoc(events, FlusherWakes(Tick(Flushed)));
    TickInserts(Run(Initial(), events).flow, id);
  }

  lemma ReceiveComesCloser(events: seq<Event>, id: MsgId)
    requires Occurrences(Run(Initial(), events).flow.task.channel, id) > 0
    ensures var f' := Run(Initial(), events + [FlusherWakes(Receive(Flushed))]).flow;
      && |f'.task.channel| < |Run(Initial(), events).flow.task.channel|
      && (id in f'.db.rows || Occurrences(f'.task.channel, id) + Occurrences(f'.task.buffer, id) > 0)
  {
    RunSnoc(events, FlusherWakes(Receive(Flushed)));
    ReceiveBrings(Run(Initial(), events).flow, id);
  }

  /** A message in channel or buffer gets into the table by flushes alone. */
  lemma {:induction false} FlushesInsert(events: seq<Event>, id: MsgId) returns (more: seq<Event>)
    requires var t := Run(Initial(), events).flow.task; Occurrences(t.channel, id) + Occurrences(t.buffer, id) > 0
    ensures InTable(events, more, id)
    decreases |Run(Initial(), events).flow.task.channel|
  {
    if Occurrences(Run(Initial(), events).flow.task.buffer, id) > 0 {
      more := [FlusherWakes(Tick(Flushed))];
      TickGetsIn(events, id);
    } else {
      var e := FlusherWakes(Receive(Flushed));
      ReceiveComesCloser(events, id);
      if id in Run(Initial(), events + [e]).flow.db.rows {
        more := [e];
      } else {
        var rest := FlushesInsert(events + [e], id);
        more := [e] + rest;
        assert events + more == events + [e] + rest;
      }
    }
  }

  lemma WaitingGetsIn(events: seq<Event>, id: MsgId) returns (more: seq<Event>)
    requires Waiting(Run(Initial(), events), id)
    ensures InTable(events, more, id)
  {
    if id in Run(Initial(), events).pending {
      more := [EmergencyWrite(id, true)];
      RunSnoc(events, more[0]);
    } else {
      more := FlushesInsert(events, id);
    }
  }

  /**
   After a delete task for a sent message has been applied, the message can be in the table again, in
   some continuation, if and only if it was still waiting to be inserted when the task was applied.
   */
  lemma DeletedComesBackIff(events: seq<Event>, w: DeleteWakeup, id: MsgId)
    requires var s := Run(Initial(), events);
      && id in s.sent && Deletes(s.deleter, w, id)
      && (id in s.flow.db.rows ==> !s.flow.db.rows[id].group)
    ensures (exists more :: InTable(events + [DeleterWakes(w)], more, id)) <==> Waiting(Run(Initial(), events), id)
  {
    var s, deleted := Run(Initial(), events), events + [DeleterWakes(w)];
    RunSnoc(events, DeleterWakes(w));
    DeleteTakesRow(s, w, id);
    EveryMessageIsInOnePlace(deleted, id);
    if Waiting(s, id) {
      var more := WaitingGetsIn(deleted, id);
    } else {
      forall more | InTable(deleted, more, id) ensures false {
        SunkStays(deleted, more, id);
        EveryMessageIsInOnePlace(deleted + more, id);
      }
    }
  }

  /** What comes back is undelivered, unless it is read again, so the next fetch finds it. */
  lemma ComesBackUndelivered(events: seq<Event>, outcome: FlushOutcome, id: MsgId)
    requires Occurrences(Run(Initial(), events).flow.task.buffer, id) > 0 && !outcome.NotCommitted?
    ensures var s := Run(Initial(), events + [FlusherWakes(Tick(outcome))]);
      id in s.flow.db.rows && !s.flow.db.rows[id].delivered
  {
    RunSnoc(events, FlusherWakes(Tick(outcome)));
    NoInsertConflicts(events, id);
    var f := Run(Initial(), events).flow;
    InsertAllAt(f.db.rows, f.task.buffer, id);
  }
}
