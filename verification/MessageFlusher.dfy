/**
 The write side of instant messages: the flusher channel with its emergency writes, the flusher task
 that collects messages and inserts them in batches, and the deleter, read-mark and purge tasks that
 change the table beside it. A batch insert, a delete batch or a single statement is one step.
 */
module MessageFlusher {
  type MsgId = nat

  const MAX_BATCH_SIZE: nat := 2000
  const CHANNEL_BUFFER: nat := 20_000
  const MAX_DELETE_BATCH: nat := 1000
  const DELETE_CHANNEL_BUFFER: nat := 10_000

  datatype Message = Message(id: MsgId, group: bool)

  /** `stamped` says that delivered_at is set, which reading a message does too. */
  datatype Row = Row(group: bool, delivered: bool, stamped: bool)

  /** The messages table and the ids of the rows deleted from it. */
  datatype Store = Store(rows: map<MsgId, Row>, removed: set<MsgId>)

  // ---------------------------------------------------------------- the flusher task

  /** Redis is asked only after the commit, so a flush can fail with its rows inserted. */
  datatype FlushOutcome = Flushed | RedisLost | NotCommitted

  datatype Batch = Batch(messages: seq<Message>, stored: bool)

  /** `batches` is the history of the flushes attempted. */
  datatype Flusher = Flusher(channel: seq<Message>, buffer: seq<Message>, batches: seq<Batch>)

  datatype Flow = Flow(task: Flusher, db: Store)

  datatype Wakeup = Tick(outcome: FlushOutcome) | Receive(outcome: FlushOutcome)

  /** INSERT ... ON CONFLICT (id) DO NOTHING. */
  function Insert(rows: map<MsgId, Row>, m: Message): map<MsgId, Row> {
    if m.id in rows then rows else rows[m.id := Row(m.group, false, false)]
  }

  function InsertAll(rows: map<MsgId, Row>, ms: seq<Message>): map<MsgId, Row> {
    if ms == [] then rows else Insert(InsertAll(rows, ms[..|ms| - 1]), ms[|ms| - 1])
  }

  function FlushBatch(f: Flow, outcome: FlushOutcome): Flow {
    if f.task.buffer == [] then f
    else
      var stored := !outcome.NotCommitted?;
      Flow(Flusher(f.task.channel, [], f.task.batches + [Batch(f.task.buffer, stored)]),
           if stored then f.db.(rows := InsertAll(f.db.rows, f.task.buffer)) else f.db)
  }

  function Received(f: Flow): Flow
    requires f.task.channel != []
  {
    f.(task := f.task.(channel := f.task.channel[1..], buffer := f.task.buffer + [f.task.channel[0]]))
  }

  function Wake(f: Flow, w: Wakeup): Flow {
    match w
    case Tick(outcome) => FlushBatch(f, outcome)
    case Receive(outcome) =>
      if f.task.channel == [] then f
      else if |f.task.buffer| + 1 >= MAX_BATCH_SIZE then FlushBatch(Received(f), outcome)
      else Received(f)
  }

  function Wakes(f: Flow, ws: seq<Wakeup>): Flow {
    if ws == [] then f else Wake(Wakes(f, ws[..|ws| - 1]), ws[|ws| - 1])
  }

  class FlusherTask {
    var rx: seq<Message>
    var buffer: seq<Message>
    var table: map<MsgId, Row>
    ghost var batches: seq<Batch>
    ghost var removed: set<MsgId>

    ghost function State(): Flow
      reads this
    {
      Flow(Flusher(rx, buffer, batches), Store(table, removed))
    }

    /** The buffer is taken before anything can fail, so a batch that fails is gone. */
    method FlushBuffer(outcome: FlushOutcome) returns (ok: bool)
      modifies this
      ensures State() == FlushBatch(old(State()), outcome)
      ensures buffer == []
      ensures ok == (old(buffer) == [] || outcome == Flushed)
    {
      if |buffer| == 0 {
        return true;
      }
      var toInsert := buffer;
      buffer := [];
      batches := batches + [Batch(toInsert, !outcome.NotCommitted?)];
      if outcome == NotCommitted {
        return false;
      }
      var i := 0;
      while i < |toInsert|
        modifies `table
        invariant 0 <= i <= |toInsert|
        invariant table == InsertAll(old(table), toInsert[..i])
      {
        if toInsert[i].id !in table {
          table := table[toInsert[i].id := Row(toInsert[i].group, false, false)];
        }
        assert toInsert[..i + 1][..i] == toInsert[..i];
        i := i + 1;
      }
      assert toInsert[..|toInsert|] == toInsert;
      ok := outcome == Flushed;
    }

    /** The select loop over the wakeups it sees; the buffer is below the batch size at every turn. */
    method Loop(wakeups: seq<Wakeup>)
      requires |buffer| < MAX_BATCH_SIZE
      modifies this
      ensures State() == Wakes(old(State()), wakeups)
      ensures |buffer| < MAX_BATCH_SIZE
    {
      var i := 0;
      while i < |wakeups|
        invariant 0 <= i <= |wakeups|
        invariant State() == Wakes(old(State()), wakeups[..i])
        invariant |buffer| < MAX_BATCH_SIZE
      {
        match wakeups[i] {
          case Tick(outcome) =>
            if |buffer| > 0 {
              var _ := FlushBuffer(outcome);
            }
          case Receive(outcome) =>
            if |rx| > 0 {
              buffer := buffer + [rx[0]];
              rx := rx[1..];
              if |buffer| >= MAX_BATCH_SIZE {
                var _ := FlushBuffer(outcome);
              }
            }
        }
        assert wakeups[..i + 1][..i] == wakeups[..i];
        i := i + 1;
      }
      assert wakeups[..|wakeups|] == wakeups;
    }
  }

  // ---------------------------------------------------------------- the deleter task

  datatype DeleteTask = DeleteTask(id: MsgId, group: bool)

  /** Connecting fails before the tasks are taken, everything later after. */
  datatype DeleteOutcome = Applied | RolledBack | NoConnection

  datatype DeleteBatch = DeleteBatch(tasks: seq<DeleteTask>, applied: bool)

  datatype Deleter = Deleter(channel: seq<DeleteTask>, buffer: seq<DeleteTask>, batches: seq<DeleteBatch>)

  datatype DeleteFlow = DeleteFlow(task: Deleter, db: Store)

  datatype DeleteWakeup = DeleteTick(outcome: DeleteOutcome) | DeleteReceive(outcome: DeleteOutcome)

  function Ids(tasks: seq<DeleteTask>, group: bool): set<MsgId> {
    set t | t in tasks && t.group == group :: t.id
  }

  /** DELETE ... WHERE id = ANY(ids) AND is_group_message = false. */
  function DeleteRows(db: Store, ids: set<MsgId>): Store {
    var gone := set id | id in ids && id in db.rows && !db.rows[id].group;
    Store(db.rows - gone, db.removed + gone)
  }

  /** UPDATE ... WHERE id = ANY(ids) AND is_group_message AND delivered_at IS NULL. */
  function DeliverGroups(db: Store, ids: set<MsgId>): Store {
    db.(rows := map id | id in db.rows ::
      if id in ids && db.rows[id].group && !db.rows[id].stamped then Row(true, true, true) else db.rows[id])
  }

  function RunDeleteBatch(f: DeleteFlow, outcome: DeleteOutcome): DeleteFlow {
    if f.task.buffer == [] || outcome.NoConnection? then f
    else
      var tasks := f.task.buffer;
      DeleteFlow(Deleter(f.task.channel, [], f.task.batches + [DeleteBatch(tasks, outcome.Applied?)]),
                 if outcome.Applied? then DeliverGroups(DeleteRows(f.db, Ids(tasks, false)), Ids(tasks, true))
                 else f.db)
  }

  function TaskReceived(f: DeleteFlow): DeleteFlow
    requires f.task.channel != []
  {
    f.(task := f.task.(channel := f.task.channel[1..], buffer := f.task.buffer + [f.task.channel[0]]))
  }

  function WakeDeleter(f: DeleteFlow, w: DeleteWakeup): DeleteFlow {
    match w
    case DeleteTick(outcome) => RunDeleteBatch(f, outcome)
    case DeleteReceive(outcome) =>
      if f.task.channel == [] then f
      else if |f.task.buffer| + 1 >= MAX_DELETE_BATCH then RunDeleteBatch(TaskReceived(f), outcome)
      else TaskReceived(f)
  }

  class DeleterTask {
    var buffer: seq<DeleteTask>
    var table: map<MsgId, Row>
    ghost var channel: seq<DeleteTask>
    ghost var batches: seq<DeleteBatch>
    ghost var removed: set<MsgId>

    ghost function State(): DeleteFlow
      reads this
    {
      DeleteFlow(Deleter(channel, buffer, batches), Store(table, removed))
    }

    method DeleteBuffer(outcome: DeleteOutcome) returns (ok: bool)
      modifies this
      ensures State() == RunDeleteBatch(old(State()), outcome)
      ensures ok == (old(buffer) == [] || outcome == Applied)
    {
      if |buffer| == 0 {
        return true;
      }
      if outcome == NoConnection {
        return false;
      }
      var tasks := buffer;
      buffer := [];
      var p2pDeletes, groupUpdates := {}, {};
      for i := 0 to |tasks|
        invariant p2pDeletes == Ids(tasks[..i], false)
        invariant groupUpdates == Ids(tasks[..i], true)
      {
        assert tasks[..i + 1] == tasks[..i] + [tasks[i]];
        if tasks[i].group {
          groupUpdates := groupUpdates + {tasks[i].id};
        } else {
          p2pDeletes := p2pDeletes + {tasks[i].id};
        }
      }
      assert tasks[..|tasks|] == tasks;
      batches := batches + [DeleteBatch(tasks, outcome.Applied?)];
      ok := outcome == Applied;
      if ok {
        ghost var db := DeleteRows(Store(table, removed), p2pDeletes);
        var gone := set id | id in p2pDeletes && id in table && !table[id].group;
        table, removed := table - gone, removed + gone;
        assert Store(table, removed) == db;
        table := map id | id in table ::
          if id in groupUpdates && table[id].group && !table[id].stamped then Row(true, true, true) else table[id];
      }
    }
  }

  // ---------------------------------------------------------------- the whole pipeline

  /**
   `pending` holds the emergency writes running, with the group flag of each message; `sent`,
   `handed` and `queued` are histories: ids sent, messages and delete tasks the channels took.
   */
  datatype System = System(flow: Flow, deleter: Deleter, direct: set<MsgId>,
                           pending: map<MsgId, bool>, unwritten: set<MsgId>,
                           sent: set<MsgId>, handed: seq<Message>, queued: seq<DeleteTask>)

  datatype Event =
    | Send(m: Message)
    | EmergencyWrite(id: MsgId, ok: bool)
    | FlusherWakes(wakeup: Wakeup)
    | QueueDelete(task: DeleteTask)
    | DirectDelete(id: MsgId, ok: bool)
    | DeleterWakes(deleteWakeup: DeleteWakeup)
    | MarkRead(id: MsgId)
    | Purge(aged: set<MsgId>, ok: bool)

  function Initial(): System {
    System(Flow(Flusher([], [], []), Store(map[], {})), Deleter([], [], []), {}, map[], {}, {}, [], [])
  }

  /** Message ids are fresh; a full channel starts an emergency write. */
  function SendTo(s: System, m: Message): System {
    if m.id in s.sent then s
    else if |s.flow.task.channel| < CHANNEL_BUFFER then
      s.(flow := s.flow.(task := s.flow.task.(channel := s.flow.task.channel + [m])),
         sent := s.sent + {m.id}, handed := s.handed + [m])
    else s.(pending := s.pending[m.id := m.group], sent := s.sent + {m.id})
  }

  function WithRows(s: System, db: Store): System {
    s.(flow := s.flow.(db := db))
  }

  function FinishEmergency(s: System, id: MsgId, ok: bool): System {
    if id !in s.pending then s
    else
      var db := s.flow.db;
      var s' := s.(pending := s.pending - {id});
      if ok then WithRows(s', db.(rows := Insert(db.rows, Message(id, s.pending[id]))))
      else s'.(unwritten := s.unwritten + {id})
  }

  function Stamp(db: Store, id: MsgId): Store {
    if id in db.rows then db.(rows := db.rows[id := db.rows[id].(stamped := true)]) else db
  }

  /** What the purger's query selects among the rows old enough. */
  function Purgeable(db: Store, aged: set<MsgId>): set<MsgId> {
    set id | id in aged && id in db.rows && db.rows[id].delivered && !db.rows[id].group
  }

  function Step(s: System, e: Event): System {
    match e
    case Send(m) => SendTo(s, m)
    case EmergencyWrite(id, ok) => FinishEmergency(s, id, ok)
    case FlusherWakes(w) => s.(flow := Wake(s.flow, w))
    case QueueDelete(t) =>
      if |s.deleter.channel| < DELETE_CHANNEL_BUFFER then
        s.(deleter := s.deleter.(channel := s.deleter.channel + [t]), queued := s.queued + [t])
      else s.(direct := s.direct + {t.id})
    case DirectDelete(id, ok) =>
      if id !in s.direct then s
      else if ok then WithRows(s.(direct := s.direct - {id}), DeleteRows(s.flow.db, {id}))
      else s.(direct := s.direct - {id})
    case DeleterWakes(w) =>
      var f := WakeDeleter(DeleteFlow(s.deleter, s.flow.db), w);
      WithRows(s.(deleter := f.task), f.db)
    case MarkRead(id) => WithRows(s, Stamp(s.flow.db, id))
    case Purge(ids, ok) =>
      if ok then WithRows(s, DeleteRows(s.flow.db, Purgeable(s.flow.db, ids))) else s
  }

  function Run(s: System, events: seq<Event>): System {
    if events == [] then s else Step(Run(s, events[..|events| - 1]), events[|events| - 1])
  }

  // ---------------------------------------------------------------- order and bounds

  function Flatten(batches: seq<Batch>): seq<Message> {
    if batches == [] then [] else Flatten(batches[..|batches| - 1]) + batches[|batches| - 1].messages
  }

  function FlattenTasks(batches: seq<DeleteBatch>): seq<DeleteTask> {
    if batches == [] then [] else FlattenTasks(batches[..|batches| - 1]) + batches[|batches| - 1].tasks
  }

  function Line(t: Flusher): seq<Message> {
    Flatten(t.batches) + t.buffer + t.channel
  }

  function TaskLine(t: Deleter): seq<DeleteTask> {
    FlattenTasks(t.batches) + t.buffer + t.channel
  }

  /** What the channels took, in order: the attempted batches, then the buffer, then the channel. */
  ghost predicate InOrder(s: System) {
    s.handed == Line(s.flow.task) && s.queued == TaskLine(s.deleter)
  }

  ghost predicate Bounded(t: Flusher) {
    && |t.buffer| < MAX_BATCH_SIZE
    && |t.channel| <= CHANNEL_BUFFER
    && forall i :: 0 <= i < |t.batches| ==> 1 <= |t.batches[i].messages| <= MAX_BATCH_SIZE
  }

  lemma FlushKeepsLine(f: Flow, outcome: FlushOutcome)
    ensures Line(FlushBatch(f, outcome).task) == Line(f.task)
  {
    var done := f.task.batches + [Batch(f.task.buffer, !outcome.NotCommitted?)];
    assert done[..|done| - 1] == f.task.batches;
  }

  lemma WakeKeepsLine(f: Flow, w: Wakeup)
    ensures Line(Wake(f, w).task) == Line(f.task)
  {
    if w.Tick? {
      FlushKeepsLine(f, w.outcome);
    } else if f.task.channel != [] {
      assert Line(Received(f).task) == Line(f.task);
      FlushKeepsLine(Received(f), w.outcome);
    }
  }

  lemma WakeKeepsBounds(f: Flow, w: Wakeup)
    requires Bounded(f.task)
    ensures Bounded(Wake(f, w).task)
  {
  }

  lemma DeleteBatchKeepsLine(f: DeleteFlow, outcome: DeleteOutcome)
    ensures TaskLine(RunDeleteBatch(f, outcome).task) == TaskLine(f.task)
  {
    var done := f.task.batches + [DeleteBatch(f.task.buffer, outcome.Applied?)];
    assert done[..|done| - 1] == f.task.batches;
  }

  lemma WakeDeleterKeepsLine(f: DeleteFlow, w: DeleteWakeup)
    ensures TaskLine(WakeDeleter(f, w).task) == TaskLine(f.task)
  {
    if w.DeleteTick? {
      DeleteBatchKeepsLine(f, w.outcome);
    } else if f.task.channel != [] {
      assert TaskLine(TaskReceived(f).task) == TaskLine(f.task);
      DeleteBatchKeepsLine(TaskReceived(f), w.outcome);
    }
  }

  lemma StepKeepsOrder(s: System, e: Event)
    requires InOrder(s) && Bounded(s.flow.task)
    ensures InOrder(Step(s, e)) && Bounded(Step(s, e).flow.task)
  {
    match e
    case FlusherWakes(w) =>
      WakeKeepsLine(s.flow, w);
      WakeKeepsBounds(s.flow, w);
    case DeleterWakes(w) => WakeDeleterKeepsLine(DeleteFlow(s.deleter, s.flow.db), w);
    case _ =>
  }

  /** Nothing is reordered or dropped unseen, and no backlog builds up whatever the flushes return. */
  lemma {:induction false} RunsInOrder(events: seq<Event>)
    ensures InOrder(Run(Initial(), events)) && Bounded(Run(Initial(), events).flow.task)
  {
    if events == [] {
    } else {
      RunsInOrder(events[..|events| - 1]);
      StepKeepsOrder(Run(Initial(), events[..|events| - 1]), events[|events| - 1]);
    }
  }
}
