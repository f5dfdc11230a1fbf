/**
 Usage counters on their way from Redis to Postgres: increments into one hash per API key and hour,
 and flush cycles that read the hashes of past hours, add them to the table in one transaction per
 batch and only then delete them. Each access to Redis and each transaction is a step, so
 increments and clock ticks fall between any two of them. Keys are pairs here; their text is in
 module MetricKeys.
 */
module UsageFlush {
  import opened Wrappers

  // ---------------------------------------------------------------- counters

  datatype Field = MessagesSent | MessagesReceived | ProofsVerified | BytesSent | BytesReceived | RateLimitHits

  /** The counters of a hash; a missing field counts as zero. */
  type Counters = map<Field, nat>

  function At(c: Counters, f: Field): nat {
    if f in c then c[f] else 0
  }

  function Plus(a: Counters, b: Counters): Counters {
    map f | f in a.Keys + b.Keys :: At(a, f) + At(b, f)
  }

  predicate IsZero(c: Counters) {
    forall f :: At(c, f) == 0
  }

  // ---------------------------------------------------------------- the two stores

  const HOUR: nat := 3600
  const DAY: nat := 86_400

  /** An API key and an hour, counted in hours since the epoch. */
  datatype Key = Key(apiKey: nat, hour: nat)

  datatype Hash = Hash(counters: Counters, processing: bool)

  /** A usage row; `flushes` counts the commits that went into it. */
  datatype Row = Row(counters: Counters, bytesStored: int, costCents: int, flushes: nat)

  datatype Entry = Entry(key: Key, counters: Counters)

  datatype Store = Store(hashes: map<Key, Hash>, active: set<Key>, rows: map<Key, Row>)

  function InRedis(st: Store, key: Key): Counters {
    if key in st.hashes then st.hashes[key].counters else map[]
  }

  function InPostgres(rows: map<Key, Row>, key: Key): Counters {
    if key in rows then rows[key].counters else map[]
  }

  /** SADD, HINCRBY for each field, EXPIRE. */
  function Increment(st: Store, key: Key, c: Counters): Store {
    st.(hashes := st.hashes[key := Hash(Plus(InRedis(st, key), c), key in st.hashes && st.hashes[key].processing)],
        active := st.active + {key})
  }

  function SetFlag(st: Store, key: Key, flag: bool): Store {
    if flag || key in st.hashes then st.(hashes := st.hashes[key := Hash(InRedis(st, key), flag)]) else st
  }

  /** SREM and DEL, each of which may not arrive. */
  function Drop(st: Store, key: Key, untracked: bool, deleted: bool): Store {
    st.(hashes := if deleted then st.hashes - {key} else st.hashes,
        active := if untracked then st.active - {key} else st.active)
  }

  // ---------------------------------------------------------------- cost

  /** The exact cost in millionths of a cent. */
  function ExactCost(c: Counters): int {
    At(c, MessagesSent) * 100_000 + (At(c, BytesSent) + At(c, BytesReceived)) + At(c, ProofsVerified) * 10_000
  }

  /** To the nearest cent, halves away from zero. */
  function RoundToCents(millionths: int): int {
    if millionths >= 0 then (millionths + 500_000) / 1_000_000 else -((500_000 - millionths) / 1_000_000)
  }

  // ---------------------------------------------------------------- one batch

  function NonZero(es: seq<Entry>): seq<Entry> {
    if es == [] then []
    else
      var kept := NonZero(es[..|es| - 1]);
      if IsZero(es[|es| - 1].counters) then kept else kept + [es[|es| - 1]]
  }

  predicate Distinct(es: seq<Entry>) {
    forall i, j :: 0 <= i < j < |es| ==> es[i].key != es[j].key
  }

  const NEW_ROW: Row := Row(map[], 0, 0, 0)

  /** What one flush adds: the bytes stored and the cost are worked out from the counters flushed. */
  function AddCounters(was: Row, c: Counters): Row {
    Row(Plus(was.counters, c), was.bytesStored + (At(c, BytesSent) + At(c, BytesReceived)),
        was.costCents + RoundToCents(ExactCost(c)), was.flushes + 1)
  }

  /** ON CONFLICT (api_key_id, period_start) DO UPDATE: every column is added to. */
  function AddToRow(rows: map<Key, Row>, e: Entry): map<Key, Row> {
    rows[e.key := AddCounters(if e.key in rows then rows[e.key] else NEW_ROW, e.counters)]
  }

  function Upsert(rows: map<Key, Row>, es: seq<Entry>): map<Key, Row> {
    if es == [] then rows else AddToRow(Upsert(rows, es[..|es| - 1]), es[|es| - 1])
  }

  /** A commit can take effect without its answer arriving, which the flusher takes for a failure. */
  datatype CommitOutcome = Committed | Unacknowledged | NotCommitted

  /** One INSERT cannot touch a row twice, so a key read twice makes the batch fail. */
  predicate Commits(es: seq<Entry>, outcome: CommitOutcome) {
    !outcome.NotCommitted? && Distinct(NonZero(es))
  }

  /** A batch without counters needs no transaction, so its deletes go on anyway. */
  predicate Acknowledged(es: seq<Entry>, outcome: CommitOutcome) {
    Commits(es, outcome) && (outcome.Committed? || NonZero(es) == [])
  }

  // ---------------------------------------------------------------- cycles, step by step

  /** Between batches `batch` grows; after a commit the keys of the batch are deleted one by one. */
  datatype Cycle =
    | Idle
    | Scanning(cutoff: nat, batch: seq<Entry>)
    | Deleting(cutoff: nat, todo: seq<Entry>)

  /** `made` is the history of all increments. */
  datatype System = System(store: Store, cycle: Cycle, now: nat, made: map<Key, Counters>)

  datatype ReadOutcome = Read | ReadFails | MarkTimesOut(applied: bool)

  datatype Event =
    | Tick(d: nat)
    | Incremented(key: Key, c: Counters)
    | Recover(key: Key)
    | Start(flushAll: bool)
    | Scan(key: Key, read: ReadOutcome)
    | Flush(outcome: CommitOutcome)
    | Delete(untracked: bool, deleted: bool)
    | Finish
    | Crash

  function Made(s: System, key: Key): Counters {
    if key in s.made then s.made[key] else map[]
  }

  function Cutoff(now: nat, flushAll: bool): nat {
    if flushAll then now + DAY else now / HOUR * HOUR
  }

  predicate BeforeCutoff(key: Key, cutoff: nat) {
    key.hour * HOUR < cutoff
  }

  function ScanKey(s: System, key: Key, outcome: ReadOutcome, maxBatch: nat): System {
    if !s.cycle.Scanning? || |s.cycle.batch| >= maxBatch || !BeforeCutoff(key, s.cycle.cutoff) then s
    else
      match outcome
      case MarkTimesOut(applied) => if applied then s.(store := SetFlag(s.store, key, true)) else s
      case ReadFails => s.(store := SetFlag(s.store, key, true))
      case Read =>
        s.(store := SetFlag(s.store, key, true),
           cycle := Scanning(s.cycle.cutoff, s.cycle.batch + [Entry(key, InRedis(s.store, key))]))
  }

  /** A batch that fails, or seems to, is dropped with its keys still in Redis. */
  function FlushBatch(s: System, outcome: CommitOutcome): System {
    if !s.cycle.Scanning? || s.cycle.batch == [] then s
    else
      var batch := s.cycle.batch;
      s.(store := if Commits(batch, outcome) then s.store.(rows := Upsert(s.store.rows, NonZero(batch))) else s.store,
         cycle := if Acknowledged(batch, outcome) then Deleting(s.cycle.cutoff, batch)
                  else Scanning(s.cycle.cutoff, []))
  }

  function DeleteNext(s: System, untracked: bool, deleted: bool): System {
    if !s.cycle.Deleting? || s.cycle.todo == [] then s
    else
      var rest := s.cycle.todo[1..];
      s.(store := Drop(s.store, s.cycle.todo[0].key, untracked, deleted),
         cycle := if rest == [] then Scanning(s.cycle.cutoff, []) else Deleting(s.cycle.cutoff, rest))
  }

  /**
   A crash loses what the flusher holds in memory; a cycle then begins by clearing the flags left behind.
   A scan may return any key, and more than once; a full batch is flushed before it goes on.
   */
  function Step(s: System, e: Event, maxBatch: nat): System {
    match e
    case Tick(d) => s.(now := s.now + d)
    case Incremented(key, c) =>
      s.(store := Increment(s.store, key, c), made := s.made[key := Plus(Made(s, key), c)])
    case Recover(key) => if s.cycle.Idle? then s.(store := SetFlag(s.store, key, false)) else s
    case Start(flushAll) => if s.cycle.Idle? then s.(cycle := Scanning(Cutoff(s.now, flushAll), [])) else s
    case Scan(key, read) => ScanKey(s, key, read, maxBatch)
    case Flush(outcome) => FlushBatch(s, outcome)
    case Delete(untracked, deleted) => DeleteNext(s, untracked, deleted)
    case Finish => if s.cycle.Scanning? && s.cycle.batch == [] then s.(cycle := Idle) else s
    case Crash => s.(cycle := Idle)
  }

  function Initial(now: nat): System {
    System(Store(map[], {}, map[]), Idle, now, map[])
  }

  function Run(now: nat, events: seq<Event>, maxBatch: nat): System {
    if events == [] then Initial(now)
    else Step(Run(now, events[..|events| - 1], maxBatch), events[|events| - 1], maxBatch)
  }

  function Entries(c: Cycle): seq<Entry> {
    match c
    case Idle => []
    case Scanning(_, batch) => batch
    case Deleting(_, todo) => todo
  }

  // ---------------------------------------------------------------- batches and rows of every run

  /** A batch never outgrows its size, so it is committed as a single chunk. */
  lemma {:induction false} BatchFits(now: nat, events: seq<Event>, maxBatch: nat)
    requires maxBatch > 0
    ensures |Entries(Run(now, events, maxBatch).cycle)| <= maxBatch
  {
    if events != [] {
      BatchFits(now, events[..|events| - 1], maxBatch);
    }
  }

  function Abs(x: int): nat {
    if x < 0 then -x else x
  }

  /** What is stored adds up, and the cost is off by at most half a cent per flush. */
  predicate SoundRow(r: Row) {
    && r.bytesStored == At(r.counters, BytesSent) + At(r.counters, BytesReceived)
    && Abs(r.costCents * 1_000_000 - ExactCost(r.counters)) <= r.flushes * 500_000
  }

  ghost predicate SoundRows(rows: map<Key, Row>) {
    forall k :: k in rows ==> SoundRow(rows[k])
  }

  lemma RoundingError(x: int)
    ensures Abs(RoundToCents(x) * 1_000_000 - x) <= 500_000
  {
  }

  lemma ErrorsAdd(stored: int, exact: int, flushes: nat, added: int)
    requires Abs(stored * 1_000_000 - exact) <= flushes * 500_000
    ensures Abs((stored + RoundToCents(added)) * 1_000_000 - (exact + added)) <= (flushes + 1) * 500_000
  {
    RoundingError(added);
  }

  lemma CostOfSum(a: Counters, b: Counters)
    ensures ExactCost(Plus(a, b)) == ExactCost(a) + ExactCost(b)
  {
    var sum := Plus(a, b);
    assert At(sum, MessagesSent) == At(a, MessagesSent) + At(b, MessagesSent);
    assert At(sum, BytesSent) == At(a, BytesSent) + At(b, BytesSent);
    assert At(sum, BytesReceived) == At(a, BytesReceived) + At(b, BytesReceived);
    assert At(sum, ProofsVerified) == At(a, ProofsVerified) + At(b, ProofsVerified);
  }

  lemma AddKeepsSound(was: Row, c: Counters)
    requires SoundRow(was)
    ensures SoundRow(AddCounters(was, c))
  {
    CostOfSum(was.counters, c);
    ErrorsAdd(was.costCents, ExactCost(was.counters), was.flushes, ExactCost(c));
    assert At(Plus(was.counters, c), BytesSent) == At(was.counters, BytesSent) + At(c, BytesSent);
    assert At(Plus(was.counters, c), BytesReceived) == At(was.counters, BytesReceived) + At(c, BytesReceived);
  }

  lemma PutKeepsSound(rows: map<Key, Row>, key: Key, row: Row)
    requires SoundRows(rows) && SoundRow(row)
    ensures SoundRows(rows[key := row])
  {
  }

  lemma {:induction false} UpsertKeepsSound(rows: map<Key, Row>, es: seq<Entry>)
    requires SoundRows(rows)
    ensures SoundRows(Upsert(rows, es))
  {
    if es == [] {
    } else {
      UpsertKeepsSound(rows, es[..|es| - 1]);
      var before, e := Upsert(rows, es[..|es| - 1]), es[|es| - 1];
      var was := if e.key in before then before[e.key] else NEW_ROW;
      AddKeepsSound(was, e.counters);
      PutKeepsSound(before, e.key, AddCounters(was, e.counters));
    }
  }

  lemma StepKeepsSound(s: System, e: Event, maxBatch: nat)
    requires SoundRows(s.store.rows)
    ensures SoundRows(Step(s, e, maxBatch).store.rows)
  {
    if e.Flush? && s.cycle.Scanning? {
      UpsertKeepsSound(s.store.rows, NonZero(s.cycle.batch));
    }
  }

  /**
   After k flushes into a row its stored cost is within k half cents of the exact one: a tenth of a cent a message,
   a cent a million bytes, a hundredth of a cent a proof. The bytes stored are those sent and received.
   */
  lemma CostIsClose(now: nat, events: seq<Event>, maxBatch: nat, key: Key)
    requires key in Run(now, events, maxBatch).store.rows
    ensures var r := Run(now, events, maxBatch).store.rows[key];
      var c := r.counters;
      var exact := At(c, MessagesSent) * 100_000 + At(c, BytesSent) + At(c, BytesReceived) +
                   At(c, ProofsVerified) * 10_000;
      && r.bytesStored == At(c, BytesSent) + At(c, BytesReceived)
      && -500_000 * r.flushes <= r.costCents * 1_000_000 - exact <= 500_000 * r.flushes
  {
    RunIsSound(now, events, maxBatch);
  }

  lemma {:induction false} RunIsSound(now: nat, events: seq<Event>, maxBatch: nat)
    ensures SoundRows(Run(now, events, maxBatch).store.rows)
  {
    if events != [] {
      RunIsSound(now, events[..|events| - 1], maxBatch);
      StepKeepsSound(Run(now, events[..|events| - 1], maxBatch), events[|events| - 1], maxBatch);
    }
  }

  const FIVE_SENT: Counters := map[MessagesSent := 5]

  lemma HalfCent()
    ensures ExactCost(FIVE_SENT) == 500_000 && RoundToCents(500_000) == 1
  {
  }

  /** No smaller bound holds: five messages cost half a cent, stored as a whole one at every flush. */
  lemma {:induction false} CostBoundIsReached(key: Key, k: nat)
    requires k > 0
    ensures var rows := Upsert(map[], Repeat(Entry(key, FIVE_SENT), k));
      && key in rows && rows[key].flushes == k && rows[key].costCents == k
      && ExactCost(rows[key].counters) == k * 500_000
  {
    HalfCent();
    var e := Entry(key, FIVE_SENT);
    assert Repeat(e, k)[..k - 1] == Repeat(e, k - 1);
    if k == 1 {
      CostOfSum(map[], FIVE_SENT);
    } else {
      CostBoundIsReached(key, k - 1);
      CostOfSum(Upsert(map[], Repeat(e, k - 1))[key].counters, FIVE_SENT);
    }
  }
}
