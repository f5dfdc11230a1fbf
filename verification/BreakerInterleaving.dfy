/**
 The circuit breaker under any interleaving of its separate loads, clock readings and stores. A
 thread runs one call at a time; every atomic access of the source is one step here.
 */
module BreakerInterleaving {
  import opened Bits
  import opened BreakerWord
  import CB = CircuitBreaker

  /** Where a thread is, with what it has loaded or read so far. */
  datatype Pc =
    | Idle
    | AllowLoaded(word: nat)
    | TimeoutElapsed
    | HalfOpenTimed(now: nat)
    | HalfOpenStored
    | Guarded
    | SuccessLoaded(word: nat)
    | ClosedStored
    | FailureLoaded(word: nat)
    | FailureTimed(word: nat, now: nat)

  /** One store to the packed word: what was packed, and the word. */
  datatype Store = Store(packed: Fields, word: nat)

  /** The shared words and the threads, and what has been stored and recorded so far. */
  datatype Shared = Shared(word: nat, calls: nat, clock: nat, threads: map<nat, Pc>, stores: seq<Store>, recorded: nat)

  const INITIAL := Shared(0, 0, 0, map[], [], 0)

  datatype Event =
    | Allow(thread: nat)
    | Report(thread: nat, ok: bool)
    | Drop(thread: nat)
    | Advance(thread: nat)
    | Tick(seconds: nat)

  function At(s: Shared, t: nat): Pc {
    if t in s.threads then s.threads[t] else Idle
  }

  function Goto(s: Shared, t: nat, pc: Pc): Shared {
    s.(threads := s.threads[t := pc])
  }

  function StoreWord(s: Shared, packed: Fields): Shared {
    var word := PackState(packed.state, packed.count, packed.last);
    s.(word := word, stores := s.stores + [Store(packed, word)])
  }

  /** The fields that `record_failure` packs, from the word it loaded and the clock it read. */
  function FailureFields(word: nat, now: nat, cfg: CB.Config): Fields {
    var count := UnpackFailureCount(word) + 1;
    Fields(if count >= cfg.threshold then Open else UnpackState(word), count, now)
  }

  /** The next atomic access of a thread. */
  function Next(s: Shared, t: nat, cfg: CB.Config): Shared {
    match At(s, t)
    case Idle => s
    case Guarded => s
    case AllowLoaded(w) =>
      (match UnpackState(w)
       case Closed => Goto(s, t, Guarded)
       case Open =>
         Goto(s, t, if CB.Elapsed(s.clock, UnpackLastFailure(w)) > cfg.timeout then TimeoutElapsed else Idle)
       case HalfOpen =>
         Goto(s.(calls := (s.calls + 1) % WORD), t, if s.calls < CB.HALF_OPEN_MAX_CALLS then Guarded else Idle))
    case TimeoutElapsed => Goto(s, t, HalfOpenTimed(s.clock))
    case HalfOpenTimed(now) => Goto(StoreWord(s, Fields(HalfOpen, 0, now)), t, HalfOpenStored)
    case HalfOpenStored => Goto(s.(calls := 0), t, Guarded)
    case SuccessLoaded(w) =>
      (match UnpackState(w)
       case HalfOpen => Goto(StoreWord(s, Fields(Closed, 0, 0)), t, ClosedStored)
       case Closed => Goto(StoreWord(s, Fields(Closed, 0, 0)), t, Idle)
       case Open => Goto(s, t, Idle))
    case ClosedStored => Goto(s.(calls := 0), t, Idle)
    case FailureLoaded(w) => Goto(s, t, FailureTimed(w, s.clock))
    case FailureTimed(w, now) => Goto(StoreWord(s, FailureFields(w, now, cfg)), t, Idle)
  }

  function Step(s: Shared, e: Event, cfg: CB.Config): Shared {
    match e
    case Allow(t) => if At(s, t).Idle? then Goto(s, t, AllowLoaded(s.word)) else s
    case Report(t, ok) =>
      if !At(s, t).Guarded? then s
      else if ok then Goto(s, t, SuccessLoaded(s.word))
      else Goto(s.(recorded := s.recorded + 1), t, FailureLoaded(s.word))
    case Drop(t) => if At(s, t).Guarded? then Goto(s, t, Idle) else s
    case Advance(t) => Next(s, t, cfg)
    case Tick(d) => s.(clock := s.clock + d)
  }

  function Run(events: seq<Event>, cfg: CB.Config): Shared {
    if events == [] then INITIAL else Step(Run(events[..|events| - 1], cfg), events[|events| - 1], cfg)
  }

  // ---------------------------------------------------------------- the invariant

  /** A sound word: open exactly at the threshold, and counting no more than was recorded. */
  predicate Sound(word: nat, recorded: int, clock: nat, cfg: CB.Config) {
    && (UnpackState(word).Open? <==> UnpackFailureCount(word) >= cfg.threshold)
    && UnpackFailureCount(word) <= recorded
    && UnpackLastFailure(word) <= clock
  }

  predicate SoundPc(pc: Pc, recorded: nat, clock: nat, cfg: CB.Config) {
    match pc
    case AllowLoaded(w) => Sound(w, recorded, clock, cfg)
    case SuccessLoaded(w) => Sound(w, recorded, clock, cfg)
    case HalfOpenTimed(now) => now <= clock
    case FailureLoaded(w) => Sound(w, recorded - 1, clock, cfg)
    case FailureTimed(w, now) => Sound(w, recorded - 1, clock, cfg) && now <= clock
    case _ => true
  }

  /** A store that decodes to what was packed, and is sound. */
  predicate SoundStore(st: Store, recorded: nat, clock: nat, cfg: CB.Config) {
    Unpack(st.word) == st.packed && Sound(st.word, recorded, clock, cfg)
  }

  ghost predicate Inv(s: Shared, cfg: CB.Config) {
    && Sound(s.word, s.recorded, s.clock, cfg)
    && (forall t :: t in s.threads ==> SoundPc(s.threads[t], s.recorded, s.clock, cfg))
    && (forall i :: 0 <= i < |s.stores| ==> SoundStore(s.stores[i], s.recorded, s.clock, cfg))
    && s.word == (if s.stores == [] then 0 else s.stores[|s.stores| - 1].word)
  }

  lemma InitialInv(cfg: CB.Config)
    requires cfg.threshold >= 1
    ensures Inv(INITIAL, cfg)
  {
    ZeroWord();
  }

  lemma GotoKeepsInv(s: Shared, t: nat, pc: Pc, cfg: CB.Config)
    requires Inv(s, cfg) && SoundPc(pc, s.recorded, s.clock, cfg)
    ensures Inv(Goto(s, t, pc), cfg)
  {
  }

  lemma PackedIsSound(packed: Fields, recorded: nat, clock: nat, cfg: CB.Config)
    requires packed.count < COUNT_UNIT && packed.last < TIME_UNIT
    requires packed.state.Open? <==> packed.count >= cfg.threshold
    requires packed.count <= recorded && packed.last <= clock
    ensures var word := PackState(packed.state, packed.count, packed.last);
      SoundStore(Store(packed, word), recorded, clock, cfg)
  {
    PackThenUnpack(packed.state, packed.count, packed.last);
  }

  lemma AppendStore(s: Shared, st: Store, cfg: CB.Config)
    requires Inv(s, cfg) && SoundStore(st, s.recorded, s.clock, cfg)
    ensures Inv(s.(word := st.word, stores := s.stores + [st]), cfg)
  {
    forall i | 0 <= i < |s.stores| ensures SoundStore(s.stores[i], s.recorded, s.clock, cfg) {
    }
  }

  lemma StoreKeepsInv(s: Shared, packed: Fields, cfg: CB.Config)
    requires Inv(s, cfg) && packed.count < COUNT_UNIT && packed.last < TIME_UNIT
    requires packed.state.Open? <==> packed.count >= cfg.threshold
    requires packed.count <= s.recorded && packed.last <= s.clock
    ensures Inv(StoreWord(s, packed), cfg)
  {
    PackedIsSound(packed, s.recorded, s.clock, cfg);
    AppendStore(s, Store(packed, PackState(packed.state, packed.count, packed.last)), cfg);
  }

  /** More recorded failures or a later clock leave every word sound. */
  lemma LaterKeepsInv(s: Shared, recorded: nat, clock: nat, cfg: CB.Config)
    requires Inv(s, cfg) && s.recorded <= recorded && s.clock <= clock
    ensures Inv(s.(recorded := recorded, clock := clock), cfg)
  {
  }

  /** The stores of a thread are of sound fields. */
  lemma AdvanceStores(s: Shared, t: nat, packed: Fields, pc: Pc, cfg: CB.Config)
    requires Inv(s, cfg) && SoundPc(pc, s.recorded, s.clock, cfg)
    requires packed.count < COUNT_UNIT && packed.last < TIME_UNIT
    requires packed.state.Open? <==> packed.count >= cfg.threshold
    requires packed.count <= s.recorded && packed.last <= s.clock
    ensures Inv(Goto(StoreWord(s, packed), t, pc), cfg)
  {
    StoreKeepsInv(s, packed, cfg);
    GotoKeepsInv(StoreWord(s, packed), t, pc, cfg);
  }

  lemma AdvanceKeepsInv(s: Shared, t: nat, cfg: CB.Config)
    requires Inv(s, cfg) && cfg.threshold >= 1 && s.recorded < COUNT_UNIT && s.clock < TIME_UNIT
    ensures Inv(Next(s, t, cfg), cfg)
  {
    var pc := At(s, t);
    assert SoundPc(pc, s.recorded, s.clock, cfg);
    match pc
    case Idle =>
    case Guarded =>
    case AllowLoaded(w) => AdvanceAllow(s, t, w, cfg);
    case TimeoutElapsed => GotoKeepsInv(s, t, HalfOpenTimed(s.clock), cfg);
    case HalfOpenTimed(now) => AdvanceStores(s, t, Fields(HalfOpen, 0, now), HalfOpenStored, cfg);
    case HalfOpenStored => GotoKeepsInv(s.(calls := 0), t, Guarded, cfg);
    case SuccessLoaded(w) => AdvanceSuccess(s, t, w, cfg);
    case ClosedStored => GotoKeepsInv(s.(calls := 0), t, Idle, cfg);
    case FailureLoaded(w) => GotoKeepsInv(s, t, FailureTimed(w, s.clock), cfg);
    case FailureTimed(w, now) => AdvanceStores(s, t, FailureFields(w, now, cfg), Idle, cfg);
  }

  lemma AdvanceAllow(s: Shared, t: nat, w: nat, cfg: CB.Config)
    requires Inv(s, cfg) && At(s, t) == AllowLoaded(w)
    ensures Inv(Next(s, t, cfg), cfg)
  {
    var counted := s.(calls := (s.calls + 1) % WORD);
    GotoKeepsInv(s, t, Guarded, cfg);
    GotoKeepsInv(s, t, Idle, cfg);
    GotoKeepsInv(s, t, TimeoutElapsed, cfg);
    GotoKeepsInv(counted, t, Guarded, cfg);
    GotoKeepsInv(counted, t, Idle, cfg);
  }

  lemma AdvanceSuccess(s: Shared, t: nat, w: nat, cfg: CB.Config)
    requires Inv(s, cfg) && At(s, t) == SuccessLoaded(w) && cfg.threshold >= 1
    ensures Inv(Next(s, t, cfg), cfg)
  {
    AdvanceStores(s, t, Fields(Closed, 0, 0), ClosedStored, cfg);
    AdvanceStores(s, t, Fields(Closed, 0, 0), Idle, cfg);
    GotoKeepsInv(s, t, Idle, cfg);
  }

  lemma ReportKeepsInv(s: Shared, t: nat, ok: bool, cfg: CB.Config)
    requires Inv(s, cfg) && At(s, t).Guarded?
    ensures Inv(Step(s, Report(t, ok), cfg), cfg)
  {
    if ok {
      GotoKeepsInv(s, t, SuccessLoaded(s.word), cfg);
    } else {
      LaterKeepsInv(s, s.recorded + 1, s.clock, cfg);
      GotoKeepsInv(s.(recorded := s.recorded + 1), t, FailureLoaded(s.word), cfg);
    }
  }

  lemma StepKeepsInv(s: Shared, e: Event, cfg: CB.Config)
    requires Inv(s, cfg) && cfg.threshold >= 1 && s.recorded < COUNT_UNIT && s.clock < TIME_UNIT
    ensures Inv(Step(s, e, cfg), cfg)
  {
    match e
    case Allow(t) => GotoKeepsInv(s, t, AllowLoaded(s.word), cfg);
    case Report(t, ok) =>
      if At(s, t).Guarded? {
        ReportKeepsInv(s, t, ok, cfg);
      }
    case Drop(t) => GotoKeepsInv(s, t, Idle, cfg);
    case Advance(t) => AdvanceKeepsInv(s, t, cfg);
    case Tick(d) => LaterKeepsInv(s, s.recorded, s.clock + d, cfg);
  }

  lemma Grows(s: Shared, e: Event, cfg: CB.Config)
    ensures s.recorded <= Step(s, e, cfg).recorded && s.clock <= Step(s, e, cfg).clock
  {
  }

  lemma {:induction false} RunInv(events: seq<Event>, cfg: CB.Config)
    requires cfg.threshold >= 1
    requires Run(events, cfg).recorded < COUNT_UNIT && Run(events, cfg).clock < TIME_UNIT
    ensures Inv(Run(events, cfg), cfg)
  {
    if events == [] {
      InitialInv(cfg);
    } else {
      var rest, e := events[..|events| - 1], events[|events| - 1];
      Grows(Run(rest, cfg), e, cfg);
      RunInv(rest, cfg);
      StepKeepsInv(Run(rest, cfg), e, cfg);
    }
  }

  predicate SoundHistory(s: Shared, cfg: CB.Config) {
    forall i :: 0 <= i < |s.stores| ==>
      && Unpack(s.stores[i].word) == s.stores[i].packed
      && (s.stores[i].packed.state.Open? <==> s.stores[i].packed.count >= cfg.threshold)
      && s.stores[i].packed.count <= s.recorded
      && s.stores[i].packed.last <= s.clock
  }

  /** No subtraction of a stored time from the clock, now or later, goes below zero. */
  predicate NoUnderflow(s: Shared) {
    && UnpackLastFailure(s.word) <= s.clock
    && forall t :: t in s.threads && s.threads[t].AllowLoaded? ==> UnpackLastFailure(s.threads[t].word) <= s.clock
  }

  /**
   Whatever the interleaving, with fewer than 2^30 recorded failures and a clock below 2^32: every
   word ever stored decodes to what was packed and is open exactly when its count has reached the
   threshold; the shared word is zero or the last of them; and no timeout check underflows.
   */
  lemma EveryStoreIsSound(events: seq<Event>, cfg: CB.Config)
    requires cfg.threshold >= 1
    requires Run(events, cfg).recorded < COUNT_UNIT && Run(events, cfg).clock < TIME_UNIT
    ensures var s := Run(events, cfg);
      && SoundHistory(s, cfg)
      && s.word == (if s.stores == [] then 0 else s.stores[|s.stores| - 1].word)
      && NoUnderflow(s)
  {
    RunInv(events, cfg);
    HistoryOfInv(Run(events, cfg), cfg);
  }

  lemma HistoryOfInv(s: Shared, cfg: CB.Config)
    requires Inv(s, cfg)
    ensures SoundHistory(s, cfg) && NoUnderflow(s)
  {
    forall i | 0 <= i < |s.stores|
      ensures Unpack(s.stores[i].word) == s.stores[i].packed
      ensures Sound(s.stores[i].word, s.recorded, s.clock, cfg)
    {
      assert SoundStore(s.stores[i], s.recorded, s.clock, cfg);
    }
    forall t | t in s.threads && s.threads[t].AllowLoaded?
      ensures UnpackLastFailure(s.threads[t].word) <= s.clock
    {
      assert SoundPc(s.threads[t], s.recorded, s.clock, cfg);
    }
  }

  // ---------------------------------------------------------------- what a failure stores

  /** A failure report works on the word that was shared when it was made. */
  lemma {:induction false} LoadedWhen(events: seq<Event>, t: nat, cfg: CB.Config) returns (l: nat)
    requires At(Run(events, cfg), t).FailureLoaded?
    ensures l < |events| && events[l] == Report(t, false) && At(Run(events[..l], cfg), t).Guarded?
    ensures At(Run(events, cfg), t).word == Run(events[..l], cfg).word
  {
    var n := |events| - 1;
    var s := Run(events[..n], cfg);
    if At(s, t).FailureLoaded? && events[n] != Advance(t) {
      l := LoadedWhen(events[..n], t, cfg);
      assert events[..n][..l] == events[..l];
      OthersLeave(s, events[n], t, cfg);
    } else {
      l := n;
      FailureBegins(s, events[n], t, cfg);
    }
  }

  /** A thread that is reporting a failure moves by its own next access alone. */
  lemma OthersLeave(s: Shared, e: Event, t: nat, cfg: CB.Config)
    requires (At(s, t).FailureLoaded? || At(s, t).FailureTimed?) && e != Advance(t)
    ensures At(Step(s, e, cfg), t) == At(s, t)
  {
  }

  lemma FailureBegins(s: Shared, e: Event, t: nat, cfg: CB.Config)
    requires At(Step(s, e, cfg), t).FailureLoaded? && (At(s, t).FailureLoaded? ==> e == Advance(t))
    ensures e == Report(t, false) && At(s, t).Guarded? && At(Step(s, e, cfg), t) == FailureLoaded(s.word)
  {
  }

  lemma FailureIsTimed(s: Shared, e: Event, t: nat, cfg: CB.Config)
    requires At(Step(s, e, cfg), t).FailureTimed? && (At(s, t).FailureTimed? ==> e == Advance(t))
    ensures e == Advance(t) && At(s, t).FailureLoaded?
    ensures At(Step(s, e, cfg), t) == FailureTimed(At(s, t).word, s.clock)
  {
  }

  lemma {:induction false} TimedWhen(events: seq<Event>, t: nat, cfg: CB.Config) returns (l: nat, k: nat)
    requires At(Run(events, cfg), t).FailureTimed?
    ensures l < k < |events| && events[l] == Report(t, false) && events[k] == Advance(t)
    ensures At(Run(events, cfg), t) == FailureTimed(Run(events[..l], cfg).word, Run(events[..k], cfg).clock)
    ensures At(Run(events[..l], cfg), t).Guarded?
  {
    var n := |events| - 1;
    var s := Run(events[..n], cfg);
    if At(s, t).FailureTimed? && events[n] != Advance(t) {
      l, k := TimedWhen(events[..n], t, cfg);
      assert events[..n][..l] == events[..l] && events[..n][..k] == events[..k];
      OthersLeave(s, events[n], t, cfg);
    } else {
      FailureIsTimed(s, events[n], t, cfg);
      k := n;
      l := LoadedWhen(events[..n], t, cfg);
      assert events[..n][..l] == events[..l];
    }
  }

  /**
   In every interleaving, what a failure report stores is worked out from the word that was shared when the report
   was made and the clock at the access in which this thread read it: the count one higher, the breaker open at the
   threshold and otherwise in the state it was in.
   */
  lemma FailureStores(events: seq<Event>, t: nat, cfg: CB.Config) returns (l: nat, k: nat)
    requires At(Run(events, cfg), t).FailureTimed?
    ensures l < k < |events| && events[l] == Report(t, false) && events[k] == Advance(t)
    ensures var s, s' := Run(events, cfg), Step(Run(events, cfg), Advance(t), cfg);
      var loaded := Run(events[..l], cfg).word;
      var count := UnpackFailureCount(loaded) + 1;
      var state := if count >= cfg.threshold then Open else UnpackState(loaded);
      var clock := Run(events[..k], cfg).clock;
      && s'.stores == s.stores + [Store(Fields(state, count, clock), PackState(state, count, clock))]
      && s'.word == PackState(state, count, clock)
      && At(s', t).Idle?
  {
    l, k := TimedWhen(events, t, cfg);
  }

  // ---------------------------------------------------------------- a call that nobody interrupts

  function View(s: Shared): CB.Breaker {
    CB.Breaker(UnpackState(s.word), UnpackFailureCount(s.word), UnpackLastFailure(s.word), s.calls)
  }

  function Steps(s: Shared, t: nat, n: nat, cfg: CB.Config): Shared {
    if n == 0 then s else Next(Steps(s, t, n - 1, cfg), t, cfg)
  }

  /** Run without interruption, the accesses of `record_failure` make up the sequential call. */
  lemma AloneFailure(s: Shared, t: nat, cfg: CB.Config)
    requires At(s, t).Guarded? && UnpackFailureCount(s.word) + 1 < COUNT_UNIT
    ensures var s' := Steps(Step(s, Report(t, false), cfg), t, 2, cfg);
      && At(s', t).Idle?
      && View(s') == CB.Failure(View(s), s.clock, cfg)
  {
    var fields := FailureFields(s.word, s.clock, cfg);
    PackThenUnpack(fields.state, fields.count, fields.last);
    var s0 := Step(s, Report(t, false), cfg);
    var s1 := Next(s0, t, cfg);
    assert Steps(s0, t, 1, cfg) == s1;
    assert Steps(s0, t, 2, cfg) == Next(s1, t, cfg);
  }

  lemma AloneSuccess(s: Shared, t: nat, cfg: CB.Config)
    requires At(s, t).Guarded?
    ensures var s' := Steps(Step(s, Report(t, true), cfg), t, 2, cfg);
      && At(s', t).Idle?
      && View(s') == CB.Success(View(s))
  {
    ZeroWord();
    var s0 := Step(s, Report(t, true), cfg);
    var s1 := Next(s0, t, cfg);
    assert Steps(s0, t, 1, cfg) == s1;
    assert Steps(s0, t, 2, cfg) == Next(s1, t, cfg);
  }

  /** A guard dropped without a report touches neither word, and no other thread. */
  lemma AloneDrop(s: Shared, t: nat, other: nat, cfg: CB.Config)
    requires At(s, t).Guarded?
    ensures var s' := Step(s, Drop(t), cfg);
      At(s', t).Idle? && View(s') == View(s) && s'.stores == s.stores && (other != t ==> At(s', other) == At(s, other))
  {
  }

  lemma AloneAllow(s: Shared, t: nat, cfg: CB.Config)
    requires At(s, t).Idle?
    ensures var s' := Steps(Step(s, Allow(t), cfg), t, 4, cfg);
      var (b, ok) := CB.Allow(View(s), s.clock, cfg);
      && View(s') == b
      && (if ok then At(s', t).Guarded? else At(s', t).Idle?)
  {
    var s0 := Step(s, Allow(t), cfg);
    var s1 := Next(s0, t, cfg);
    FourSteps(s0, t, cfg);
    if At(s1, t).TimeoutElapsed? {
      AloneTransition(s1, t, cfg);
    }
  }

  lemma FourSteps(s: Shared, t: nat, cfg: CB.Config)
    ensures Steps(s, t, 4, cfg) == Next(Next(Next(Next(s, t, cfg), t, cfg), t, cfg), t, cfg)
  {
    var s1 := Next(s, t, cfg);
    var s2 := Next(s1, t, cfg);
    assert Steps(s, t, 1, cfg) == s1;
    assert Steps(s, t, 2, cfg) == s2;
    assert Steps(s, t, 3, cfg) == Next(s2, t, cfg);
  }

  lemma AloneTransition(s: Shared, t: nat, cfg: CB.Config)
    requires At(s, t).TimeoutElapsed?
    ensures var s' := Next(Next(Next(s, t, cfg), t, cfg), t, cfg);
      View(s') == CB.Breaker(HalfOpen, 0, s.clock % TIME_UNIT, 0) && At(s', t).Guarded?
  {
    PackThenUnpack(HalfOpen, 0, s.clock);
    assert At(Next(s, t, cfg), t) == HalfOpenTimed(s.clock);
  }

  // ---------------------------------------------------------------- a herd at an open breaker

  /** The first `n` threads have loaded an open word whose timeout has passed. */
  predicate Herd(s: Shared, n: nat, cfg: CB.Config) {
    forall t: nat :: t < n ==> AtOpen(s, t, cfg)
  }

  predicate AtOpen(s: Shared, t: nat, cfg: CB.Config) {
    && At(s, t).AllowLoaded? && UnpackState(At(s, t).word).Open?
    && CB.Elapsed(s.clock, UnpackLastFailure(At(s, t).word)) > cfg.timeout
  }

  /** Each of the first `n` threads in turn goes on to the end of its request. */
  function LetThrough(s: Shared, n: nat, cfg: CB.Config): Shared {
    if n == 0 then s else Steps(LetThrough(s, n - 1, cfg), n - 1, 4, cfg)
  }

  lemma ThroughOne(s: Shared, t: nat, cfg: CB.Config)
    requires AtOpen(s, t, cfg)
    ensures var s' := Steps(s, t, 4, cfg);
      && At(s', t).Guarded? && s'.clock == s.clock
      && forall u :: u != t ==> At(s', u) == At(s, u)
  {
    var s1 := Next(s, t, cfg);
    assert Steps(s, t, 1, cfg) == s1;
    var s2 := Next(s1, t, cfg);
    assert Steps(s, t, 2, cfg) == s2;
    var s3 := Next(s2, t, cfg);
    assert Steps(s, t, 3, cfg) == s3;
  }

  /** Any number of threads that load the same open word get a guard each: an episode has no bound then. */
  lemma {:induction false} HerdIsGuarded(s: Shared, n: nat, cfg: CB.Config)
    requires Herd(s, n, cfg)
    ensures var s' := LetThrough(s, n, cfg);
      && (forall t: nat :: t < n ==> At(s', t).Guarded?)
      && (forall t: nat :: t >= n ==> At(s', t) == At(s, t))
      && s'.clock == s.clock
  {
    if n > 0 {
      HerdIsGuarded(s, n - 1, cfg);
      assert AtOpen(s, n - 1, cfg);
      ThroughOne(LetThrough(s, n - 1, cfg), n - 1, cfg);
    }
  }

  lemma RunSnoc(events: seq<Event>, e: Event, cfg: CB.Config)
    ensures Run(events + [e], cfg) == Step(Run(events, cfg), e, cfg)
  {
    assert (events + [e])[..|events|] == events;
  }

  /** An access of one thread changes neither the clock nor where the others are. */
  lemma NextIsLocal(s: Shared, t: nat, cfg: CB.Config)
    ensures var s' := Next(s, t, cfg); s'.clock == s.clock && forall u :: u != t ==> At(s', u) == At(s, u)
  {
    match At(s, t)
    case Idle =>
    case Guarded =>
    case AllowLoaded(w) =>
    case TimeoutElapsed =>
    case HalfOpenTimed(_) =>
    case HalfOpenStored =>
    case SuccessLoaded(w) =>
    case ClosedStored =>
    case FailureLoaded(_) =>
    case FailureTimed(_, _) =>
  }

  /** Nobody runs, and `k` failures have been recorded in second zero. */
  ghost predicate Failed(s: Shared, k: nat, cfg: CB.Config) {
    && UnpackState(s.word) == (if k >= cfg.threshold then Open else Closed)
    && UnpackFailureCount(s.word) == k && UnpackLastFailure(s.word) == 0
    && s.clock == 0 && forall t :: At(s, t).Idle?
  }

  lemma GetsGuard(s: Shared, t: nat, cfg: CB.Config)
    requires At(s, t).Idle? && UnpackState(s.word).Closed?
    ensures var s' := Next(Step(s, Allow(t), cfg), t, cfg);
      && At(s', t).Guarded? && s'.word == s.word && s'.clock == s.clock
      && forall u :: u != t ==> At(s', u) == At(s, u)
  {
    var s0 := Goto(s, t, AllowLoaded(s.word));
    assert Step(s, Allow(t), cfg) == s0;
    assert Next(s0, t, cfg) == Goto(s0, t, Guarded);
  }

  lemma TwoSteps(s: Shared, t: nat, cfg: CB.Config)
    ensures Steps(s, t, 2, cfg) == Next(Next(s, t, cfg), t, cfg)
  {
    assert Steps(s, t, 1, cfg) == Next(s, t, cfg);
  }

  lemma ReportsFailure(s: Shared, k: nat, t: nat, cfg: CB.Config)
    requires UnpackState(s.word).Closed? && UnpackFailureCount(s.word) == k && s.clock == 0
    requires k + 1 < COUNT_UNIT && At(s, t).Guarded?
    ensures var s' := Next(Next(Step(s, Report(t, false), cfg), t, cfg), t, cfg);
      && At(s', t).Idle? && UnpackState(s'.word) == (if k + 1 >= cfg.threshold then Open else Closed)
      && UnpackFailureCount(s'.word) == k + 1 && UnpackLastFailure(s'.word) == 0
  {
    AloneFailure(s, t, cfg);
    TwoSteps(Step(s, Report(t, false), cfg), t, cfg);
  }

  lemma FailsOnce(s: Shared, k: nat, t: nat, cfg: CB.Config)
    requires UnpackState(s.word).Closed? && UnpackFailureCount(s.word) == k && s.clock == 0
    requires k < cfg.threshold && k + 1 < COUNT_UNIT
    requires At(s, t).Guarded? && forall u :: u != t ==> At(s, u).Idle?
    ensures Failed(Next(Next(Step(s, Report(t, false), cfg), t, cfg), t, cfg), k + 1, cfg)
  {
    var s0 := Goto(s.(recorded := s.recorded + 1), t, FailureLoaded(s.word));
    assert Step(s, Report(t, false), cfg) == s0;
    ReportsFailure(s, k, t, cfg);
    LocalTwice(s0, t, cfg);
    forall u | u != t ensures At(s0, u) == At(s, u) {
    }
  }

  lemma LocalTwice(s: Shared, t: nat, cfg: CB.Config)
    ensures var s' := Next(Next(s, t, cfg), t, cfg);
      s'.clock == s.clock && forall u :: u != t ==> At(s', u) == At(s, u)
  {
    NextIsLocal(s, t, cfg);
    NextIsLocal(Next(s, t, cfg), t, cfg);
  }

  /** A request that is let through and fails. */
  function FailedCall(events: seq<Event>, t: nat): seq<Event> {
    events + [Allow(t)] + [Advance(t)] + [Report(t, false)] + [Advance(t)] + [Advance(t)]
  }

  lemma FailedCallRuns(events: seq<Event>, t: nat, cfg: CB.Config)
    ensures var s := Next(Step(Run(events, cfg), Allow(t), cfg), t, cfg);
      Run(FailedCall(events, t), cfg) == Next(Next(Step(s, Report(t, false), cfg), t, cfg), t, cfg)
  {
    var e2 := events + [Allow(t)] + [Advance(t)];
    RunSnoc(events, Allow(t), cfg);
    RunSnoc(events + [Allow(t)], Advance(t), cfg);
    RunSnoc(e2, Report(t, false), cfg);
    RunSnoc(e2 + [Report(t, false)], Advance(t), cfg);
    RunSnoc(e2 + [Report(t, false)] + [Advance(t)], Advance(t), cfg);
  }

  lemma CallFails(s: Shared, k: nat, cfg: CB.Config)
    requires Failed(s, k, cfg) && k < cfg.threshold && k + 1 < COUNT_UNIT
    ensures var s2 := Next(Step(s, Allow(0), cfg), 0, cfg);
      Failed(Next(Next(Step(s2, Report(0, false), cfg), 0, cfg), 0, cfg), k + 1, cfg)
  {
    GetsGuard(s, 0, cfg);
    FailsOnce(Next(Step(s, Allow(0), cfg), 0, cfg), k, 0, cfg);
  }

  function Failing(k: nat): seq<Event> {
    if k == 0 then [] else FailedCall(Failing(k - 1), 0)
  }

  lemma {:induction false} FailingRuns(k: nat, cfg: CB.Config)
    requires 1 <= cfg.threshold < COUNT_UNIT && k <= cfg.threshold
    ensures Failed(Run(Failing(k), cfg), k, cfg)
  {
    if k == 0 {
      ZeroWord();
    } else {
      FailingRuns(k - 1, cfg);
      FailedCallRuns(Failing(k - 1), 0, cfg);
      CallFails(Run(Failing(k - 1), cfg), k - 1, cfg);
    }
  }

  /** The breaker opens, its timeout passes, and the first `n` threads load its word. */
  function Gathering(n: nat, cfg: CB.Config): seq<Event> {
    if n == 0 then Failing(cfg.threshold) + [Tick(cfg.timeout + 1)]
    else Gathering(n - 1, cfg) + [Allow(n - 1)]
  }

  /** Waiting threads: those below `n` have loaded the open word, the others do nothing. */
  ghost predicate Gathered(s: Shared, n: nat, cfg: CB.Config) {
    && Herd(s, n, cfg) && (forall t: nat :: t >= n ==> At(s, t).Idle?)
    && UnpackState(s.word).Open? && CB.Elapsed(s.clock, UnpackLastFailure(s.word)) > cfg.timeout
  }

  lemma OneMoreLoads(s: Shared, n: nat, cfg: CB.Config)
    requires Gathered(s, n, cfg)
    ensures Gathered(Step(s, Allow(n), cfg), n + 1, cfg)
  {
    var s' := Goto(s, n, AllowLoaded(s.word));
    assert Step(s, Allow(n), cfg) == s';
    forall t: nat | t < n + 1 ensures AtOpen(s', t, cfg) {
      if t < n {
        assert AtOpen(s, t, cfg) && At(s', t) == At(s, t);
      }
    }
    forall t: nat | t >= n + 1 ensures At(s', t).Idle? {
      assert At(s', t) == At(s, t);
    }
  }

  lemma TimeoutPasses(s: Shared, cfg: CB.Config)
    requires Failed(s, cfg.threshold, cfg)
    ensures Gathered(Step(s, Tick(cfg.timeout + 1), cfg), 0, cfg)
  {
    var s' := s.(clock := cfg.timeout + 1);
    assert Step(s, Tick(cfg.timeout + 1), cfg) == s';
    forall t: nat ensures At(s', t).Idle? {
      assert At(s', t) == At(s, t);
    }
  }

  lemma FirstGathers(cfg: CB.Config)
    requires 1 <= cfg.threshold < COUNT_UNIT
    ensures Gathered(Run(Gathering(0, cfg), cfg), 0, cfg)
  {
    FailingRuns(cfg.threshold, cfg);
    RunSnoc(Failing(cfg.threshold), Tick(cfg.timeout + 1), cfg);
    TimeoutPasses(Run(Failing(cfg.threshold), cfg), cfg);
  }

  lemma {:induction false} HerdGathers(n: nat, cfg: CB.Config)
    requires 1 <= cfg.threshold < COUNT_UNIT
    ensures Gathered(Run(Gathering(n, cfg), cfg), n, cfg)
  {
    if n == 0 {
      FirstGathers(cfg);
    } else {
      HerdGathers(n - 1, cfg);
      RunSnoc(Gathering(n - 1, cfg), Allow(n - 1), cfg);
      OneMoreLoads(Run(Gathering(n - 1, cfg), cfg), n - 1, cfg);
    }
  }

  /** From a new breaker, any number of threads come to load the same open word, and all are let through. */
  lemma HerdIsReached(n: nat, cfg: CB.Config)
    requires 1 <= cfg.threshold < COUNT_UNIT
    ensures var s := Run(Gathering(n, cfg), cfg);
      forall t: nat :: t < n ==> At(LetThrough(s, n, cfg), t).Guarded?
  {
    HerdGathers(n, cfg);
    HerdIsGuarded(Run(Gathering(n, cfg), cfg), n, cfg);
  }
}
