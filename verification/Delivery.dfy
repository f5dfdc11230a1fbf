/**
 Counting a delivery once: fetches that verify a message, win or lose its counted flag in Redis,
 and meter it when they win. Every access to Redis is a step of its own and may fail before or after
 it took effect, and any number of fetches handle the same message at any time.
 */
module Delivery {
  import opened Wrappers

  type MsgId = nat
  type FetchId = nat

  const RETRIES: nat := 3
  const COUNTED_TTL: nat := 86_400

  /** `signatureValid` is what the signature check would say. */
  datatype Message = Message(id: MsgId, requireProof: bool, signature: Option<string>, signatureValid: bool)

  datatype Path = RedisHit | SqlFallback

  /** The check on the Redis path and its static twin on the SQL path, which asks for a signature first. */
  predicate Verifies(path: Path, m: Message) {
    match path
    case RedisHit => !m.requireProof || (m.signature.Some? && m.signatureValid)
    case SqlFallback => m.signature.Some? && (!m.requireProof || m.signature.value == "" || m.signatureValid)
  }

  /** What is left of a fetch: its remaining tries, and the flag it won or saw. */
  datatype Phase =
    | Verifying
    | Counting(tries: nat)
    | Metering(life: nat, tries: nat)
    | Returned(life: nat, countedAt: nat, won: bool)
    | Aborted

  datatype Fetch = Fetch(msg: Message, path: Path, phase: Phase)

  datatype Flag = Flag(expireAt: nat, life: nat)

  /**
   One life of a message's counted flag: when and by which fetch it was set, whether that fetch was
   told so, and how often its metering took effect.
   */
  datatype Life = Life(id: MsgId, at: nat, owner: FetchId, told: bool, applied: nat)

  /** `lives` is the history of all flags set; `meter` is the received metric per message. */
  datatype System = System(now: nat, flags: map<MsgId, Flag>, meter: map<MsgId, nat>,
                           fetches: map<FetchId, Fetch>, lives: seq<Life>)

  datatype Event =
    | Tick(d: nat)
    | Begin(fetch: FetchId, msg: Message, path: Path)
    | Verify(fetch: FetchId)
    | Count(fetch: FetchId, reply: Reply)
    | Meter(fetch: FetchId, reply: Reply)

  // ---------------------------------------------------------------- what one fetch does

  /** What one fetch sees of the machine: the flags, the metric, their history and its own phase. */
  datatype Progress = Progress(flags: map<MsgId, Flag>, meter: map<MsgId, nat>, lives: seq<Life>, phase: Phase)

  predicate Alive(flags: map<MsgId, Flag>, id: MsgId, now: nat) {
    id in flags && now < flags[id].expireAt
  }

  /** SET NX EX. */
  function SetNx(p: Progress, id: MsgId, now: nat, owner: FetchId, told: bool): Progress {
    if Alive(p.flags, id, now) then p
    else p.(flags := p.flags[id := Flag(now + COUNTED_TTL, |p.lives|)],
            lives := p.lives + [Life(id, now, owner, told, 0)])
  }

  function Retry(tries: nat): Phase {
    if tries <= 1 then Aborted else Counting(tries - 1)
  }

  function CountOne(p: Progress, id: MsgId, now: nat, owner: FetchId, reply: Reply): Progress {
    if !p.phase.Counting? then p
    else if reply.Unreached? then p.(phase := Retry(p.phase.tries))
    else if reply.Lost? then SetNx(p, id, now, owner, false).(phase := Retry(p.phase.tries))
    else if Alive(p.flags, id, now) then p.(phase := Returned(p.flags[id].life, now, false))
    else SetNx(p, id, now, owner, true).(phase := Metering(|p.lives|, RETRIES))
  }

  function Metered(meter: map<MsgId, nat>, id: MsgId): nat {
    if id in meter then meter[id] else 0
  }

  function Increment(p: Progress, life: nat): Progress
    requires life < |p.lives|
  {
    var l := p.lives[life];
    p.(meter := p.meter[l.id := Metered(p.meter, l.id) + 1], lives := p.lives[life := l.(applied := l.applied + 1)])
  }

  function AfterMeter(life: nat, tries: nat, at: nat, reply: Reply): Phase {
    if reply.Answered? then Returned(life, at, true)
    else if tries <= 1 then Aborted
    else Metering(life, tries - 1)
  }

  function MeterOne(p: Progress, reply: Reply): Progress {
    if !p.phase.Metering? || p.phase.life >= |p.lives| then p
    else
      var life := p.phase.life;
      var next := AfterMeter(life, p.phase.tries, p.lives[life].at, reply);
      (if reply.Unreached? then p else Increment(p, life)).(phase := next)
  }

  function CheckOne(p: Progress, m: Message, path: Path): Progress {
    if !p.phase.Verifying? then p else p.(phase := if Verifies(path, m) then Counting(RETRIES) else Aborted)
  }

  // ---------------------------------------------------------------- all fetches

  function Of(s: System, f: FetchId): Progress
    requires f in s.fetches
  {
    Progress(s.flags, s.meter, s.lives, s.fetches[f].phase)
  }

  function Put(s: System, f: FetchId, p: Progress): System
    requires f in s.fetches
  {
    s.(flags := p.flags, meter := p.meter, lives := p.lives, fetches := s.fetches[f := s.fetches[f].(phase := p.phase)])
  }

  function VerifyStep(s: System, f: FetchId): System
    requires f in s.fetches
  {
    Put(s, f, CheckOne(Of(s, f), s.fetches[f].msg, s.fetches[f].path))
  }

  function CountStep(s: System, f: FetchId, reply: Reply): System
    requires f in s.fetches
  {
    Put(s, f, CountOne(Of(s, f), s.fetches[f].msg.id, s.now, f, reply))
  }

  function MeterStep(s: System, f: FetchId, reply: Reply): System
    requires f in s.fetches
  {
    Put(s, f, MeterOne(Of(s, f), reply))
  }

  function Step(s: System, e: Event): System {
    match e
    case Tick(d) => s.(now := s.now + d)
    case Begin(f, m, path) =>
      if f in s.fetches then s else s.(fetches := s.fetches[f := Fetch(m, path, Verifying)])
    case Verify(f) => if f in s.fetches then VerifyStep(s, f) else s
    case Count(f, reply) => if f in s.fetches then CountStep(s, f, reply) else s
    case Meter(f, reply) => if f in s.fetches then MeterStep(s, f, reply) else s
  }

  function Run(now: nat, events: seq<Event>): System {
    if events == [] then System(now, map[], map[], map[], [])
    else Step(Run(now, events[..|events| - 1]), events[|events| - 1])
  }

  // ---------------------------------------------------------------- the flags

  predicate LivesApart(lives: seq<Life>, i: nat, j: nat)
    requires i < |lives| && j < |lives|
  {
    lives[i].id == lives[j].id ==> lives[i].at + COUNTED_TTL <= lives[j].at
  }

  /** A later flag of a message is set only when the earlier one has run out. */
  ghost predicate Apart(lives: seq<Life>) {
    forall i: nat, j: nat :: i < j < |lives| ==> LivesApart(lives, i, j)
  }

  /** Every flag ever set is the current one of its message or ran out before that. */
  predicate LifeCovered(l: Life, flags: map<MsgId, Flag>, now: nat) {
    l.at <= now && l.id in flags && l.at + COUNTED_TTL <= flags[l.id].expireAt
  }

  predicate FlagLives(flag: Flag, id: MsgId, lives: seq<Life>) {
    flag.life < |lives| && lives[flag.life].id == id && flag.expireAt == lives[flag.life].at + COUNTED_TTL
  }

  ghost predicate FlagsInv(flags: map<MsgId, Flag>, lives: seq<Life>, now: nat) {
    && Apart(lives)
    && (forall i: nat :: i < |lives| ==> LifeCovered(lives[i], flags, now))
    && (forall id :: id in flags ==> FlagLives(flags[id], id, lives))
  }

  lemma NewLifeIsApart(p: Progress, now: nat, l: Life)
    requires FlagsInv(p.flags, p.lives, now) && !Alive(p.flags, l.id, now) && l.at == now
    ensures Apart(p.lives + [l])
  {
    var lives := p.lives + [l];
    forall i: nat, j: nat | i < j < |lives| ensures LivesApart(lives, i, j) {
      if j < |p.lives| {
        assert LivesApart(p.lives, i, j);
      } else {
        assert LifeCovered(p.lives[i], p.flags, now);
      }
    }
  }

  lemma SetNxKeepsFlags(p: Progress, id: MsgId, now: nat, owner: FetchId, told: bool)
    requires FlagsInv(p.flags, p.lives, now)
    ensures var q := SetNx(p, id, now, owner, told); FlagsInv(q.flags, q.lives, now)
  {
    if !Alive(p.flags, id, now) {
      NewLifeIsApart(p, now, Life(id, now, owner, told, 0));
      var q := SetNx(p, id, now, owner, told);
      forall i: nat | i < |q.lives| ensures LifeCovered(q.lives[i], q.flags, now) {
        if i < |p.lives| {
          assert LifeCovered(p.lives[i], p.flags, now);
        }
      }
      forall other | other in q.flags ensures FlagLives(q.flags[other], other, q.lives) {
        if other != id {
          assert FlagLives(p.flags[other], other, p.lives);
        }
      }
    }
  }

  lemma IncrementKeepsFlags(p: Progress, life: nat, now: nat)
    requires FlagsInv(p.flags, p.lives, now) && life < |p.lives|
    ensures var q := Increment(p, life); FlagsInv(q.flags, q.lives, now)
  {
    var q := Increment(p, life);
    forall i: nat, j: nat | i < j < |q.lives| ensures LivesApart(q.lives, i, j) {
      assert LivesApart(p.lives, i, j);
    }
    forall i: nat | i < |q.lives| ensures LifeCovered(q.lives[i], q.flags, now) {
      assert LifeCovered(p.lives[i], p.flags, now);
    }
    forall id | id in q.flags ensures FlagLives(q.flags[id], id, q.lives) {
      assert FlagLives(p.flags[id], id, p.lives);
    }
  }

  lemma TickKeepsFlags(s: System, d: nat)
    requires FlagsInv(s.flags, s.lives, s.now)
    ensures FlagsInv(s.flags, s.lives, s.now + d)
  {
    forall i: nat | i < |s.lives| ensures LifeCovered(s.lives[i], s.flags, s.now + d) {
      assert LifeCovered(s.lives[i], s.flags, s.now);
    }
  }

  lemma StepKeepsFlags(s: System, e: Event)
    requires FlagsInv(s.flags, s.lives, s.now)
    ensures var s' := Step(s, e); FlagsInv(s'.flags, s'.lives, s'.now)
  {
    match e
    case Tick(d) => TickKeepsFlags(s, d);
    case Count(f, reply) =>
      if f in s.fetches {
        SetNxKeepsFlags(Of(s, f), s.fetches[f].msg.id, s.now, f, reply.Answered?);
      }
    case Meter(f, _) =>
      if f in s.fetches && s.fetches[f].phase.Metering? && s.fetches[f].phase.life < |s.lives| {
        IncrementKeepsFlags(Of(s, f), s.fetches[f].phase.life, s.now);
      }
    case _ =>
  }

  // ---------------------------------------------------------------- the fetches

  /** Where a fetch stands: past the check it is verified, and a flag it won is its own to meter. */
  predicate FetchOk(f: FetchId, fetch: Fetch, lives: seq<Life>) {
    match fetch.phase
    case Verifying => true
    case Aborted => true
    case Counting(tries) => Verifies(fetch.path, fetch.msg) && 1 <= tries <= RETRIES
    case Metering(life, tries) =>
      && Verifies(fetch.path, fetch.msg) && 1 <= tries <= RETRIES
      && life < |lives| && lives[life].id == fetch.msg.id && lives[life].told && lives[life].owner == f
      && lives[life].applied <= RETRIES - tries
    case Returned(life, at, won) =>
      && Verifies(fetch.path, fetch.msg)
      && life < |lives| && lives[life].id == fetch.msg.id
      && lives[life].at <= at < lives[life].at + COUNTED_TTL
      && (won ==> lives[life].told && lives[life].owner == f && lives[life].applied >= 1)
  }

  predicate LifeOk(l: Life) {
    l.applied <= RETRIES && (!l.told ==> l.applied == 0)
  }

  predicate SameLife(a: Fetch, b: Fetch) {
    a.phase.Metering? && b.phase.Metering? && a.phase.life == b.phase.life
  }

  ghost predicate FetchesInv(fetches: map<FetchId, Fetch>, lives: seq<Life>) {
    && (forall f :: f in fetches ==> FetchOk(f, fetches[f], lives))
    && (forall f, g :: f in fetches && g in fetches && f != g ==> !SameLife(fetches[f], fetches[g]))
    && (forall i: nat :: i < |lives| ==> LifeOk(lives[i]))
  }

  /** One fetch changes and the flags only grow in number. */
  lemma PhaseKeeps(fetches: map<FetchId, Fetch>, lives: seq<Life>, f: FetchId, fetch: Fetch)
    requires FetchesInv(fetches, lives) && FetchOk(f, fetch, lives)
    requires forall g :: g in fetches && g != f ==> !SameLife(fetch, fetches[g])
    ensures FetchesInv(fetches[f := fetch], lives)
  {
  }

  lemma LongerKeeps(fetches: map<FetchId, Fetch>, lives: seq<Life>, l: Life)
    requires FetchesInv(fetches, lives) && l.applied == 0
    ensures FetchesInv(fetches, lives + [l])
    ensures forall f :: f in fetches && fetches[f].phase.Metering? ==> fetches[f].phase.life < |lives|
  {
    forall f | f in fetches ensures FetchOk(f, fetches[f], lives + [l]) {
      assert FetchOk(f, fetches[f], lives);
    }
    forall f | f in fetches && fetches[f].phase.Metering? ensures fetches[f].phase.life < |lives| {
      assert FetchOk(f, fetches[f], lives);
    }
  }

  lemma ApplyKeepsOwn(f: FetchId, fetch: Fetch, lives: seq<Life>, reply: Reply, phase: Phase)
    requires FetchOk(f, fetch, lives) && fetch.phase.Metering? && fetch.phase.life < |lives|
    requires phase == AfterMeter(fetch.phase.life, fetch.phase.tries, lives[fetch.phase.life].at, reply)
    ensures var life := fetch.phase.life;
      FetchOk(f, fetch.(phase := phase), lives[life := lives[life].(applied := lives[life].applied + 1)])
  {
  }

  /** A metering that takes effect uses up the try it was. */
  lemma ApplyKeeps(fetches: map<FetchId, Fetch>, lives: seq<Life>, f: FetchId, reply: Reply, phase: Phase)
    requires FetchesInv(fetches, lives) && f in fetches && fetches[f].phase.Metering?
    requires fetches[f].phase.life < |lives|
    requires reply != Unreached
    requires var was := fetches[f].phase; phase == AfterMeter(was.life, was.tries, lives[was.life].at, reply)
    ensures var life := fetches[f].phase.life;
      FetchesInv(fetches[f := fetches[f].(phase := phase)],
                 lives[life := lives[life].(applied := lives[life].applied + 1)])
  {
    var life := fetches[f].phase.life;
    var lives' := lives[life := lives[life].(applied := lives[life].applied + 1)];
    var fetches' := fetches[f := fetches[f].(phase := phase)];
    assert FetchOk(f, fetches[f], lives);
    ApplyKeepsOwn(f, fetches[f], lives, reply, phase);
    forall g | g in fetches' && g != f ensures FetchOk(g, fetches'[g], lives') {
      assert FetchOk(g, fetches[g], lives) && !SameLife(fetches[f], fetches[g]);
    }
    forall g, h | g in fetches' && h in fetches' && g != h ensures !SameLife(fetches'[g], fetches'[h]) {
      assert !SameLife(fetches[g], fetches[h]);
    }
    forall i: nat | i < |lives'| ensures LifeOk(lives'[i]) {
      assert LifeOk(lives[i]);
    }
  }

  ghost predicate Inv(s: System) {
    FlagsInv(s.flags, s.lives, s.now) && FetchesInv(s.fetches, s.lives)
  }

  lemma VerifyKeepsInv(s: System, f: FetchId)
    requires Inv(s) && f in s.fetches
    ensures FetchesInv(VerifyStep(s, f).fetches, VerifyStep(s, f).lives)
  {
    if s.fetches[f].phase.Verifying? {
      PhaseKeeps(s.fetches, s.lives, f, VerifyStep(s, f).fetches[f]);
    }
  }

  lemma CountKeepsInv(s: System, f: FetchId, reply: Reply)
    requires Inv(s) && f in s.fetches && s.fetches[f].phase.Counting?
    ensures FetchesInv(CountStep(s, f, reply).fetches, CountStep(s, f, reply).lives)
  {
    var fetch, s' := s.fetches[f], CountStep(s, f, reply);
    assert FetchOk(f, fetch, s.lives);
    if s'.lives != s.lives {
      LongerKeeps(s.fetches, s.lives, Life(fetch.msg.id, s.now, f, reply.Answered?, 0));
    } else if Alive(s.flags, fetch.msg.id, s.now) {
      var flag := s.flags[fetch.msg.id];
      assert FlagLives(flag, fetch.msg.id, s.lives);
      assert LifeCovered(s.lives[flag.life], s.flags, s.now);
    }
    PhaseKeeps(s.fetches, s'.lives, f, s'.fetches[f]);
  }

  lemma UnreachedKeepsInv(s: System, f: FetchId)
    requires FetchesInv(s.fetches, s.lives) && f in s.fetches && s.fetches[f].phase.Metering?
    ensures FetchesInv(MeterStep(s, f, Unreached).fetches, MeterStep(s, f, Unreached).lives)
  {
    var s' := MeterStep(s, f, Unreached);
    assert FetchOk(f, s.fetches[f], s.lives);
    forall g | g in s.fetches && g != f ensures !SameLife(s'.fetches[f], s.fetches[g]) {
      assert !SameLife(s.fetches[f], s.fetches[g]);
    }
    PhaseKeeps(s.fetches, s.lives, f, s'.fetches[f]);
  }

  lemma MeterApplies(s: System, f: FetchId, reply: Reply)
    requires f in s.fetches && s.fetches[f].phase.Metering? && s.fetches[f].phase.life < |s.lives| && reply != Unreached
    ensures var was, s' := s.fetches[f].phase, MeterStep(s, f, reply);
      var next := AfterMeter(was.life, was.tries, s.lives[was.life].at, reply);
      && s'.fetches == s.fetches[f := s.fetches[f].(phase := next)]
      && s'.lives == s.lives[was.life := s.lives[was.life].(applied := s.lives[was.life].applied + 1)]
  {
  }

  lemma MeterKeepsInv(s: System, f: FetchId, reply: Reply)
    requires FetchesInv(s.fetches, s.lives) && f in s.fetches && s.fetches[f].phase.Metering?
    ensures FetchesInv(MeterStep(s, f, reply).fetches, MeterStep(s, f, reply).lives)
  {
    assert FetchOk(f, s.fetches[f], s.lives);
    if reply == Unreached {
      UnreachedKeepsInv(s, f);
    } else {
      var was := s.fetches[f].phase;
      MeterApplies(s, f, reply);
      ApplyKeeps(s.fetches, s.lives, f, reply, AfterMeter(was.life, was.tries, s.lives[was.life].at, reply));
    }
  }

  lemma StepKeepsInv(s: System, e: Event)
    requires Inv(s)
    ensures Inv(Step(s, e))
  {
    StepKeepsFlags(s, e);
    match e
    case Tick(_) =>
    case Begin(f, m, path) =>
      if f !in s.fetches {
        PhaseKeeps(s.fetches, s.lives, f, Fetch(m, path, Verifying));
      }
    case Verify(f) =>
      if f in s.fetches {
        VerifyKeepsInv(s, f);
      }
    case Count(f, reply) =>
      if f in s.fetches && s.fetches[f].phase.Counting? {
        CountKeepsInv(s, f, reply);
      }
    case Meter(f, reply) =>
      if f in s.fetches && s.fetches[f].phase.Metering? {
        MeterKeepsInv(s, f, reply);
      }
  }

  lemma {:induction false} RunInv(now: nat, events: seq<Event>)
    ensures Inv(Run(now, events))
  {
    if events == [] {
    } else {
      RunInv(now, events[..|events| - 1]);
      StepKeepsInv(Run(now, events[..|events| - 1]), events[|events| - 1]);
    }
  }

  // ---------------------------------------------------------------- counted once

  /** Event `i` of a run sets the flag of a message. */
  predicate SetsFlag(now: nat, events: seq<Event>, i: nat, id: MsgId)
    requires i < |events|
  {
    var s := Run(now, events[..i]);
    var s' := Step(s, events[i]);
    |s'.lives| == |s.lives| + 1 && s'.lives[|s.lives|].id == id && s'.lives[|s.lives|].at == s.now
  }

  /** Event `i` of a run brings a fetch of a message to the metering step. */
  predicate StartsMetering(now: nat, events: seq<Event>, i: nat, f: FetchId, id: MsgId)
    requires i < |events|
  {
    var s := Run(now, events[..i]);
    var s' := Step(s, events[i]);
    && f in s'.fetches && s'.fetches[f].phase.Metering? && s'.fetches[f].msg.id == id
    && (f in s.fetches ==> !s.fetches[f].phase.Metering?)
  }

  lemma MeteringNeedsItsFlag(now: nat, events: seq<Event>, i: nat, f: FetchId, id: MsgId)
    requires i < |events| && StartsMetering(now, events, i, f, id)
    ensures SetsFlag(now, events, i, id)
  {
    MeteringComesFromCounting(Run(now, events[..i]), events[i], f);
  }

  lemma MeteringComesFromCounting(s: System, e: Event, f: FetchId)
    requires f in Step(s, e).fetches && Step(s, e).fetches[f].phase.Metering?
    requires f in s.fetches ==> !s.fetches[f].phase.Metering?
    ensures Step(s, e).lives == s.lives + [Life(Step(s, e).fetches[f].msg.id, s.now, f, true, 0)]
  {
  }

  /** What a step leaves of a life: all but its count of meterings. */
  predicate Persists(l: Life, l': Life) {
    l.id == l'.id && l.at == l'.at && l.owner == l'.owner && l.told == l'.told
  }

  lemma StepKeepsLives(s: System, e: Event, k: nat)
    requires k < |s.lives|
    ensures k < |Step(s, e).lives| && Persists(s.lives[k], Step(s, e).lives[k])
    ensures s.now <= Step(s, e).now
  {
  }

  lemma {:induction false} RunKeepsLives(now: nat, events: seq<Event>, i: nat, k: nat)
    requires i <= |events| && k < |Run(now, events[..i]).lives|
    ensures k < |Run(now, events).lives| && Persists(Run(now, events[..i]).lives[k], Run(now, events).lives[k])
  {
    if i == |events| {
      assert events[..i] == events;
    } else {
      var before := events[..|events| - 1];
      assert before[..i] == events[..i];
      RunKeepsLives(now, before, i, k);
      StepKeepsLives(Run(now, before), events[|events| - 1], k);
    }
  }

  lemma RunSnoc(now: nat, events: seq<Event>, i: nat)
    requires i < |events|
    ensures Run(now, events[..i + 1]) == Step(Run(now, events[..i]), events[i])
  {
    assert events[..i + 1][..i] == events[..i];
  }

  /** The flag of a message is set, in whichever fetch, at most once in its lifetime of a day ... */
  lemma FlagsAreApart(now: nat, events: seq<Event>, i: nat, j: nat, id: MsgId)
    requires i < j < |events| && SetsFlag(now, events, i, id) && SetsFlag(now, events, j, id)
    ensures Run(now, events[..i]).now + 86_400 <= Run(now, events[..j]).now
  {
    RunSnoc(now, events, i);
    RunSnoc(now, events, j);
    var k, l := |Run(now, events[..i]).lives|, |Run(now, events[..j]).lives|;
    assert events[..j + 1][..i + 1] == events[..i + 1];
    assert events[..j][..i + 1] == events[..i + 1];
    RunKeepsLives(now, events[..j], i + 1, k);
    RunKeepsLives(now, events[..j + 1], i + 1, k);
    RunInv(now, events[..j + 1]);
    assert LivesApart(Run(now, events[..j + 1]).lives, k, l);
  }

  /** ... so two meterings of one message start at least a flag's lifetime apart ... */
  lemma MeteredOncePerLifetime(now: nat, events: seq<Event>, i: nat, j: nat, f: FetchId, g: FetchId, id: MsgId)
    requires i < j < |events| && StartsMetering(now, events, i, f, id) && StartsMetering(now, events, j, g, id)
    ensures Run(now, events[..i]).now + 86_400 <= Run(now, events[..j]).now
  {
    MeteringNeedsItsFlag(now, events, i, f, id);
    MeteringNeedsItsFlag(now, events, j, g, id);
    FlagsAreApart(now, events, i, j, id);
  }

  /** ... and none starts in the lifetime of a flag whose reply was lost: that delivery goes unmetered. */
  lemma LostReplyIsNotMetered(now: nat, events: seq<Event>, i: nat, j: nat, f: FetchId, g: FetchId, id: MsgId)
    requires i < j < |events| && events[i] == Count(f, Lost) && SetsFlag(now, events, i, id)
    requires StartsMetering(now, events, j, g, id)
    ensures Run(now, events[..i]).now + 86_400 <= Run(now, events[..j]).now
    ensures forall h :: !StartsMetering(now, events, i, h, id)
  {
    MeteringNeedsItsFlag(now, events, j, g, id);
    FlagsAreApart(now, events, i, j, id);
  }

  /**
   What is returned from Redis has, where its sender asks for it, a signature that is valid; what is returned from
   the table has a signature, and where its sender asks for it one that is empty or valid. Its flag was alive when
   it was counted.
   */
  lemma ReturnedIsCounted(now: nat, events: seq<Event>, f: FetchId)
    requires f in Run(now, events).fetches && Run(now, events).fetches[f].phase.Returned?
    ensures var s := Run(now, events);
      var fetch := s.fetches[f];
      var life := fetch.phase.life;
      && (fetch.path.RedisHit? && fetch.msg.requireProof ==> fetch.msg.signature.Some? && fetch.msg.signatureValid)
      && (fetch.path.SqlFallback? ==>
            fetch.msg.signature.Some? &&
            (fetch.msg.requireProof ==> fetch.msg.signature.value == "" || fetch.msg.signatureValid))
      && life < |s.lives| && s.lives[life].id == fetch.msg.id
      && s.lives[life].at <= fetch.phase.countedAt < s.lives[life].at + 86_400
      && (fetch.phase.won ==> s.lives[life].told && 1 <= s.lives[life].applied <= 3)
  {
    RunInv(now, events);
    var s := Run(now, events);
    assert FetchOk(f, s.fetches[f], s.lives);
    assert LifeOk(s.lives[s.fetches[f].phase.life]);
  }

  /** A message stored without its signature is never returned from the table. */
  lemma UnsignedIsNotReturned(now: nat, events: seq<Event>, f: FetchId)
    requires f in Run(now, events).fetches
    requires var fetch := Run(now, events).fetches[f]; fetch.path.SqlFallback? && fetch.msg.signature.None?
    ensures !Run(now, events).fetches[f].phase.Returned?
  {
    if Run(now, events).fetches[f].phase.Returned? {
      ReturnedIsCounted(now, events, f);
    }
  }

  /** Answers a fetch went without, in all its tries to count and to meter. */
  function Failures(events: seq<Event>, f: FetchId): nat {
    if events == [] then 0
    else
      Failures(events[..|events| - 1], f) +
      match events[|events| - 1]
      case Count(g, reply) => if g == f && !reply.Answered? then 1 else 0
      case Meter(g, reply) => if g == f && !reply.Answered? then 1 else 0
      case _ => 0
  }

  /** The tries a verified fetch has used up are failures of its own. */
  predicate TriesUsed(fetch: Fetch, failures: nat) {
    match fetch.phase
    case Verifying => true
    case Counting(tries) => failures + tries >= 3
    case Metering(_, tries) => failures + tries >= 3
    case Returned(_, _, _) => true
    case Aborted => Verifies(fetch.path, fetch.msg) ==> failures >= 3
  }

  lemma StepUsesTries(s: System, e: Event, f: FetchId, before: nat, failures: nat)
    requires FetchesInv(s.fetches, s.lives) && f in s.fetches && TriesUsed(s.fetches[f], before)
    requires failures == before + match e
                                  case Count(g, reply) => if g == f && !reply.Answered? then 1 else 0
                                  case Meter(g, reply) => if g == f && !reply.Answered? then 1 else 0
                                  case _ => 0
    ensures f in Step(s, e).fetches && TriesUsed(Step(s, e).fetches[f], failures)
  {
    assert FetchOk(f, s.fetches[f], s.lives);
    match e
    case Verify(g) =>
      if g == f {
        assert Step(s, e).fetches[f] == VerifyStep(s, f).fetches[f];
      }
    case Count(g, reply) =>
      if g == f {
        CountUsesTry(s, f, reply, before);
      }
    case Meter(g, reply) =>
      if g == f {
        MeterUsesTry(s, f, reply, before);
      }
    case _ =>
  }

  lemma CountUsesTry(s: System, f: FetchId, reply: Reply, before: nat)
    requires f in s.fetches && TriesUsed(s.fetches[f], before) && FetchOk(f, s.fetches[f], s.lives)
    ensures TriesUsed(CountStep(s, f, reply).fetches[f], before + if reply.Answered? then 0 else 1)
  {
  }

  lemma MeterUsesTry(s: System, f: FetchId, reply: Reply, before: nat)
    requires f in s.fetches && TriesUsed(s.fetches[f], before) && FetchOk(f, s.fetches[f], s.lives)
    ensures TriesUsed(MeterStep(s, f, reply).fetches[f], before + if reply.Answered? then 0 else 1)
  {
  }

  lemma {:induction false} RunUsesTries(now: nat, events: seq<Event>, f: FetchId)
    requires f in Run(now, events).fetches
    ensures TriesUsed(Run(now, events).fetches[f], Failures(events, f))
  {
    var before, e := events[..|events| - 1], events[|events| - 1];
    if f in Run(now, before).fetches {
      RunUsesTries(now, before, f);
      RunInv(now, before);
      StepUsesTries(Run(now, before), e, f, Failures(before, f), Failures(events, f));
    }
  }

  /**
   The converse: a fetch whose message has what its path asks for gives up only after three tries, of counting or
   of metering it, that went without an answer.
   */
  lemma GivesUpAfterFailures(now: nat, events: seq<Event>, f: FetchId)
    requires f in Run(now, events).fetches && Run(now, events).fetches[f].phase.Aborted?
    ensures var msg, path := Run(now, events).fetches[f].msg, Run(now, events).fetches[f].path;
      || (path.RedisHit? && msg.requireProof && !(msg.signature.Some? && msg.signatureValid))
      || (path.SqlFallback? && msg.signature.None?)
      || (path.SqlFallback? && msg.requireProof && msg.signature.value != "" && !msg.signatureValid)
      || Failures(events, f) >= 3
  {
    RunUsesTries(now, events, f);
  }

  // ---------------------------------------------------------------- how much is metered

  function Applied(lives: seq<Life>, id: MsgId): nat {
    if lives == [] then 0
    else Applied(lives[..|lives| - 1], id) + if lives[|lives| - 1].id == id then lives[|lives| - 1].applied else 0
  }

  /** Flags of the message whose fetch was told it had set them. */
  function Told(lives: seq<Life>, id: MsgId): nat {
    if lives == [] then 0
    else
      var last := lives[|lives| - 1];
      Told(lives[..|lives| - 1], id) + if last.id == id && last.told then 1 else 0
  }

  lemma {:induction false} AppliedOneMore(lives: seq<Life>, life: nat, id: MsgId)
    requires life < |lives|
    ensures var more := lives[life := lives[life].(applied := lives[life].applied + 1)];
      Applied(more, id) == Applied(lives, id) + if lives[life].id == id then 1 else 0
  {
    var n := |lives| - 1;
    var more := lives[life := lives[life].(applied := lives[life].applied + 1)];
    if life < n {
      AppliedOneMore(lives[..n], life, id);
      assert more[..n] == lives[..n][life := lives[life].(applied := lives[life].applied + 1)];
    } else {
      assert more[..n] == lives[..n];
    }
  }

  lemma AppliedSnoc(lives: seq<Life>, l: Life, id: MsgId)
    requires l.applied == 0
    ensures Applied(lives + [l], id) == Applied(lives, id)
  {
    assert (lives + [l])[..|lives|] == lives;
  }

  /** Counting leaves the metric alone and at most begins a life. */
  lemma CountOneAdds(p: Progress, id: MsgId, now: nat, owner: FetchId, reply: Reply)
    ensures var q := CountOne(p, id, now, owner, reply);
      q.meter == p.meter && (q.lives == p.lives || q.lives == p.lives + [Life(id, now, owner, reply.Answered?, 0)])
  {
  }

  lemma CountMeters(s: System, f: FetchId, reply: Reply, id: MsgId)
    requires f in s.fetches && Metered(s.meter, id) == Applied(s.lives, id)
    ensures Metered(CountStep(s, f, reply).meter, id) == Applied(CountStep(s, f, reply).lives, id)
  {
    var msg := s.fetches[f].msg.id;
    CountOneAdds(Of(s, f), msg, s.now, f, reply);
    AppliedSnoc(s.lives, Life(msg, s.now, f, reply.Answered?, 0), id);
  }

  lemma MeterMeters(s: System, f: FetchId, reply: Reply, id: MsgId)
    requires f in s.fetches && Metered(s.meter, id) == Applied(s.lives, id)
    ensures Metered(MeterStep(s, f, reply).meter, id) == Applied(MeterStep(s, f, reply).lives, id)
  {
    if s.fetches[f].phase.Metering? && s.fetches[f].phase.life < |s.lives| {
      AppliedOneMore(s.lives, s.fetches[f].phase.life, id);
    }
  }

  lemma StepMeters(s: System, e: Event, id: MsgId)
    requires Metered(s.meter, id) == Applied(s.lives, id)
    ensures Metered(Step(s, e).meter, id) == Applied(Step(s, e).lives, id)
  {
    match e
    case Count(f, reply) =>
      if f in s.fetches {
        CountMeters(s, f, reply, id);
      }
    case Meter(f, reply) =>
      if f in s.fetches {
        MeterMeters(s, f, reply, id);
      }
    case _ =>
  }

  lemma {:induction false} AppliedBound(lives: seq<Life>, id: MsgId, most: nat)
    requires forall i: nat :: i < |lives| ==> LifeOk(lives[i])
    requires most == RETRIES || forall i: nat :: i < |lives| ==> lives[i].applied <= 1
    requires most >= 1
    ensures Applied(lives, id) <= most * Told(lives, id)
  {
    if lives != [] {
      var n := |lives| - 1;
      AppliedBound(lives[..n], id, most);
      assert LifeOk(lives[n]);
      assert most * (Told(lives[..n], id) + 1) == most * Told(lives[..n], id) + most;
    }
  }

  lemma {:induction false} MeterIsApplied(now: nat, events: seq<Event>, id: MsgId)
    ensures Metered(Run(now, events).meter, id) == Applied(Run(now, events).lives, id)
  {
    if events != [] {
      MeterIsApplied(now, events[..|events| - 1], id);
      StepMeters(Run(now, events[..|events| - 1]), events[|events| - 1], id);
    }
  }

  /** Retries after lost replies can meter a counted delivery up to three times, never more. */
  lemma MeteredAtMostThrice(now: nat, events: seq<Event>, id: MsgId)
    ensures Metered(Run(now, events).meter, id) <= 3 * Told(Run(now, events).lives, id)
  {
    RunInv(now, events);
    MeterIsApplied(now, events, id);
    AppliedBound(Run(now, events).lives, id, RETRIES);
  }

  // ---------------------------------------------------------------- without lost replies

  predicate MeterReplyLost(e: Event) {
    e.Meter? && e.reply.Lost?
  }

  predicate Unapplied(fetch: Fetch, lives: seq<Life>) {
    fetch.phase.Metering? ==> fetch.phase.life < |lives| && lives[fetch.phase.life].applied == 0
  }

  ghost predicate Precise(fetches: map<FetchId, Fetch>, lives: seq<Life>) {
    && (forall i: nat :: i < |lives| ==> lives[i].applied <= 1)
    && (forall f :: f in fetches ==> Unapplied(fetches[f], lives))
  }

  lemma CountKeepsPrecise(s: System, f: FetchId, reply: Reply)
    requires f in s.fetches && Precise(s.fetches, s.lives)
    ensures Precise(CountStep(s, f, reply).fetches, CountStep(s, f, reply).lives)
  {
    var s' := CountStep(s, f, reply);
    forall g | g in s'.fetches ensures Unapplied(s'.fetches[g], s'.lives) {
      assert Unapplied(s.fetches[g], s.lives);
    }
  }

  lemma MeterKeepsPrecise(s: System, f: FetchId, reply: Reply)
    requires f in s.fetches && FetchesInv(s.fetches, s.lives) && Precise(s.fetches, s.lives) && reply != Lost
    ensures Precise(MeterStep(s, f, reply).fetches, MeterStep(s, f, reply).lives)
  {
    if s.fetches[f].phase.Metering? {
      var s' := MeterStep(s, f, reply);
      assert Unapplied(s.fetches[f], s.lives);
      forall g | g in s'.fetches ensures Unapplied(s'.fetches[g], s'.lives) {
        assert Unapplied(s.fetches[g], s.lives);
        assert g != f ==> !SameLife(s.fetches[f], s.fetches[g]);
      }
    }
  }

  lemma StepKeepsPrecise(s: System, e: Event)
    requires Inv(s) && Precise(s.fetches, s.lives) && !MeterReplyLost(e)
    ensures Precise(Step(s, e).fetches, Step(s, e).lives)
  {
    match e
    case Count(f, reply) =>
      if f in s.fetches {
        CountKeepsPrecise(s, f, reply);
      }
    case Meter(f, reply) =>
      if f in s.fetches {
        MeterKeepsPrecise(s, f, reply);
      }
    case _ =>
  }

  ghost predicate NoMeterReplyLost(events: seq<Event>) {
    forall i :: 0 <= i < |events| ==> !MeterReplyLost(events[i])
  }

  lemma {:induction false} RunIsPrecise(now: nat, events: seq<Event>)
    requires NoMeterReplyLost(events)
    ensures Precise(Run(now, events).fetches, Run(now, events).lives)
  {
    if events != [] {
      RunIsPrecise(now, events[..|events| - 1]);
      RunInv(now, events[..|events| - 1]);
      StepKeepsPrecise(Run(now, events[..|events| - 1]), events[|events| - 1]);
    }
  }

  /** When no metering reply is lost, each flag meters its message at most once, and exactly once if returned. */
  lemma MeteredOnce(now: nat, events: seq<Event>, id: MsgId)
    requires NoMeterReplyLost(events)
    ensures var s := Run(now, events);
      && Metered(s.meter, id) <= Told(s.lives, id)
      && forall f :: f in s.fetches && s.fetches[f].phase.Returned? && s.fetches[f].phase.won ==>
           s.fetches[f].phase.life < |s.lives| && s.lives[s.fetches[f].phase.life].applied == 1
  {
    RunInv(now, events);
    RunIsPrecise(now, events);
    MeterIsApplied(now, events, id);
    var s := Run(now, events);
    AppliedBound(s.lives, id, 1);
    forall f | f in s.fetches && s.fetches[f].phase.Returned? && s.fetches[f].phase.won
      ensures s.fetches[f].phase.life < |s.lives| && s.lives[s.fetches[f].phase.life].applied == 1
    {
      ReturnedIsCounted(now, events, f);
    }
  }
}
