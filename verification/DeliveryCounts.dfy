/**
 How often a delivery is metered, exactly: the tries of its fetch that took effect. With the runs in
 which a delivery is metered three times, and returned without being metered.
 */
module DeliveryCounts {
  import opened Wrappers
  import opened Delivery

  /** Metering tries of a fetch that took effect without an answer. */
  function LostMeters(now: nat, events: seq<Event>, f: FetchId): nat {
    if events == [] then 0
    else
      var before := events[..|events| - 1];
      var s := Run(now, before);
      LostMeters(now, before, f)
      + if events[|events| - 1] == Meter(f, Lost) && f in s.fetches && s.fetches[f].phase.Metering? then 1 else 0
  }

  predicate Won(s: System, f: FetchId) {
    f in s.fetches && s.fetches[f].phase.Returned? && s.fetches[f].phase.won
  }

  predicate Early(s: System, f: FetchId) {
    f in s.fetches ==> s.fetches[f].phase.Verifying? || s.fetches[f].phase.Counting?
  }

  lemma StaysEarly(s: System, e: Event, f: FetchId)
    requires Early(Step(s, e), f)
    ensures Early(s, f)
  {
  }

  lemma {:induction false} EarlyLosesNothing(now: nat, events: seq<Event>, f: FetchId)
    requires Early(Run(now, events), f)
    ensures LostMeters(now, events, f) == 0
  {
    if events != [] {
      var before := events[..|events| - 1];
      StaysEarly(Run(now, before), events[|events| - 1], f);
      EarlyLosesNothing(now, before, f);
    }
  }

  /** The fetch that set the flag meters it, has returned it, or has given up. */
  predicate OwnerOk(s: System, k: nat)
    requires k < |s.lives|
  {
    var f := s.lives[k].owner;
    && f in s.fetches
    && match s.fetches[f].phase
       case Metering(life, _) => life == k
       case Returned(life, _, won) => won && life == k
       case Aborted => true
       case _ => false
  }

  predicate Counted(s: System, k: nat, lost: nat)
    requires k < |s.lives|
  {
    OwnerOk(s, k) && s.lives[k].applied == lost + if Won(s, s.lives[k].owner) then 1 else 0
  }

  /** A flag new in this step belongs to the fetch of the step, which comes to metering. */
  lemma NewLife(s: System, e: Event, k: nat)
    requires k == |s.lives| < |Step(s, e).lives| && Step(s, e).lives[k].told
    ensures var f := Step(s, e).lives[k].owner;
      && e == Count(f, Answered) && Early(s, f)
      && Counted(Step(s, e), k, 0)
  {
  }

  lemma OtherMeter(s: System, g: FetchId, reply: Reply, k: nat, lost: nat)
    requires k < |s.lives| && s.lives[k].told && Counted(s, k, lost)
    requires FetchesInv(s.fetches, s.lives) && g != s.lives[k].owner && g in s.fetches
    ensures Counted(MeterStep(s, g, reply), k, lost)
  {
    assert FetchOk(g, s.fetches[g], s.lives);
  }

  lemma OtherCount(s: System, g: FetchId, reply: Reply, k: nat, lost: nat)
    requires k < |s.lives| && s.lives[k].told && Counted(s, k, lost)
    requires g != s.lives[k].owner && g in s.fetches
    ensures k < |CountStep(s, g, reply).lives| && Counted(CountStep(s, g, reply), k, lost)
  {
  }

  lemma OtherFetch(s: System, e: Event, k: nat, lost: nat)
    requires k < |s.lives| && s.lives[k].told && Counted(s, k, lost)
    requires FetchesInv(s.fetches, s.lives)
    requires !((e.Meter? || e.Count? || e.Verify?) && e.fetch == s.lives[k].owner)
    ensures k < |Step(s, e).lives| && Counted(Step(s, e), k, lost)
  {
    match e
    case Meter(g, reply) =>
      if g in s.fetches {
        OtherMeter(s, g, reply, k, lost);
      }
    case Count(g, reply) =>
      if g in s.fetches {
        OtherCount(s, g, reply, k, lost);
      }
    case _ =>
  }

  lemma OwnFetch(s: System, e: Event, k: nat, lost: nat)
    requires k < |s.lives| && s.lives[k].told && Counted(s, k, lost)
    requires (e.Meter? || e.Count? || e.Verify?) && e.fetch == s.lives[k].owner
    ensures var metering := s.fetches[s.lives[k].owner].phase.Metering?;
      && k < |Step(s, e).lives|
      && Counted(Step(s, e), k, lost + if e.Meter? && e.reply.Lost? && metering then 1 else 0)
  {
  }

  lemma {:induction false} CountedByOwner(now: nat, events: seq<Event>, k: nat)
    requires k < |Run(now, events).lives| && Run(now, events).lives[k].told
    ensures var s := Run(now, events); Counted(s, k, LostMeters(now, events, s.lives[k].owner))
  {
    var before, e := events[..|events| - 1], events[|events| - 1];
    var s := Run(now, before);
    if k < |s.lives| {
      StepKeepsLives(s, e, k);
      CountedByOwner(now, before, k);
      RunInv(now, before);
      var f := s.lives[k].owner;
      if (e.Meter? || e.Count? || e.Verify?) && e.fetch == f {
        OwnFetch(s, e, k, LostMeters(now, before, f));
      } else {
        OtherFetch(s, e, k, LostMeters(now, before, f));
      }
    } else {
      OneNewLife(s, e);
      NewLife(s, e, k);
      EarlyLosesNothing(now, before, Run(now, events).lives[k].owner);
    }
  }

  lemma OneNewLife(s: System, e: Event)
    ensures |Step(s, e).lives| <= |s.lives| + 1
  {
  }

  /**
   A delivery whose fetch knew it had set the flag is metered once for every lost reply to its
   metering, and once more if the fetch returned it; one whose fetch did not know is never metered.
   So it is metered exactly once if and only if the fetch returned with no reply lost, or gave up with
   one lost.
   */
  lemma MeteredExactly(now: nat, events: seq<Event>, k: nat)
    requires k < |Run(now, events).lives|
    ensures var s := Run(now, events);
      var l := s.lives[k];
      var lost := LostMeters(now, events, l.owner);
      && l.applied == (if !l.told then 0 else lost + if Won(s, l.owner) then 1 else 0)
      && (l.applied == 1 <==> l.told && (if Won(s, l.owner) then lost == 0 else lost == 1))
      && l.applied <= RETRIES
  {
    RunInv(now, events);
    assert LifeOk(Run(now, events).lives[k]);
    if Run(now, events).lives[k].told {
      CountedByOwner(now, events, k);
    }
  }

  // ---------------------------------------------------------------- runs

  const PLAIN: Message := Message(7, false, None, false)

  lemma RunSnocs(now: nat, events: seq<Event>, e: Event)
    ensures Run(now, events + [e]) == Step(Run(now, events), e)
  {
    assert (events + [e])[..|events|] == events;
  }

  /** A fetch of a plain message that has been verified, nothing having happened before. */
  function Verified(): System {
    System(0, map[], map[], map[0 := Fetch(PLAIN, RedisHit, Counting(RETRIES))], [])
  }

  function Prelude(): seq<Event> {
    [Begin(0, PLAIN, RedisHit)] + [Verify(0)]
  }

  lemma PreludeVerifies()
    ensures Run(0, Prelude()) == Verified()
  {
    RunSnocs(0, [], Begin(0, PLAIN, RedisHit));
    assert [] + [Begin(0, PLAIN, RedisHit)] == [Begin(0, PLAIN, RedisHit)];
    RunSnocs(0, [Begin(0, PLAIN, RedisHit)], Verify(0));
    assert map[0 := Fetch(PLAIN, RedisHit, Verifying)][0 := Fetch(PLAIN, RedisHit, Counting(RETRIES))] ==
           map[0 := Fetch(PLAIN, RedisHit, Counting(RETRIES))];
  }

  /** The state while fetch 0 has its flag: how it was told, how often it was metered, where it stands. */
  function Flagged(told: bool, meter: map<MsgId, nat>, applied: nat, phase: Phase): System {
    System(0, map[PLAIN.id := Flag(COUNTED_TTL, 0)], meter, map[0 := Fetch(PLAIN, RedisHit, phase)],
           [Life(PLAIN.id, 0, 0, told, applied)])
  }

  lemma CountSets(reply: Reply)
    requires reply != Unreached
    ensures Step(Verified(), Count(0, reply)) ==
            Flagged(reply == Answered, map[], 0, if reply == Answered then Metering(0, RETRIES) else Counting(2))
  {
    var phase := if reply == Answered then Metering(0, RETRIES) else Counting(2);
    assert map[0 := Fetch(PLAIN, RedisHit, Counting(RETRIES))][0 := Fetch(PLAIN, RedisHit, phase)] ==
           map[0 := Fetch(PLAIN, RedisHit, phase)];
    assert [] + [Life(PLAIN.id, 0, 0, reply == Answered, 0)] == [Life(PLAIN.id, 0, 0, reply == Answered, 0)];
  }

  lemma MeterAdds(meter: map<MsgId, nat>, applied: nat, tries: nat, reply: Reply)
    requires reply != Unreached && meter.Keys <= {PLAIN.id} && Metered(meter, PLAIN.id) == applied
    ensures Step(Flagged(true, meter, applied, Metering(0, tries)), Meter(0, reply)) ==
            Flagged(true, map[PLAIN.id := applied + 1], applied + 1, AfterMeter(0, tries, 0, reply))
  {
    var phase := AfterMeter(0, tries, 0, reply);
    assert meter[PLAIN.id := applied + 1] == map[PLAIN.id := applied + 1];
    assert map[0 := Fetch(PLAIN, RedisHit, Metering(0, tries))][0 := Fetch(PLAIN, RedisHit, phase)] ==
           map[0 := Fetch(PLAIN, RedisHit, phase)];
  }

  function ThreeTimes(): seq<Event> {
    Prelude() + [Count(0, Answered)] + [Meter(0, Lost)] + [Meter(0, Lost)] + [Meter(0, Answered)]
  }

  /** Two metering replies lost and the third answered: the delivery is returned, metered three times. */
  lemma MeteredThrice()
    ensures var s := Run(0, ThreeTimes());
      Won(s, 0) && Metered(s.meter, PLAIN.id) == 3 && Told(s.lives, PLAIN.id) == 1
  {
    PreludeVerifies();
    var e1 := Prelude() + [Count(0, Answered)];
    RunSnocs(0, Prelude(), Count(0, Answered));
    CountSets(Answered);
    var e2 := e1 + [Meter(0, Lost)];
    RunSnocs(0, e1, Meter(0, Lost));
    MeterAdds(map[], 0, 3, Lost);
    var e3 := e2 + [Meter(0, Lost)];
    RunSnocs(0, e2, Meter(0, Lost));
    MeterAdds(map[PLAIN.id := 1], 1, 2, Lost);
    RunSnocs(0, e3, Meter(0, Answered));
    MeterAdds(map[PLAIN.id := 2], 2, 1, Answered);
    var l := Life(PLAIN.id, 0, 0, true, 3);
    assert [l][..0] == [];
  }

  function Unmetered(): seq<Event> {
    Prelude() + [Count(0, Lost)] + [Count(0, Answered)]
  }

  /** The counting reply lost, and the retry told the flag is there: the delivery is returned unmetered. */
  lemma ReturnedUnmetered()
    ensures var s := Run(0, Unmetered());
      0 in s.fetches && s.fetches[0].phase.Returned? && Metered(s.meter, PLAIN.id) == 0
  {
    PreludeVerifies();
    RunSnocs(0, Prelude(), Count(0, Lost));
    CountSets(Lost);
    RunSnocs(0, Prelude() + [Count(0, Lost)], Count(0, Answered));
  }
}
