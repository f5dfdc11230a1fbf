/**
 One fetch from its check to its end, with the two retry loops as they run, and the proof that
 this is the steps of module Delivery one after the other when no other fetch comes between them.
 */
module DeliveryFetch {
  import opened Wrappers
  import opened Delivery

  /** The counting loop: one reply per try until it is over. */
  function CountAll(p: Progress, id: MsgId, now: nat, f: FetchId, replies: seq<Reply>): Progress {
    if replies == [] then p
    else CountOne(CountAll(p, id, now, f, replies[..|replies| - 1]), id, now, f, replies[|replies| - 1])
  }

  /** The metering loop. */
  function MeterAll(p: Progress, replies: seq<Reply>): Progress {
    if replies == [] then p else MeterOne(MeterAll(p, replies[..|replies| - 1]), replies[|replies| - 1])
  }

  // ---------------------------------------------------------------- the code

  class InstantMessages {
    /** When each counted flag runs out. */
    var expiry: map<MsgId, nat>
    var meter: map<MsgId, nat>
    ghost var flags: map<MsgId, Flag>
    ghost var lives: seq<Life>

    ghost predicate Valid()
      reads this
    {
      flags.Keys == expiry.Keys && forall id :: id in flags ==> flags[id].expireAt == expiry[id]
    }

    ghost function In(phase: Phase): Progress
      reads this
    {
      Progress(flags, meter, lives, phase)
    }

    /** The script: true when it set the flag, false when it was there; an error when no answer comes. */
    method CountDeliveryOnceAtomic(id: MsgId, reply: Reply, now: nat, ghost f: FetchId, ghost tries: nat)
      returns (r: Result<bool, ()>, ghost phase: Phase)
      requires Valid()
      modifies this`expiry, this`flags, this`lives
      ensures Valid()
      ensures In(phase) == CountOne(old(In(Counting(tries))), id, now, f, reply)
      ensures r.Err? <==> reply != Answered
      ensures r.Err? ==> phase == Retry(tries)
      ensures r.Ok? ==> if r.value then phase.Metering? else phase.Returned?
    {
      phase := CountOne(In(Counting(tries)), id, now, f, reply).phase;
      if reply == Unreached {
        return Err(()), phase;
      }
      var newlySet := !(id in expiry && now < expiry[id]);
      if newlySet {
        expiry := expiry[id := now + COUNTED_TTL];
        flags := flags[id := Flag(now + COUNTED_TTL, |lives|)];
        lives := lives + [Life(id, now, f, reply == Answered, 0)];
      }
      r := if reply == Answered then Ok(newlySet) else Err(());
    }

    method CountDeliveryOnceWithRetry(id: MsgId, replies: seq<Reply>, now: nat, ghost f: FetchId)
      returns (r: Result<bool, ()>, ghost phase: Phase)
      requires Valid() && |replies| == RETRIES
      modifies this`expiry, this`flags, this`lives
      ensures Valid()
      ensures In(phase) == CountAll(old(In(Counting(RETRIES))), id, now, f, replies)
      ensures r.Err? <==> phase == Aborted
      ensures r.Ok? ==> if r.value then phase.Metering? else phase.Returned?
    {
      var retries := RETRIES;
      phase := Counting(RETRIES);
      r := Err(());
      while retries > 0
        invariant 0 <= retries <= RETRIES && Valid()
        invariant In(phase) == CountAll(old(In(Counting(RETRIES))), id, now, f, replies[..RETRIES - retries])
        invariant phase == (if retries == 0 then Aborted else Counting(retries)) && r.Err?
      {
        var i := RETRIES - retries;
        assert replies[..i + 1][..i] == replies[..i];
        r, phase := CountDeliveryOnceAtomic(id, replies[i], now, f, retries);
        if r.Ok? {
          NoMoreCounting(In(phase), id, now, f, old(In(Counting(RETRIES))), replies, i + 1);
          return;
        }
        retries := retries - 1;
      }
      assert replies[..RETRIES] == replies;
    }

    /** An increment takes effect whole or not at all; an error says nothing about which. */
    method IncrementReceived(id: MsgId, reply: Reply, ghost life: nat, ghost tries: nat)
      returns (ok: bool, ghost phase: Phase)
      requires life < |lives| && lives[life].id == id
      modifies this`meter, this`lives
      ensures In(phase) == MeterOne(old(In(Metering(life, tries))), reply)
      ensures |lives| == |old(lives)| && lives[life].id == id
      ensures ok <==> phase.Returned?
      ensures !ok ==> phase == if tries <= 1 then Aborted else Metering(life, tries - 1)
    {
      phase := AfterMeter(life, tries, lives[life].at, reply);
      if reply != Unreached {
        meter := meter[id := (if id in meter then meter[id] else 0) + 1];
        lives := lives[life := lives[life].(applied := lives[life].applied + 1)];
      }
      ok := reply == Answered;
    }

    method IncrementReceivedWithRetry(id: MsgId, replies: seq<Reply>, ghost life: nat)
      returns (ok: bool, ghost phase: Phase)
      requires |replies| == RETRIES && life < |lives| && lives[life].id == id
      modifies this`meter, this`lives
      ensures In(phase) == MeterAll(old(In(Metering(life, RETRIES))), replies)
      ensures if ok then phase.Returned? else phase == Aborted
    {
      var retries := RETRIES;
      phase := Metering(life, RETRIES);
      while retries > 0
        invariant 0 <= retries <= RETRIES
        invariant life < |lives| && lives[life].id == id
        invariant In(phase) == MeterAll(old(In(Metering(life, RETRIES))), replies[..RETRIES - retries])
        invariant phase == if retries == 0 then Aborted else Metering(life, retries)
      {
        var i := RETRIES - retries;
        assert replies[..i + 1][..i] == replies[..i];
        ok, phase := IncrementReceived(id, replies[i], life, retries);
        if ok {
          NoMoreMetering(In(phase), old(In(Metering(life, RETRIES))), replies, i + 1);
          return;
        }
        retries := retries - 1;
      }
      assert replies[..RETRIES] == replies;
      ok := false;
    }

    /** Verify, count, meter if newly counted, and only then return the message. */
    method Deliver(m: Message, path: Path, countReplies: seq<Reply>, meterReplies: seq<Reply>, now: nat,
                   ghost f: FetchId)
      returns (r: Option<Message>, ghost phase: Phase)
      requires Valid() && |countReplies| == RETRIES && |meterReplies| == RETRIES
      modifies this
      ensures Valid()
      ensures In(phase) == Fetched(old(In(Verifying)), m, path, countReplies, meterReplies, now, f)
      ensures if phase.Returned? then r == Some(m) else r == None
      ensures r.Some? <==>
              && (path.RedisHit? && m.requireProof ==> m.signature.Some? && m.signatureValid)
              && (path.SqlFallback? ==>
                    m.signature.Some? && (m.requireProof ==> m.signature.value == "" || m.signatureValid))
              && AnyAnswered(countReplies)
              && (Alive(old(flags), m.id, now) || LostFirst(countReplies) || AnyAnswered(meterReplies))
    {
      FetchedReturnsIff(In(Verifying), m, path, countReplies, meterReplies, now, f);
      if !Verifies(path, m) {
        NoMoreCounting(In(Aborted), m.id, now, f, In(Aborted), countReplies, 0);
        NoMoreMetering(In(Aborted), In(Aborted), meterReplies, 0);
        return None, Aborted;
      }
      var counted;
      counted, phase := CountDeliveryOnceWithRetry(m.id, countReplies, now, f);
      if counted.Err? || !counted.value {
        NoMoreMetering(In(phase), In(phase), meterReplies, 0);
        return if counted.Err? then None else Some(m), phase;
      }
      CountingSets(old(In(Counting(RETRIES))), m.id, now, f, countReplies);
      assert phase == Metering(phase.life, RETRIES);
      var ok;
      ok, phase := IncrementReceivedWithRetry(m.id, meterReplies, phase.life);
      r := if ok then Some(m) else None;
    }
  }

  function Fetched(p: Progress, m: Message, path: Path, counts: seq<Reply>, meters: seq<Reply>, now: nat,
                   f: FetchId): Progress {
    MeterAll(CountAll(CheckOne(p, m, path), m.id, now, f, counts), meters)
  }

  lemma {:induction false} NoMoreCounting(p: Progress, id: MsgId, now: nat, f: FetchId,
                                          start: Progress, replies: seq<Reply>, i: nat)
    requires i <= |replies| && p == CountAll(start, id, now, f, replies[..i]) && !p.phase.Counting?
    ensures p == CountAll(start, id, now, f, replies)
  {
    if i == |replies| {
      assert replies[..i] == replies;
    } else {
      var before := replies[..|replies| - 1];
      assert before[..i] == replies[..i];
      NoMoreCounting(p, id, now, f, start, before, i);
    }
  }

  lemma {:induction false} NoMoreMetering(p: Progress, start: Progress, replies: seq<Reply>, i: nat)
    requires i <= |replies| && p == MeterAll(start, replies[..i]) && !p.phase.Metering?
    ensures p == MeterAll(start, replies)
  {
    if i == |replies| {
      assert replies[..i] == replies;
    } else {
      var before := replies[..|replies| - 1];
      assert before[..i] == replies[..i];
      NoMoreMetering(p, start, before, i);
    }
  }

  /** A fetch that comes to metering does so with a flag of its message that it set. */
  lemma {:induction false} CountingSets(start: Progress, id: MsgId, now: nat, f: FetchId, replies: seq<Reply>)
    requires start.phase.Counting?
    ensures var p := CountAll(start, id, now, f, replies);
      p.phase.Metering? ==>
        p.phase.life < |p.lives| && p.lives[p.phase.life].id == id && p.phase.tries == RETRIES
  {
    if replies != [] {
      CountingSets(start, id, now, f, replies[..|replies| - 1]);
    }
  }

  // ---------------------------------------------------------------- when it hands its message on

  predicate AnyAnswered(replies: seq<Reply>) {
    exists i: nat :: i < |replies| && replies[i].Answered?
  }

  /** A reply was lost before any came. */
  predicate LostFirst(replies: seq<Reply>) {
    exists i: nat :: i < |replies| && replies[i].Lost? && !AnyAnswered(replies[..i])
  }

  lemma AnsweredMore(replies: seq<Reply>)
    requires replies != []
    ensures var before, last := replies[..|replies| - 1], replies[|replies| - 1];
      && (AnyAnswered(replies) <==> AnyAnswered(before) || last.Answered?)
      && (LostFirst(replies) <==> LostFirst(before) || (last.Lost? && !AnyAnswered(before)))
  {
    var n := |replies| - 1;
    var before := replies[..n];
    assert forall i: nat :: i < n ==> before[..i] == replies[..i] && before[i] == replies[i];
    if i: nat :| i < n && before[i].Answered? {
      assert replies[i].Answered?;
    }
    if replies[n].Answered? {
      assert AnyAnswered(replies);
    }
    if i: nat :| i < n && before[i].Lost? && !AnyAnswered(before[..i]) {
      assert replies[i].Lost? && !AnyAnswered(replies[..i]);
    }
    if replies[n].Lost? && !AnyAnswered(before) {
      assert LostFirst(replies);
    }
    if i: nat :| i < |replies| && replies[i].Lost? && !AnyAnswered(replies[..i]) {
      if i < n {
        assert before[i].Lost? && !AnyAnswered(before[..i]);
      }
    }
  }

  /** Counting goes on to the first answer, which says whether the flag was there: also when a lost try set it. */
  lemma {:induction false} CountingEnds(p: Progress, id: MsgId, now: nat, f: FetchId, replies: seq<Reply>)
    requires p.phase == Counting(3) && |replies| <= 3
    ensures var q := CountAll(p, id, now, f, replies);
      if AnyAnswered(replies) then
        if Alive(p.flags, id, now) || LostFirst(replies) then q.phase.Returned? else q.phase.Metering?
      else
        && q.phase == (if |replies| == 3 then Aborted else Counting(3 - |replies|))
        && (Alive(q.flags, id, now) <==> Alive(p.flags, id, now) || LostFirst(replies))
  {
    if replies != [] {
      AnsweredMore(replies);
      CountingEnds(p, id, now, f, replies[..|replies| - 1]);
    }
  }

  lemma {:induction false} MeteringEnds(p: Progress, replies: seq<Reply>)
    requires p.phase.Metering? && p.phase.tries == 3 && p.phase.life < |p.lives| && |replies| <= 3
    ensures var q := MeterAll(p, replies);
      if AnyAnswered(replies) then q.phase.Returned?
      else
        && q.phase == (if |replies| == 3 then Aborted else Metering(p.phase.life, 3 - |replies|))
        && |q.lives| == |p.lives|
  {
    if replies != [] {
      AnsweredMore(replies);
      MeteringEnds(p, replies[..|replies| - 1]);
    }
  }

  /**
   A fetch hands its message on if and only if the message has what its path asks for, one of three tries to count
   it is answered, and, when that try newly set the flag, one of three tries to meter it is.
   */
  lemma FetchedReturnsIff(p: Progress, m: Message, path: Path, counts: seq<Reply>, meters: seq<Reply>, now: nat,
                          f: FetchId)
    requires p.phase.Verifying? && |counts| == 3 && |meters| == 3
    ensures Fetched(p, m, path, counts, meters, now, f).phase.Returned? <==>
            && (path.RedisHit? && m.requireProof ==> m.signature.Some? && m.signatureValid)
            && (path.SqlFallback? ==>
                  m.signature.Some? && (m.requireProof ==> m.signature.value == "" || m.signatureValid))
            && AnyAnswered(counts)
            && (Alive(p.flags, m.id, now) || LostFirst(counts) || AnyAnswered(meters))
  {
    var c := CheckOne(p, m, path);
    if c.phase == Aborted {
      NoMoreCounting(c, m.id, now, f, c, counts, 0);
      NoMoreMetering(c, c, meters, 0);
    } else {
      CountingEnds(c, m.id, now, f, counts);
      var q := CountAll(c, m.id, now, f, counts);
      if q.phase.Metering? {
        CountingSets(c, m.id, now, f, counts);
        MeteringEnds(q, meters);
      } else {
        NoMoreMetering(q, q, meters, 0);
      }
    }
  }

  // ---------------------------------------------------------------- the steps of the machine

  function RunFrom(s: System, events: seq<Event>): System {
    if events == [] then s else Step(RunFrom(s, events[..|events| - 1]), events[|events| - 1])
  }

  function Counts(f: FetchId, replies: seq<Reply>): seq<Event> {
    seq(|replies|, i requires 0 <= i < |replies| => Count(f, replies[i]))
  }

  function Meters(f: FetchId, replies: seq<Reply>): seq<Event> {
    seq(|replies|, i requires 0 <= i < |replies| => Meter(f, replies[i]))
  }

  lemma CountStepIsOne(s: System, f: FetchId, p: Progress, reply: Reply)
    requires f in s.fetches
    ensures Step(Put(s, f, p), Count(f, reply)) == Put(s, f, CountOne(p, s.fetches[f].msg.id, s.now, f, reply))
  {
    var s' := Put(s, f, p);
    assert s'.fetches[f].phase == p.phase;
    var q := CountOne(p, s.fetches[f].msg.id, s.now, f, reply);
    assert s'.fetches[f := s'.fetches[f].(phase := q.phase)] == Put(s, f, q).fetches;
  }

  lemma MeterStepIsOne(s: System, f: FetchId, p: Progress, reply: Reply)
    requires f in s.fetches
    ensures Step(Put(s, f, p), Meter(f, reply)) == Put(s, f, MeterOne(p, reply))
  {
    var s' := Put(s, f, p);
    assert s'.fetches[f].phase == p.phase;
    var q := MeterOne(p, reply);
    assert s'.fetches[f := s'.fetches[f].(phase := q.phase)] == Put(s, f, q).fetches;
  }

  lemma {:induction false} CountsRun(s: System, f: FetchId, p: Progress, replies: seq<Reply>)
    requires f in s.fetches
    ensures RunFrom(Put(s, f, p), Counts(f, replies)) == Put(s, f, CountAll(p, s.fetches[f].msg.id, s.now, f, replies))
  {
    if replies != [] {
      var n := |replies| - 1;
      CountsRun(s, f, p, replies[..n]);
      assert Counts(f, replies)[..n] == Counts(f, replies[..n]);
      CountStepIsOne(s, f, CountAll(p, s.fetches[f].msg.id, s.now, f, replies[..n]), replies[n]);
    }
  }

  lemma {:induction false} MetersRun(s: System, f: FetchId, p: Progress, replies: seq<Reply>)
    requires f in s.fetches
    ensures RunFrom(Put(s, f, p), Meters(f, replies)) == Put(s, f, MeterAll(p, replies))
  {
    if replies != [] {
      var n := |replies| - 1;
      MetersRun(s, f, p, replies[..n]);
      assert Meters(f, replies)[..n] == Meters(f, replies[..n]);
      MeterStepIsOne(s, f, MeterAll(p, replies[..n]), replies[n]);
    }
  }

  /** A fetch left alone does in the machine what the code does. */
  lemma AloneFetch(s: System, f: FetchId, counts: seq<Reply>, meters: seq<Reply>)
    requires f in s.fetches && s.fetches[f].phase.Verifying?
    ensures var m, path := s.fetches[f].msg, s.fetches[f].path;
      RunFrom(RunFrom(Step(s, Verify(f)), Counts(f, counts)), Meters(f, meters)) ==
      Put(s, f, Fetched(Of(s, f), m, path, counts, meters, s.now, f))
  {
    var m, path := s.fetches[f].msg, s.fetches[f].path;
    var p := CheckOne(Of(s, f), m, path);
    assert Step(s, Verify(f)) == Put(s, f, p);
    CountsRun(s, f, p, counts);
    MetersRun(s, f, CountAll(p, m.id, s.now, f, counts), meters);
  }
}
