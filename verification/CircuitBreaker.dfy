/** The circuit breaker, its calls made one at a time, with guards that report whenever they like. */
module CircuitBreaker {
  import opened Bits
  import opened BreakerWord
  import opened Wrappers

  const HALF_OPEN_MAX_CALLS: nat := 3

  datatype Config = Config(threshold: nat, timeout: nat)

  /** The decoded word and the counter of half-open calls. */
  datatype Breaker = Breaker(state: CircuitState, failures: nat, last: nat, calls: nat)

  /** Subtraction of 64-bit words. */
  function Elapsed(now: nat, last: nat): nat {
    if last <= now then now - last else (now - last) % WORD
  }

  /** The breaker after `allow_request`, and whether the caller holds a guard. */
  function Allow(b: Breaker, now: nat, cfg: Config): (Breaker, bool) {
    match b.state
    case Closed => (b, true)
    case Open =>
      if Elapsed(now, b.last) > cfg.timeout then (Breaker(HalfOpen, 0, now % TIME_UNIT, 0), true) else (b, false)
    case HalfOpen => (b.(calls := (b.calls + 1) % WORD), b.calls < HALF_OPEN_MAX_CALLS)
  }

  function Success(b: Breaker): Breaker {
    match b.state
    case HalfOpen => Breaker(Closed, 0, 0, 0)
    case Closed => Breaker(Closed, 0, 0, b.calls)
    case Open => b
  }

  function Failure(b: Breaker, now: nat, cfg: Config): Breaker {
    var count := b.failures + 1;
    Breaker(if count >= cfg.threshold then Open else b.state, count, now % TIME_UNIT, b.calls)
  }

  class CircuitBreaker {
    var word: nat
    var halfOpenCalls: nat
    const cfg: Config

    constructor (failureThreshold: nat, timeoutSeconds: nat)
      ensures cfg == Config(failureThreshold, timeoutSeconds) && View() == Breaker(Closed, 0, 0, 0)
    {
      ZeroWord();
      word, halfOpenCalls, cfg := 0, 0, Config(failureThreshold, timeoutSeconds);
    }

    function View(): Breaker
      reads this
    {
      Breaker(UnpackState(word), UnpackFailureCount(word), UnpackLastFailure(word), halfOpenCalls)
    }

    method TransitionToHalfOpen(now: nat)
      modifies this
      ensures View() == Breaker(HalfOpen, 0, now % TIME_UNIT, 0)
    {
      PackThenUnpack(HalfOpen, 0, now);
      word := PackState(HalfOpen, 0, now);
      halfOpenCalls := 0;
    }

    method AllowRequest(now: nat) returns (ok: bool)
      modifies this
      ensures (View(), ok) == Allow(old(View()), now, cfg)
    {
      match UnpackState(word)
      case Closed =>
        ok := true;
      case Open =>
        ok := Elapsed(now, UnpackLastFailure(word)) > cfg.timeout;
        if ok {
          TransitionToHalfOpen(now);
        }
      case HalfOpen =>
        ok := halfOpenCalls < HALF_OPEN_MAX_CALLS;
        halfOpenCalls := (halfOpenCalls + 1) % WORD;
    }

    method RecordSuccess()
      modifies this
      ensures View() == Success(old(View()))
    {
      ZeroWord();
      match UnpackState(word)
      case HalfOpen =>
        word := 0;
        halfOpenCalls := 0;
      case Closed =>
        word := PackState(Closed, 0, 0);
      case Open =>
    }

    /** A count that no longer fits its thirty bits spills into the state. */
    method RecordFailure(now: nat)
      modifies this
      ensures halfOpenCalls == old(halfOpenCalls)
      ensures var b := old(View());
        View() == if b.failures + 1 < COUNT_UNIT then Failure(b, now, cfg)
                  else
                    var tripped := if COUNT_UNIT >= cfg.threshold then Open else b.state;
                    Breaker(Spilled(tripped), 0, now % TIME_UNIT, b.calls)
    {
      var count := UnpackFailureCount(word) + 1;
      CountIsSmall(word);
      var state := if count >= cfg.threshold then Open else UnpackState(word);
      if count < COUNT_UNIT {
        PackThenUnpack(state, count, now);
      } else {
        PackFullCount(state, count, now);
      }
      if count >= cfg.threshold {
        word := PackState(Open, count, now);
      } else {
        word := PackState(UnpackState(word), count, now);
      }
    }
  }

  // ---------------------------------------------------------------- runs

  datatype Op = Request | Succeed | Fail | Release | Tick(seconds: nat)

  /**
   A breaker, the guards that have not reported yet, the clock, and the failures recorded since the
   last reset. A reset is a success recorded while not open, or the step from open to half-open.
   */
  datatype System = System(b: Breaker, guards: nat, clock: nat, streak: nat)

  const INITIAL := System(Breaker(Closed, 0, 0, 0), 0, 0, 0)

  function Step(s: System, op: Op, cfg: Config): System {
    match op
    case Request =>
      var (b, ok) := Allow(s.b, s.clock, cfg);
      System(b, if ok then s.guards + 1 else s.guards, s.clock, if s.b.state.Open? && ok then 0 else s.streak)
    case Succeed =>
      if s.guards == 0 then s
      else System(Success(s.b), s.guards - 1, s.clock, if s.b.state.Open? then s.streak else 0)
    case Fail =>
      if s.guards == 0 then s
      else System(Failure(s.b, s.clock, cfg), s.guards - 1, s.clock, s.streak + 1)
    case Release => if s.guards == 0 then s else s.(guards := s.guards - 1)
    case Tick(d) => s.(clock := s.clock + d)
  }

  function Run(s: System, ops: seq<Op>, cfg: Config): System
    decreases ops
  {
    if ops == [] then s else Run(Step(s, ops[0], cfg), ops[1..], cfg)
  }

  /** How many guards the requests of a run obtain. */
  function Issued(s: System, ops: seq<Op>, cfg: Config): nat
    decreases ops
  {
    if ops == [] then 0
    else (if ops[0].Request? && Allow(s.b, s.clock, cfg).1 then 1 else 0) + Issued(Step(s, ops[0], cfg), ops[1..], cfg)
  }

  function Requests(ops: seq<Op>): nat {
    if ops == [] then 0 else (if ops[0].Request? then 1 else 0) + Requests(ops[1..])
  }

  // ---------------------------------------------------------------- when it is open

  ghost predicate Inv(s: System, cfg: Config) {
    && s.b.failures == s.streak
    && (s.b.state.Open? <==> s.streak >= cfg.threshold)
    && s.b.last <= s.clock
  }

  lemma {:induction false} RunKeepsInv(s: System, ops: seq<Op>, cfg: Config)
    requires cfg.threshold >= 1 && Inv(s, cfg)
    ensures Inv(Run(s, ops, cfg), cfg)
    ensures s.clock <= Run(s, ops, cfg).clock
    decreases ops
  {
    if ops != [] {
      RunKeepsInv(Step(s, ops[0], cfg), ops[1..], cfg);
    }
  }

  function Failures(ops: seq<Op>): nat {
    if ops == [] then 0 else (if ops[0].Fail? then 1 else 0) + Failures(ops[1..])
  }

  /**
   Runs count failures without limit; with fewer than 2^30 reported, every count fits its thirty bits
   and the runs are those of the class.
   */
  lemma {:induction false} CountsFit(s: System, ops: seq<Op>, cfg: Config)
    requires s.b.failures + Failures(ops) < COUNT_UNIT
    ensures Run(s, ops, cfg).b.failures < COUNT_UNIT
    decreases ops
  {
    if ops != [] {
      CountsFit(Step(s, ops[0], cfg), ops[1..], cfg);
    }
  }

  /**
   In every run the breaker is open exactly when the failures recorded since the last reset have
   reached the threshold, and the time of the last failure is never ahead of the clock.
   */
  lemma OpenIffThreshold(ops: seq<Op>, cfg: Config)
    requires cfg.threshold >= 1
    ensures var s := Run(INITIAL, ops, cfg);
      && (s.b.state.Open? <==> s.streak >= cfg.threshold)
      && s.b.failures == s.streak
      && s.b.last <= s.clock
  {
    RunKeepsInv(INITIAL, ops, cfg);
  }

  /** A closed breaker trips at the failure that completes the threshold, and at no earlier one. */
  lemma TripsExactlyAtThreshold(ops: seq<Op>, cfg: Config)
    requires cfg.threshold >= 1
    requires Run(INITIAL, ops, cfg).b.state.Closed? && Run(INITIAL, ops, cfg).guards > 0
    ensures var s := Run(INITIAL, ops, cfg);
      var s' := Step(s, Fail, cfg);
      && s'.streak == s.streak + 1
      && (s'.b.state.Open? <==> s'.streak == cfg.threshold)
      && (!s'.b.state.Open? ==> s'.b.state.Closed?)
  {
    RunKeepsInv(INITIAL, ops, cfg);
  }

  // ---------------------------------------------------------------- how long it is open

  /** The second of the last failure recorded in a run, `before` if there is none. */
  function FailedAt(s: System, ops: seq<Op>, cfg: Config, before: nat): nat
    decreases ops
  {
    if ops == [] then before
    else FailedAt(Step(s, ops[0], cfg), ops[1..], cfg, if ops[0].Fail? && s.guards > 0 then s.clock else before)
  }

  lemma {:induction false} OpenSinceFailure(s: System, ops: seq<Op>, cfg: Config, before: nat)
    requires s.b.state.Open? ==> s.b.last == before % TIME_UNIT
    ensures var s' := Run(s, ops, cfg); s'.b.state.Open? ==> s'.b.last == FailedAt(s, ops, cfg, before) % TIME_UNIT
    decreases ops
  {
    if ops != [] {
      OpenSinceFailure(Step(s, ops[0], cfg), ops[1..], cfg, if ops[0].Fail? && s.guards > 0 then s.clock else before);
    }
  }

  /** In every run an open breaker holds the second of the last failure, cut to 32 bits. */
  lemma OpenHoldsLastFailure(ops: seq<Op>, cfg: Config)
    ensures var s := Run(INITIAL, ops, cfg);
      s.b.state.Open? ==> s.b.last == FailedAt(INITIAL, ops, cfg, 0) % 0x1_0000_0000
  {
    OpenSinceFailure(INITIAL, ops, cfg, 0);
  }

  lemma {:induction false} FailedBefore(s: System, ops: seq<Op>, cfg: Config, before: nat)
    requires before <= s.clock
    ensures FailedAt(s, ops, cfg, before) <= Run(s, ops, cfg).clock
    decreases ops
  {
    if ops != [] {
      FailedBefore(Step(s, ops[0], cfg), ops[1..], cfg, if ops[0].Fail? && s.guards > 0 then s.clock else before);
    }
  }

  lemma {:induction false} RejectsFrom(s: System, ops: seq<Op>, cfg: Config)
    requires cfg.threshold >= 1 && Inv(s, cfg) && s.b.state.Open?
    requires Run(s, ops, cfg).clock <= s.b.last + cfg.timeout && Run(s, ops, cfg).clock < TIME_UNIT
    ensures Run(s, ops, cfg).b.state.Open? && Issued(s, ops, cfg) == 0
    decreases ops
  {
    if ops != [] {
      var s' := Step(s, ops[0], cfg);
      RunKeepsInv(s', ops[1..], cfg);
      RejectsFrom(s', ops[1..], cfg);
    }
  }

  /**
   While the clock has not passed the second of the last failure by more than the timeout, an open breaker stays
   open and issues no guard, whatever reports come in.
   */
  lemma RejectsUntilTimeout(ops: seq<Op>, more: seq<Op>, cfg: Config)
    requires cfg.threshold >= 1 && Run(INITIAL, ops, cfg).b.state.Open?
    requires var clock := Run(Run(INITIAL, ops, cfg), more, cfg).clock;
      clock <= FailedAt(INITIAL, ops, cfg, 0) + cfg.timeout && clock < 0x1_0000_0000
    ensures var s := Run(INITIAL, ops, cfg);
      Run(s, more, cfg).b.state.Open? && Issued(s, more, cfg) == 0
  {
    var s := Run(INITIAL, ops, cfg);
    RunKeepsInv(INITIAL, ops, cfg);
    RunKeepsInv(s, more, cfg);
    OpenSinceFailure(INITIAL, ops, cfg, 0);
    FailedBefore(INITIAL, ops, cfg, 0);
    RejectsFrom(s, more, cfg);
  }

  /**
   A request to an open breaker is let through exactly when the timeout has passed since the last failure: before
   2106 by the clock, and later by what 32 bits keep of that second.
   */
  lemma ProbesAfterTimeout(ops: seq<Op>, cfg: Config)
    requires cfg.threshold >= 1 && Run(INITIAL, ops, cfg).b.state.Open?
    ensures var s, failed := Run(INITIAL, ops, cfg), FailedAt(INITIAL, ops, cfg, 0);
      var (b, ok) := Allow(s.b, s.clock, cfg);
      && (s.clock < 0x1_0000_0000 ==> (ok <==> s.clock > failed + cfg.timeout))
      && (ok <==> s.clock > failed % 0x1_0000_0000 + cfg.timeout)
      && (if ok then b.state.HalfOpen? && b.calls == 0 && b.failures == 0 else b == s.b)
  {
    RunKeepsInv(INITIAL, ops, cfg);
    OpenSinceFailure(INITIAL, ops, cfg, 0);
    FailedBefore(INITIAL, ops, cfg, 0);
  }

  /**
   When the clock has been set back behind the last failure, the subtraction wraps round and the next request is let
   through at once, for every timeout shorter than 2^64 seconds less the step back.
   */
  lemma ClockSetBackProbes(b: Breaker, now: nat, cfg: Config)
    requires b.state.Open? && now < b.last < 0x1_0000_0000
    ensures Allow(b, now, cfg).1 <==> cfg.timeout < 0x1_0000_0000_0000_0000 - (b.last - now)
    ensures Allow(b, now, cfg).1 ==> Allow(b, now, cfg).0 == Breaker(HalfOpen, 0, now, 0)
  {
  }

  // ---------------------------------------------------------------- one half-open episode

  /** Every state of the run is half-open. */
  predicate StaysHalfOpen(s: System, ops: seq<Op>, cfg: Config)
    decreases ops
  {
    s.b.state.HalfOpen? && (ops != [] ==> StaysHalfOpen(Step(s, ops[0], cfg), ops[1..], cfg))
  }

  function Left(calls: nat): nat {
    HALF_OPEN_MAX_CALLS - Min(calls, HALF_OPEN_MAX_CALLS)
  }

  lemma {:induction false} HalfOpenGuards(s: System, ops: seq<Op>, cfg: Config)
    requires StaysHalfOpen(s, ops, cfg) && s.b.calls + |ops| < WORD
    ensures Issued(s, ops, cfg) == Min(Requests(ops), Left(s.b.calls))
    decreases ops
  {
    if ops != [] {
      HalfOpenGuards(Step(s, ops[0], cfg), ops[1..], cfg);
    }
  }

  /**
   One half-open episode, from the request that starts it to any point before it ends, issues one
   guard and one more for each of the next three requests.
   */
  lemma EpisodeGuards(s: System, ops: seq<Op>, cfg: Config)
    requires s.b.state.Open? && Allow(s.b, s.clock, cfg).1
    requires StaysHalfOpen(Step(s, Request, cfg), ops, cfg) && |ops| < WORD
    ensures Issued(s, [Request] + ops, cfg) == 1 + Min(Requests(ops), 3)
  {
    assert ([Request] + ops)[1..] == ops;
    HalfOpenGuards(Step(s, Request, cfg), ops, cfg);
  }

  // ---------------------------------------------------------------- when half-open is final

  /** Some run, too short to wrap the call counter, ends outside half-open. */
  ghost predicate CanLeave(s: System, cfg: Config) {
    exists ops :: s.b.calls + |ops| < WORD && !Run(s, ops, cfg).b.state.HalfOpen?
  }

  predicate Spent(s: System) {
    s.b.state.HalfOpen? && s.guards == 0 && s.b.calls >= HALF_OPEN_MAX_CALLS
  }

  lemma {:induction false} SpentIsFinal(s: System, ops: seq<Op>, cfg: Config)
    requires Spent(s) && s.b.calls + |ops| < WORD
    ensures Run(s, ops, cfg).b.state.HalfOpen? && Issued(s, ops, cfg) == 0
    decreases ops
  {
    if ops != [] {
      SpentIsFinal(Step(s, ops[0], cfg), ops[1..], cfg);
    }
  }

  /** A half-open breaker can still leave that state unless its calls are spent and no guard is out. */
  lemma LeavesHalfOpenIff(s: System, cfg: Config)
    requires s.b.state.HalfOpen? && s.b.calls + 2 < WORD
    ensures CanLeave(s, cfg) <==> !Spent(s)
  {
    if Spent(s) {
      forall ops | s.b.calls + |ops| < WORD
        ensures Run(s, ops, cfg).b.state.HalfOpen?
      {
        SpentIsFinal(s, ops, cfg);
      }
    } else if s.guards > 0 {
      assert [Succeed][1..] == [];
      assert Run(s, [Succeed], cfg) == Step(s, Succeed, cfg);
    } else {
      var s1 := Step(s, Request, cfg);
      assert [Request, Succeed][1..] == [Succeed] && [Succeed][1..] == [];
      assert Run(s1, [Succeed], cfg) == Step(s1, Succeed, cfg);
      assert Run(s, [Request, Succeed], cfg) == Run(s1, [Succeed], cfg);
    }
  }

  predicate AllReport(ops: seq<Op>) {
    forall i :: 0 <= i < |ops| ==> !ops[i].Release?
  }

  /** With every guard reporting, a breaker reaches a half-open state it can never leave. */
  ghost predicate CanGetStuck(cfg: Config) {
    exists ops :: AllReport(ops) && Spent(Run(INITIAL, ops, cfg))
  }

  /** In half-open, each guard issued in the episode is still out or has failed. */
  ghost predicate Accounted(s: System, cfg: Config) {
    Inv(s, cfg) && (s.b.state.HalfOpen? ==> s.b.failures + s.guards >= 1 + Min(s.b.calls, HALF_OPEN_MAX_CALLS))
  }

  lemma {:induction false} RunAccounts(s: System, ops: seq<Op>, cfg: Config)
    requires cfg.threshold >= 1 && Accounted(s, cfg) && AllReport(ops)
    ensures Accounted(Run(s, ops, cfg), cfg)
    decreases ops
  {
    if ops != [] {
      assert !ops[0].Release?;
      RunAccounts(Step(s, ops[0], cfg), ops[1..], cfg);
    }
  }

  lemma {:induction false} RunAppend(s: System, a: seq<Op>, b: seq<Op>, cfg: Config)
    ensures Run(s, a + b, cfg) == Run(Run(s, a, cfg), b, cfg)
    decreases a
  {
    if a == [] {
      assert a + b == b;
    } else {
      assert (a + b)[1..] == a[1..] + b;
      RunAppend(Step(s, a[0], cfg), a[1..], b, cfg);
    }
  }

  lemma {:induction false} ManyRequests(s: System, n: nat, cfg: Config)
    requires s.b.state.Closed?
    ensures Run(s, Repeat(Request, n), cfg) == s.(guards := s.guards + n)
    ensures AllReport(Repeat(Request, n))
    decreases n
  {
    if n > 0 {
      assert Repeat(Request, n)[1..] == Repeat(Request, n - 1);
      ManyRequests(Step(s, Request, cfg), n - 1, cfg);
    }
  }

  lemma {:induction false} ManyFailures(s: System, n: nat, cfg: Config)
    requires n <= s.guards && s.b.failures + n < cfg.threshold && s.clock == s.b.last == 0
    ensures Run(s, Repeat(Fail, n), cfg)
         == s.(b := s.b.(failures := s.b.failures + n), guards := s.guards - n, streak := s.streak + n)
    ensures AllReport(Repeat(Fail, n))
    decreases n
  {
    if n > 0 {
      assert Repeat(Fail, n)[1..] == Repeat(Fail, n - 1);
      ManyFailures(Step(s, Fail, cfg), n - 1, cfg);
    }
  }

  /** Open, and with nothing recorded after the failure that tripped it. */
  lemma Tripped(cfg: Config) returns (ops: seq<Op>)
    requires cfg.threshold >= 1
    ensures AllReport(ops)
    ensures Run(INITIAL, ops, cfg) == System(Breaker(Open, cfg.threshold, 0, 0), 0, 0, cfg.threshold)
  {
    var n := cfg.threshold;
    var requests, failures := Repeat(Request, n), Repeat(Fail, n - 1);
    ManyRequests(INITIAL, n, cfg);
    var s1 := Run(INITIAL, requests, cfg);
    ManyFailures(s1, n - 1, cfg);
    var s2 := Run(s1, failures, cfg);
    RunAppend(INITIAL, requests, failures, cfg);
    RunAppend(INITIAL, requests + failures, [Fail], cfg);
    assert Run(s2, [Fail], cfg) == Step(s2, Fail, cfg);
    ops := requests + failures + [Fail];
  }

  /** The four probes of an episode, all of which fail. */
  const FAILED_PROBES: seq<Op> := [Request, Request, Request, Fail, Fail, Fail, Fail]

  lemma ProbesFail(b: Breaker, clock: nat, streak: nat, cfg: Config)
    requires b == Breaker(HalfOpen, 0, clock % TIME_UNIT, 0) && cfg.threshold >= 1
    ensures var s := Run(System(b, 1, clock, streak), FAILED_PROBES, cfg);
      if cfg.threshold > HALF_OPEN_MAX_CALLS + 1
      then Spent(s) && s.b.failures == HALF_OPEN_MAX_CALLS + 1
      else s.b.state.Open? && s.b.failures == HALF_OPEN_MAX_CALLS + 1
  {
    var s0 := System(b, 1, clock, streak);
    var s1 := Step(s0, Request, cfg);
    var s2 := Step(s1, Request, cfg);
    var s3 := Step(s2, Request, cfg);
    assert s3 == System(Breaker(HalfOpen, 0, b.last, 3), 4, clock, streak);
    RunAppend(s0, [Request, Request, Request], [Fail, Fail, Fail, Fail], cfg);
    assert [Request, Request, Request] + [Fail, Fail, Fail, Fail] == FAILED_PROBES;
    ThreeSteps(s0, Request, cfg);
    FourFailures(s3, cfg);
  }

  lemma ThreeSteps(s: System, op: Op, cfg: Config)
    ensures Run(s, [op, op, op], cfg) == Step(Step(Step(s, op, cfg), op, cfg), op, cfg)
  {
    var s1 := Step(s, op, cfg);
    var s2 := Step(s1, op, cfg);
    assert [op, op, op][1..] == [op, op] && [op, op][1..] == [op] && [op][1..] == [];
    assert Run(s2, [op], cfg) == Step(s2, op, cfg);
    assert Run(s1, [op, op], cfg) == Run(s2, [op], cfg);
  }

  lemma FourFailures(s: System, cfg: Config)
    requires s.guards == 4 && s.b.failures == 0 && s.b.state.HalfOpen? && s.b.calls == 3 && cfg.threshold >= 1
    ensures var r := Run(s, [Fail, Fail, Fail, Fail], cfg);
      && r.guards == 0 && r.b.failures == 4 && r.b.calls == 3
      && r.b.state == if cfg.threshold <= 4 then Open else HalfOpen
  {
    ThreeSteps(s, Fail, cfg);
    var s3 := Run(s, [Fail, Fail, Fail], cfg);
    RunAppend(s, [Fail, Fail, Fail], [Fail], cfg);
    assert [Fail, Fail, Fail] + [Fail] == [Fail, Fail, Fail, Fail];
    assert Run(s3, [Fail], cfg) == Step(s3, Fail, cfg);
  }

  /**
   A breaker all of whose guards report can end in a half-open state that nothing leaves exactly
   when its threshold exceeds the four probes of an episode. The message service uses threshold 5.
   */
  lemma StuckIff(cfg: Config)
    requires cfg.threshold >= 1
    ensures CanGetStuck(cfg) <==> cfg.threshold > 4
  {
    if cfg.threshold > HALF_OPEN_MAX_CALLS + 1 {
      var trip := Tripped(cfg);
      var wait := [Tick(cfg.timeout + 1), Request];
      var s := Run(INITIAL, trip, cfg);
      Waits(s, cfg);
      RunAppend(INITIAL, trip, wait, cfg);
      RunAppend(INITIAL, trip + wait, FAILED_PROBES, cfg);
      var probing := Run(INITIAL, trip + wait, cfg);
      ProbesFail(probing.b, probing.clock, probing.streak, cfg);
      assert AllReport(trip + wait + FAILED_PROBES);
    } else if CanGetStuck(cfg) {
      var ops :| AllReport(ops) && Spent(Run(INITIAL, ops, cfg));
      RunAccounts(INITIAL, ops, cfg);
      assert false;
    }
  }

  const DROPPED_PROBES: seq<Op> := [Request, Request, Request, Release, Release, Release, Release]

  lemma ProbesDropped(b: Breaker, clock: nat, streak: nat, cfg: Config)
    requires b == Breaker(HalfOpen, 0, clock % TIME_UNIT, 0)
    ensures Spent(Run(System(b, 1, clock, streak), DROPPED_PROBES, cfg))
  {
    var s0 := System(b, 1, clock, streak);
    var s3 := System(b.(calls := 3), 4, clock, streak);
    ThreeSteps(s0, Request, cfg);
    assert Run(s0, [Request, Request, Request], cfg) == s3;
    ThreeSteps(s3, Release, cfg);
    var s6 := System(b.(calls := 3), 1, clock, streak);
    assert Run(s3, [Release, Release, Release], cfg) == s6;
    RunAppend(s3, [Release, Release, Release], [Release], cfg);
    assert Run(s6, [Release], cfg) == Step(s6, Release, cfg);
    RunAppend(s0, [Request, Request, Request], [Release, Release, Release] + [Release], cfg);
    assert [Request, Request, Request] + ([Release, Release, Release] + [Release]) == DROPPED_PROBES;
  }

  /** When guards may be dropped without a report, it can happen at any threshold: four dropped probes are enough. */
  lemma DroppedProbesStick(cfg: Config) returns (ops: seq<Op>)
    requires cfg.threshold >= 1
    ensures Spent(Run(INITIAL, ops, cfg))
  {
    var trip := Tripped(cfg);
    var wait := [Tick(cfg.timeout + 1), Request];
    Waits(Run(INITIAL, trip, cfg), cfg);
    RunAppend(INITIAL, trip, wait, cfg);
    RunAppend(INITIAL, trip + wait, DROPPED_PROBES, cfg);
    var probing := Run(INITIAL, trip + wait, cfg);
    ProbesDropped(probing.b, probing.clock, probing.streak, cfg);
    ops := trip + wait + DROPPED_PROBES;
  }

  lemma Waits(s: System, cfg: Config)
    requires s == System(Breaker(Open, cfg.threshold, 0, 0), 0, 0, cfg.threshold)
    ensures var s' := Run(s, [Tick(cfg.timeout + 1), Request], cfg);
      s' == System(Breaker(HalfOpen, 0, s'.clock % TIME_UNIT, 0), 1, cfg.timeout + 1, 0)
  {
    var ops := [Tick(cfg.timeout + 1), Request];
    var s1 := Step(s, ops[0], cfg);
    assert ops[1..] == [Request] && [Request][1..] == [];
    assert Run(s1, [Request], cfg) == Step(s1, Request, cfg);
  }
}
