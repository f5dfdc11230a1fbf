/**
 The word in which the circuit breaker keeps its state: two bits of state, thirty of failure count,
 thirty-two of the time of the last failure.
 */
module BreakerWord {
  import opened Bits

  datatype CircuitState = Closed | Open | HalfOpen

  /** 2^62, 2^32 and 2^30: a shift by as many bits multiplies or divides by them. */
  const STATE_UNIT: nat := 0x4000_0000_0000_0000
  const TIME_UNIT: nat := 0x1_0000_0000
  const COUNT_UNIT: nat := 0x4000_0000

  function StateBits(s: CircuitState): nat {
    match s case Closed => 0 case Open => 1 case HalfOpen => 2
  }

  function PackState(s: CircuitState, failureCount: nat, lastFailure: nat): nat {
    Or(Or(StateBits(s) * STATE_UNIT % WORD, failureCount * TIME_UNIT % WORD), And(lastFailure, TIME_UNIT - 1))
  }

  function UnpackState(packed: nat): CircuitState {
    match packed / STATE_UNIT
    case 0 => Closed
    case 1 => Open
    case 2 => HalfOpen
    case _ => Closed
  }

  function UnpackFailureCount(packed: nat): nat {
    And(packed / TIME_UNIT, COUNT_UNIT - 1)
  }

  function UnpackLastFailure(packed: nat): nat {
    And(packed, TIME_UNIT - 1)
  }

  /** What a word says. */
  datatype Fields = Fields(state: CircuitState, count: nat, last: nat)

  function Unpack(packed: nat): Fields {
    Fields(UnpackState(packed), UnpackFailureCount(packed), UnpackLastFailure(packed))
  }

  lemma Powers()
    ensures Pow2(30) == COUNT_UNIT && Pow2(32) == TIME_UNIT && Pow2(62) == STATE_UNIT
  {
    assert Pow2(8) == 0x100;
    assert Pow2(16) == 0x1_0000;
    assert Pow2(24) == 0x100_0000;
    assert Pow2(30) == 0x4000_0000;
    assert Pow2(32) == 0x1_0000_0000;
    assert Pow2(40) == 0x100_0000_0000;
    assert Pow2(48) == 0x1_0000_0000_0000;
    assert Pow2(56) == 0x100_0000_0000_0000;
    assert Pow2(62) == STATE_UNIT;
  }

  /** Three fields side by side, and how division and remainder find each of them again. */
  lemma SideBySide(s: nat, c: nat, t: nat)
    requires s <= 2 && c < COUNT_UNIT && t < TIME_UNIT
    ensures var w := s * STATE_UNIT + c * TIME_UNIT + t;
      && w < WORD
      && w / STATE_UNIT == s
      && w / TIME_UNIT % COUNT_UNIT == c
      && w % TIME_UNIT == t
  {
    var w := s * STATE_UNIT + c * TIME_UNIT + t;
    assert w / TIME_UNIT == s * COUNT_UNIT + c;
  }

  lemma NothingShiftedOut(s: nat, c: nat)
    requires s <= 2 && c < COUNT_UNIT
    ensures s * STATE_UNIT % WORD == s * STATE_UNIT
    ensures c * TIME_UNIT % WORD == c * TIME_UNIT < STATE_UNIT
  {
  }

  lemma OrOfFields(s: nat, c: nat, t: nat)
    requires s <= 2 && c < COUNT_UNIT && t < TIME_UNIT
    ensures Or(Or(s * STATE_UNIT, c * TIME_UNIT), t) == s * STATE_UNIT + c * TIME_UNIT + t
  {
    Powers();
    OrThreeFields(s, c, t, 62, 32, STATE_UNIT, TIME_UNIT, s * COUNT_UNIT + c);
  }

  lemma LowBits(t: nat)
    ensures And(t, TIME_UNIT - 1) == t % TIME_UNIT
    ensures And(t, COUNT_UNIT - 1) == t % COUNT_UNIT
  {
    Powers();
    AndMask(t, 32);
    AndMask(t, 30);
  }

  /** With a count of fewer than thirty bits, the three fields lie side by side. */
  lemma PackedSum(s: CircuitState, c: nat, t: nat)
    requires c < COUNT_UNIT
    ensures var state := match s case Closed => 0 case Open => 1 case HalfOpen => 2;
      PackState(s, c, t) == state * 0x4000_0000_0000_0000 + c * 0x1_0000_0000 + t % 0x1_0000_0000
  {
    LowBits(t);
    NothingShiftedOut(StateBits(s), c);
    OrOfFields(StateBits(s), c, t % TIME_UNIT);
  }

  lemma UnpackArithmetic(w: nat)
    ensures UnpackFailureCount(w) == w / TIME_UNIT % COUNT_UNIT
    ensures UnpackLastFailure(w) == w % TIME_UNIT
  {
    LowBits(w);
    LowBits(w / TIME_UNIT);
  }

  lemma PackThenUnpack(s: CircuitState, c: nat, t: nat)
    requires c < COUNT_UNIT
    ensures PackState(s, c, t) < WORD
    ensures Unpack(PackState(s, c, t)) == Fields(s, c, t % TIME_UNIT)
  {
    PackedSum(s, c, t);
    SideBySide(StateBits(s), c, t % TIME_UNIT);
    UnpackArithmetic(PackState(s, c, t));
  }

  /** What a state becomes when a count of 2^30 spills into its bits. */
  function Spilled(s: CircuitState): CircuitState {
    if s.HalfOpen? then Closed else Open
  }

  lemma SpilledBits(s: CircuitState)
    ensures Or(StateBits(s), 1) == (if s.HalfOpen? then 3 else 1)
  {
    assert Or(0, 1) == 1 && Or(0, 0) == 0;
    assert Or(1, 1) == 1 && Or(1, 0) == 1;
    assert Or(2, 1) == 3;
  }

  lemma OrOfFull(s: nat, c: nat, t: nat)
    requires t < STATE_UNIT
    ensures Or(Or(s * STATE_UNIT, c * STATE_UNIT), t) == Or(s, c) * STATE_UNIT + t
  {
    Powers();
    OrFullField(s, c, t, 62, STATE_UNIT);
  }

  lemma PackedFull(s: CircuitState, c: nat, t: nat, one: nat)
    requires c * TIME_UNIT % WORD == one * STATE_UNIT
    ensures PackState(s, c, t) == Or(StateBits(s), one) * STATE_UNIT + t % TIME_UNIT
  {
    LowBits(t);
    NothingShiftedOut(StateBits(s), 0);
    OrOfFull(StateBits(s), one, t % TIME_UNIT);
  }

  /** The count is the first that does not fit: it sets the lower state bit and reads as zero. */
  lemma PackFullCount(s: CircuitState, c: nat, t: nat)
    requires c == COUNT_UNIT
    ensures Unpack(PackState(s, c, t)) == Fields(Spilled(s), 0, t % TIME_UNIT)
  {
    PackedFull(s, c, t, 1);
    SpilledBits(s);
    ThreeFits(Or(StateBits(s), 1), t % TIME_UNIT);
    UnpackArithmetic(PackState(s, c, t));
  }

  lemma ThreeFits(bits: nat, t: nat)
    requires bits <= 3 && t < TIME_UNIT
    ensures var w := bits * STATE_UNIT + t;
      w / STATE_UNIT == bits && w / TIME_UNIT % COUNT_UNIT == 0 && w % TIME_UNIT == t
  {
    assert (bits * STATE_UNIT + t) / TIME_UNIT == bits * COUNT_UNIT;
  }

  lemma CountIsSmall(packed: nat)
    ensures UnpackFailureCount(packed) < COUNT_UNIT && UnpackLastFailure(packed) < TIME_UNIT
  {
    UnpackArithmetic(packed);
  }

  /** A word says what was packed exactly when count and time fit their fields. */
  lemma RoundTripIff(s: CircuitState, c: nat, t: nat)
    ensures Unpack(PackState(s, c, t)) == Fields(s, c, t) <==> c < COUNT_UNIT && t < TIME_UNIT
  {
    if c < COUNT_UNIT {
      PackThenUnpack(s, c, t);
    }
    CountIsSmall(PackState(s, c, t));
  }

  /** The word of a new or closed breaker. */
  lemma ZeroWord()
    ensures Unpack(0) == Fields(Closed, 0, 0) && PackState(Closed, 0, 0) == 0
  {
    PackedSum(Closed, 0, 0);
    PackThenUnpack(Closed, 0, 0);
  }
}
