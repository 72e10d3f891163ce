/**
 * The time source: the timestamps the responder hands out under each of
 * its five time types, and the state it keeps between replies (the start
 * instant, the stored random pair and the pseudo-random generator).
 *
 * The system clock and the pseudo-random generator are injected: an `Env`
 * gives the successive readings of the clock and the successive outputs of
 * the generator, and the state counts how many of each have been used.
 */
module TimeSources {
  import opened Wire
  import opened Results
  import opened Packets

  /** Seconds from 1900-01-01 to 1970-01-01: seventy years of 365 days plus 17 leap days. */
  const NTP_EPOCH: nat := 86400 * (365 * 70 + 17)

  /** The multiplier from microseconds to units of 2^-32 s (2^32 / 10^6 rounded up). */
  const FRACTION_PER_USEC: nat := 4295

  const USEC_PER_SEC: nat := 1_000_000

  /** Noise is drawn from [0, NOISE_RANGE) and centred by subtracting NOISE_OFFSET. */
  const NOISE_RANGE: nat := 32768
  const NOISE_OFFSET: nat := 16384

  datatype TimeType = Real | Constant | ConstantWithNoise | Random | Backwards

  /** A wall-clock instant as the C library gives it: seconds and microseconds since 1970. */
  datatype TimeVal = TimeVal(sec: int, usec: int)

  /** One output of lrand48: a non-negative value below 2^31. */
  type Draw = x: int | 0 <= x < 0x8000_0000

  /** The clock readings and generator outputs the process will see, in order. */
  datatype Env = Env(clock: nat -> TimeVal, draws: nat -> Draw)

  datatype TimeState = TimeState(
    start: TimeVal,     // the start instant; moved back in Backwards mode
    secsRandom: Draw,   // the random pair served in Random mode
    fracRandom: Draw,
    clockReads: nat,    // clock readings used so far
    drawn: nat)         // generator outputs used so far

  /** The state at start-up: the random pair is zero until the first refresh. */
  function Initial(start: TimeVal): TimeState {
    TimeState(start, 0, 0, 0, 0)
  }

  lemma EpochValue()
    ensures NTP_EPOCH == 2_208_988_800
  {
  }

  /** An instant in NTP form: shifted to the 1900 epoch, truncated to 32 bits. */
  function NtpTime(tv: TimeVal): Timestamp {
    Timestamp(Wrap32(tv.sec + NTP_EPOCH), Wrap32(tv.usec * FRACTION_PER_USEC))
  }

  /** The NTP form of an instant with noise r - NOISE_OFFSET added to its fraction. */
  function NoisyTime(tv: TimeVal, r: int): Timestamp {
    Timestamp(Wrap32(tv.sec + NTP_EPOCH), Wrap32(tv.usec * FRACTION_PER_USEC + r - NOISE_OFFSET))
  }

  /** Below 999993 microseconds the fraction is exact (no wrap) and grows with the microseconds. */
  lemma FractionNoWrap(tv: TimeVal, tv': TimeVal)
    requires 0 <= tv.usec <= tv'.usec <= 999_992
    ensures NtpTime(tv).frac == tv.usec * FRACTION_PER_USEC
    ensures NtpTime(tv).frac <= NtpTime(tv').frac
  {
  }

  /** From 999993 microseconds on, the product passes 2^32 and the fraction wraps to a small value. */
  lemma FractionWrapsNearSecondEnd(sec: int)
    ensures NtpTime(TimeVal(sec, 999_999)).frac == 28_409
    ensures NtpTime(TimeVal(sec, 999_999)).frac < NtpTime(TimeVal(sec, 7)).frac
  {
  }

  /** Noise keeps the seconds and moves the fraction by at most 2^14 units either way (modulo 2^32). */
  lemma NoiseBounded(tv: TimeVal, r: int)
    requires 0 <= r < NOISE_RANGE
    ensures NoisyTime(tv, r).secs == NtpTime(tv).secs
    ensures Wrap32(NoisyTime(tv, r).frac - NtpTime(tv).frac + NOISE_OFFSET) == r
  {
    var base := tv.usec * FRACTION_PER_USEC;
    var noisy := base + r - NOISE_OFFSET;
    var k := noisy / 0x1_0000_0000 - base / 0x1_0000_0000;
    assert noisy % 0x1_0000_0000 - base % 0x1_0000_0000 + NOISE_OFFSET == r - 0x1_0000_0000 * k;
    ShiftedResidue(r, k);
  }

  lemma ShiftedResidue(r: int, k: int)
    requires 0 <= r < 0x1_0000_0000
    ensures Wrap32(r - 0x1_0000_0000 * k) == r
  {
    var x := r - 0x1_0000_0000 * k;
    assert x == 0x1_0000_0000 * (-k) + r;
  }

  /** A timestamp read as one 64-bit NTP value: seconds in the high word, fraction in the low word. */
  function NtpValue(t: Timestamp): nat {
    t.secs * 0x1_0000_0000 + t.frac
  }

  /** An instant whose NTP form wraps neither its seconds nor its fraction. */
  predicate NtpExact(tv: TimeVal) {
    0 <= tv.usec <= 999_992 && 0 <= tv.sec + NTP_EPOCH < 0x1_0000_0000
  }

  /** Between instants whose NTP form does not wrap, the earlier instant has the smaller NTP value. */
  lemma NtpTimeMonotone(a: TimeVal, b: TimeVal)
    requires NtpExact(a) && NtpExact(b)
    requires Micros(a) < Micros(b)
    ensures NtpValue(NtpTime(a)) < NtpValue(NtpTime(b))
  {
    var fa, fb := a.usec * FRACTION_PER_USEC, b.usec * FRACTION_PER_USEC;
    assert NtpTime(a) == Timestamp(a.sec + NTP_EPOCH, fa);
    assert NtpTime(b) == Timestamp(b.sec + NTP_EPOCH, fb);
    assert a.sec <= b.sec;
    if a.sec == b.sec {
      assert fa < fb;
    }
  }

  function Micros(tv: TimeVal): int {
    tv.sec * USEC_PER_SEC + tv.usec
  }

  /** The instant stepUsec microseconds earlier, with the microseconds borrowed back into range. */
  function Retreat(tv: TimeVal, stepUsec: int): (r: TimeVal)
    ensures Micros(r) == Micros(tv) - stepUsec
    ensures 0 <= r.usec < USEC_PER_SEC
  {
    var total := Micros(tv) - stepUsec;
    TimeVal(total / USEC_PER_SEC, total % USEC_PER_SEC)
  }

  /**
   * One step of 0.1 s back from 999995 microseconds keeps the seconds and
   * moves the NTP fraction up, from its wrapped value 11229 to 3865478525.
   */
  lemma RetreatAcrossFractionWrap(sec: int)
    ensures Retreat(TimeVal(sec, 999_995), 100_000) == TimeVal(sec, 899_995)
    ensures NtpTime(TimeVal(sec, 999_995)).frac == 11229
    ensures NtpTime(TimeVal(sec, 899_995)).frac == 3_865_478_525
    ensures NtpTime(TimeVal(sec, 999_995)).secs == NtpTime(TimeVal(sec, 899_995)).secs
  {
    var total := Micros(TimeVal(sec, 999_995)) - 100_000;
    assert total == sec * USEC_PER_SEC + 899_995;
  }

  /** One call of set_time: the timestamp it yields and the state after it. */
  function Sample(tt: TimeType, s: TimeState, env: Env): (TimeState, Timestamp) {
    match tt
    case Real => (s.(clockReads := s.clockReads + 1), NtpTime(env.clock(s.clockReads)))
    case Constant => (s, NtpTime(s.start))
    case ConstantWithNoise =>
      (s.(drawn := s.drawn + 1), NoisyTime(s.start, env.draws(s.drawn) % NOISE_RANGE))
    case Random => (s, Timestamp(HostOrder32(s.secsRandom), HostOrder32(s.fracRandom)))
    case Backwards => (s, NtpTime(s.start))
  }

  /** What one call of set_time may change: a clock reading in Real mode, a draw in ConstantWithNoise mode, and nothing else. */
  lemma SampleFrame(tt: TimeType, s: TimeState, env: Env)
    ensures var s' := Sample(tt, s, env).0;
      && s'.start == s.start && s'.secsRandom == s.secsRandom && s'.fracRandom == s.fracRandom
      && s'.clockReads == s.clockReads + (if tt == Real then 1 else 0)
      && s'.drawn == s.drawn + (if tt == ConstantWithNoise then 1 else 0)
  {
  }

  /** The state update made after a time reply has been sent. */
  function AfterReply(tt: TimeType, stepUsec: int, s: TimeState, env: Env): TimeState {
    match tt
    case Random =>
      s.(secsRandom := env.draws(s.drawn), fracRandom := env.draws(s.drawn + 1), drawn := s.drawn + 2)
    case Backwards => s.(start := Retreat(s.start, stepUsec))
    case _ => s
  }

  /**
   * Only Random mode draws a new pair (the next two generator outputs, seconds
   * first) and only Backwards mode moves the start instant, by exactly the
   * step; nothing else changes.
   */
  lemma AfterReplyEffect(tt: TimeType, stepUsec: int, s: TimeState, env: Env)
    ensures var s' := AfterReply(tt, stepUsec, s, env);
      && s'.clockReads == s.clockReads
      && (tt == Random <==> s'.drawn != s.drawn)
      && (tt == Random ==> s'.secsRandom == env.draws(s.drawn) && s'.fracRandom == env.draws(s.drawn + 1)
                           && s'.drawn == s.drawn + 2)
      && (tt != Random ==> s'.secsRandom == s.secsRandom && s'.fracRandom == s.fracRandom)
      && (tt == Backwards ==> Micros(s'.start) == Micros(s.start) - stepUsec)
      && (tt != Backwards ==> s'.start == s.start)
  {
  }

  // ---------------------------------------------------- time-type names

  function LowerChar(c: char): char {
    if 'A' <= c <= 'Z' then (c as int + 32) as char else c
  }

  function Lower(s: string): (r: string)
    ensures |r| == |s|
    ensures forall i :: 0 <= i < |s| ==> r[i] == LowerChar(s[i])
  {
    if s == [] then [] else [LowerChar(s[0])] + Lower(s[1..])
  }

  function TimeTypeName(tt: TimeType): string {
    match tt
    case Real => "real"
    case Constant => "constant"
    case ConstantWithNoise => "constant_noise"
    case Random => "random"
    case Backwards => "backwards"
  }

  /** The time type a name denotes, ignoring ASCII case; None marks a fatal configuration error. */
  function ParseTimeType(name: string): Option<TimeType> {
    var n := Lower(name);
    if n == "real" then Some(Real)
    else if n == "constant" then Some(Constant)
    else if n == "constant_noise" then Some(ConstantWithNoise)
    else if n == "random" then Some(Random)
    else if n == "backwards" then Some(Backwards)
    else None
  }

  lemma LowerIdempotent(s: string)
    ensures Lower(Lower(s)) == Lower(s)
  {
    assert forall i :: 0 <= i < |s| ==> Lower(Lower(s))[i] == Lower(s)[i];
  }

  /** A name is accepted exactly when, in lower case, it is the name of that time type. */
  lemma ParseTimeTypeSpec(name: string, tt: TimeType)
    ensures ParseTimeType(name) == Some(tt) <==> Lower(name) == TimeTypeName(tt)
  {
    var n := TimeTypeName(tt);
    assert Lower(n) == n by {
      assert forall i :: 0 <= i < |n| ==> LowerChar(n[i]) == n[i];
    }
    if Lower(name) == n {
      assert ParseTimeType(name) == Some(tt);
    }
  }

  /** Case does not matter: a name parses as its lower-case form does. */
  lemma ParseTimeTypeIgnoresCase(name: string)
    ensures ParseTimeType(name) == ParseTimeType(Lower(name))
  {
    LowerIdempotent(name);
  }

  // ------------------------------------------------------ the time source

  /**
   * The process-wide time state: the start instant `startTs`, the random
   * pair, and the positions reached in the injected clock and generator.
   */
  class TimeSource {
    var startTs: TimeVal
    var secsRandom: Draw
    var fracRandom: Draw
    var clockReads: nat
    var drawn: nat
    const env: Env

    function State(): TimeState
      reads this
    {
      TimeState(startTs, secsRandom, fracRandom, clockReads, drawn)
    }

    /** Start-up: the start instant is captured once and the random pair is zero. */
    constructor (start: TimeVal, env: Env)
      ensures State() == Initial(start) && this.env == env
    {
      startTs := start;
      secsRandom, fracRandom := 0, 0;
      clockReads, drawn := 0, 0;
      this.env := env;
    }

    /** gettimeofday: the next reading of the clock. */
    method ReadClock() returns (tv: TimeVal)
      modifies this`clockReads
      ensures tv == env.clock(old(clockReads)) && clockReads == old(clockReads) + 1
    {
      tv := env.clock(clockReads);
      clockReads := clockReads + 1;
    }

    /** lrand48: the next output of the generator. */
    method Lrand48() returns (d: Draw)
      modifies this`drawn
      ensures d == env.draws(old(drawn)) && drawn == old(drawn) + 1
    {
      d := env.draws(drawn);
      drawn := drawn + 1;
    }

    /** myrandom_limit: a draw reduced below max. */
    method MyRandomLimit(max: int) returns (v: int)
      requires max > 0
      modifies this`drawn
      ensures v == env.draws(old(drawn)) % max && 0 <= v < max
      ensures drawn == old(drawn) + 1
    {
      var d := Lrand48();
      v := d % max;
    }

    /** myrandom: a draw masked to 32 bits, which leaves it unchanged. */
    method MyRandom() returns (v: Draw)
      modifies this`drawn
      ensures v == env.draws(old(drawn)) && drawn == old(drawn) + 1
    {
      var d := Lrand48();
      v := d % 0x1_0000_0000;
    }

    /** set_time: the timestamp for one field of a reply under time type tt. */
    method SetTime(tt: TimeType) returns (t: Timestamp)
      modifies this
      ensures (State(), t) == Sample(tt, old(State()), env)
    {
      if tt == Real {
        var ts := ReadClock();
        t := Timestamp(Wrap32(ts.sec + NTP_EPOCH), Wrap32(ts.usec * FRACTION_PER_USEC));
      } else if tt == Constant || tt == ConstantWithNoise {
        var secs := Wrap32(startTs.sec + NTP_EPOCH);
        if tt == Constant {
          t := Timestamp(secs, Wrap32(startTs.usec * FRACTION_PER_USEC));
        } else {
          var r := MyRandomLimit(NOISE_RANGE);
          t := Timestamp(secs, Wrap32(startTs.usec * FRACTION_PER_USEC + r - NOISE_OFFSET));
        }
      } else if tt == Random {
        t := Timestamp(HostOrder32(secsRandom), HostOrder32(fracRandom));
      } else {
        t := Timestamp(Wrap32(startTs.sec + NTP_EPOCH), Wrap32(startTs.usec * FRACTION_PER_USEC));
      }
    }

    /** The update after a time reply: a fresh random pair, or the start instant stepped back. */
    method UpdateAfterReply(tt: TimeType, stepUsec: int)
      modifies this
      ensures State() == AfterReply(tt, stepUsec, old(State()), env)
    {
      if tt == Random {
        secsRandom := MyRandom();
        fracRandom := MyRandom();
      } else if tt == Backwards {
        var cur := startTs.sec * USEC_PER_SEC + startTs.usec - stepUsec;
        startTs := TimeVal(cur / USEC_PER_SEC, cur % USEC_PER_SEC);
      }
    }
  }
}
