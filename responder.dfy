/**
 * The per-datagram behaviour of the responder: classify a received datagram
 * by its mode, answer time requests (modes 1 and 3) and control messages
 * (mode 6), take the receive time of broadcasts (mode 5) without answering,
 * and ignore every other mode.
 */
module Responder {
  import opened Wire
  import opened Results
  import opened Packets
  import opened TimeSources
  import opened ControlMessages

  /**
   * The settings the command line hands to the serving loop, as the ints the
   * C code holds; the narrowing to the wire field widths happens in the reply.
   * The backwards step is given in whole microseconds.
   */
  datatype Config = Config(
    stratum: int,
    precision: int,
    timeType: TimeType,
    poll: int,
    backwardsUsec: int,
    refid: RefId,
    rootDelay: int,
    rootDispersion: int)

  const MODE_SYMMETRIC_ACTIVE: u3 := 1
  const MODE_CLIENT: u3 := 3
  const MODE_SERVER: u3 := 4
  const MODE_BROADCAST: u3 := 5
  const MODE_CONTROL: u3 := 6

  /** The mode in the first byte of a non-empty datagram. */
  function ModeOf(packet: seq<u8>): u3
    requires |packet| >= 1
  {
    DecodeHeaderByte(packet[0]).mode
  }

  /** The timestamps of one time reply, in the order they are taken, and the state after the last. */
  datatype Times = Times(receive: Timestamp, reference: Timestamp, transmit: Timestamp, after: TimeState)

  function ReplyTimes(tt: TimeType, s: TimeState, env: Env): Times {
    var (s1, receive) := Sample(tt, s, env);
    var (s2, reference) := Sample(tt, s1, env);
    var (s3, transmit) := Sample(tt, s2, env);
    Times(receive, reference, transmit, s3)
  }

  /** The reply datagram to a time request. */
  function TimeReply(cfg: Config, req: SntpDatagram, t: Times): SntpDatagram {
    SntpDatagram(
      Header(0, 3, if req.header.mode == MODE_SYMMETRIC_ACTIVE then MODE_SYMMETRIC_ACTIVE else MODE_SERVER),
      Wrap8(cfg.stratum), WrapSigned8(cfg.poll), WrapSigned8(cfg.precision),
      HostOrder32(Wrap32(cfg.rootDelay)), HostOrder32(Wrap32(cfg.rootDispersion)),
      cfg.refid, t.reference, req.transmit, t.receive, t.transmit)
  }

  datatype Outcome = Outcome(state: TimeState, reply: Option<seq<u8>>)

  /** The handling of one received datagram: the new time state and the datagram sent back, if any. */
  function Serve(cfg: Config, s: TimeState, env: Env, packet: seq<u8>): Outcome {
    match DecodeHeader(packet)
    case Err(_) => Outcome(s, None)
    case Ok(h) =>
      if h.mode == MODE_SYMMETRIC_ACTIVE || h.mode == MODE_CLIENT || h.mode == MODE_BROADCAST then
        ServeTime(cfg, s, env, h.mode, DecodeSntp(packet))
      else if h.mode == MODE_CONTROL then ServeControl(s, DecodeControl(packet))
      else Outcome(s, None)
  }

  /** A decoded time request is answered; a broadcast only has its receive time taken. */
  function ServeTime(cfg: Config, s: TimeState, env: Env, mode: u3, request: Result<SntpDatagram>): Outcome {
    match request
    case Err(_) => Outcome(s, None)
    case Ok(req) =>
      if mode == MODE_BROADCAST then Outcome(Sample(cfg.timeType, s, env).0, None)
      else
        var t := ReplyTimes(cfg.timeType, s, env);
        Outcome(AfterReply(cfg.timeType, cfg.backwardsUsec, t.after, env),
                Some(EncodeSntp(TimeReply(cfg, req, t))))
  }

  function ServeControl(s: TimeState, request: Result<ControlDatagram>): Outcome {
    match request
    case Err(_) => Outcome(s, None)
    case Ok(req) => Outcome(s, Some(ControlReply(req.head)))
  }

  /** One pass of the serving loop: decode, sample the time source, build and return the reply. */
  method HandleRequest(ts: TimeSource, cfg: Config, packet: seq<u8>) returns (reply: Option<seq<u8>>)
    modifies ts
    ensures Outcome(ts.State(), reply) == Serve(cfg, old(ts.State()), ts.env, packet)
  {
    reply := None;
    var header := DecodeHeader(packet);
    if header.Err? {
      return;
    }
    var mode := header.value.mode;
    if mode == MODE_SYMMETRIC_ACTIVE || mode == MODE_CLIENT || mode == MODE_BROADCAST {
      var msgin := DecodeSntp(packet);
      if msgin.Err? {
        return;
      }
      var receive := ts.SetTime(cfg.timeType);
      if mode != MODE_BROADCAST {
        var reference := ts.SetTime(cfg.timeType);
        var transmit := ts.SetTime(cfg.timeType);
        var times := Times(receive, reference, transmit, ts.State());
        reply := Some(EncodeSntp(TimeReply(cfg, msgin.value, times)));
        ts.UpdateAfterReply(cfg.timeType, cfg.backwardsUsec);
      }
    } else if mode == MODE_CONTROL {
      var ncdin := DecodeControl(packet);
      if ncdin.Ok? {
        reply := Some(ControlReply(ncdin.value.head));
      }
    }
  }

  /** The diagnostic form of a reference identifier: each byte outside 32..126 shown as a space. */
  method PrintableIdentifier(refid: RefId) returns (id: seq<u8>)
    ensures |id| == 4
    ensures forall i :: 0 <= i < 4 ==>
      id[i] == if refid[i] < 32 || refid[i] > 126 then ' ' as int else refid[i]
  {
    var identifier := new u8[4](i requires 0 <= i < 4 => refid[i]);
    for k := 0 to 4
      invariant forall i :: 0 <= i < k ==>
        identifier[i] == if refid[i] < 32 || refid[i] > 126 then ' ' as int else refid[i]
      invariant forall i :: k <= i < 4 ==> identifier[i] == refid[i]
    {
      if identifier[k] < 32 || identifier[k] > 126 {
        identifier[k] := ' ' as int;
      }
    }
    id := identifier[..];
  }

  // ------------------------------------------------------------ dispatch

  /** A datagram the responder answers with a time reply. */
  predicate IsTimeRequest(packet: seq<u8>) {
    |packet| >= SNTP_SIZE && (ModeOf(packet) == MODE_SYMMETRIC_ACTIVE || ModeOf(packet) == MODE_CLIENT)
  }

  /** A datagram the responder answers with a control reply. */
  predicate IsControlRequest(packet: seq<u8>) {
    |packet| >= CONTROL_HEADER_SIZE && ModeOf(packet) == MODE_CONTROL
  }

  /** A reply is sent exactly for full-length time requests and for control messages. */
  lemma ReplySentIff(cfg: Config, s: TimeState, env: Env, packet: seq<u8>)
    ensures Serve(cfg, s, env, packet).reply.Some? <==> IsTimeRequest(packet) || IsControlRequest(packet)
  {
  }

  /** An empty datagram, and one of mode 0, 2, 4 or 7, gets no reply and changes no state. */
  lemma OtherModesIgnored(cfg: Config, s: TimeState, env: Env, packet: seq<u8>)
    requires |packet| == 0 || ModeOf(packet) in {0, 2, 4, 7}
    ensures Serve(cfg, s, env, packet) == Outcome(s, None)
  {
  }

  /** A time request or broadcast shorter than 48 bytes is dropped before anything is sampled. */
  lemma ShortTimeRequestDropped(cfg: Config, s: TimeState, env: Env, packet: seq<u8>)
    requires 1 <= |packet| < SNTP_SIZE
    requires ModeOf(packet) in {MODE_SYMMETRIC_ACTIVE, MODE_CLIENT, MODE_BROADCAST}
    ensures Serve(cfg, s, env, packet) == Outcome(s, None)
  {
  }

  /** A broadcast is decoded and its receive time sampled, but nothing is sent. */
  lemma BroadcastNotAnswered(cfg: Config, s: TimeState, env: Env, packet: seq<u8>)
    requires |packet| >= SNTP_SIZE && ModeOf(packet) == MODE_BROADCAST
    ensures Serve(cfg, s, env, packet) == Outcome(Sample(cfg.timeType, s, env).0, None)
  {
  }

  // --------------------------------------------------------- time replies

  /** The reply to a time request is 48 bytes that decode to its Answer. */
  lemma TimeReplyOnWire(cfg: Config, s: TimeState, env: Env, packet: seq<u8>)
    requires IsTimeRequest(packet)
    ensures var o := Serve(cfg, s, env, packet);
      && o.reply.Some? && |o.reply.value| == SNTP_SIZE
      && DecodeSntp(o.reply.value) == Ok(Answer(cfg, s, env, packet))
  {
    ServeTimeRequest(cfg, s, env, packet);
    SntpRoundTrip(Answer(cfg, s, env, packet));
  }

  /**
   * The originate timestamp of a time reply is the request's transmit
   * timestamp: the reply's bytes 24..31 repeat the request's bytes 40..47.
   */
  lemma OriginateEchoesTransmit(cfg: Config, s: TimeState, env: Env, packet: seq<u8>)
    requires IsTimeRequest(packet)
    ensures Answer(cfg, s, env, packet).originate == DecodeSntp(packet).value.transmit
    ensures Serve(cfg, s, env, packet).reply.Some?
    ensures Serve(cfg, s, env, packet).reply.value[24..32] == packet[40..48]
  {
    var req := DecodeSntp(packet).value;
    ServeTimeRequest(cfg, s, env, packet);
    SntpTimestampBytes(Answer(cfg, s, env, packet));
    SntpTimestampBytes(req);
    SntpCanonical(packet);
    assert packet[40..48] == packet[..SNTP_SIZE][40..48];
  }

  /**
   * The fields of a time reply: leap indicator 0, version 3, mode 1 for a
   * symmetric-active request and 4 (server) otherwise; the configured stratum,
   * poll and precision narrowed to a byte; the configured root delay and root
   * dispersion truncated to 32 bits and stored in host byte order; the
   * configured reference identifier; the three timestamps taken, in order.
   */
  lemma AnswerFields(cfg: Config, s: TimeState, env: Env, packet: seq<u8>)
    requires IsTimeRequest(packet)
    ensures var d := Answer(cfg, s, env, packet);
      var t := ReplyTimes(cfg.timeType, s, env);
      && d.header == Header(0, 3, if ModeOf(packet) == MODE_SYMMETRIC_ACTIVE then 1 else 4)
      && d.stratum == Wrap8(cfg.stratum) && d.poll == WrapSigned8(cfg.poll)
      && d.precision == WrapSigned8(cfg.precision)
      && d.rootDelay == HostOrder32(Wrap32(cfg.rootDelay))
      && d.rootDispersion == HostOrder32(Wrap32(cfg.rootDispersion))
      && d.refid == cfg.refid
      && d.receive == t.receive && d.reference == t.reference && d.transmit == t.transmit
  {
  }

  /** The reply datagram, before encoding, that a time request gets. */
  function Answer(cfg: Config, s: TimeState, env: Env, packet: seq<u8>): SntpDatagram
    requires |packet| >= SNTP_SIZE
  {
    TimeReply(cfg, DecodeSntp(packet).value, ReplyTimes(cfg.timeType, s, env))
  }

  /** A time request is answered with the encoded Answer, after which the post-reply update is applied. */
  lemma ServeTimeRequest(cfg: Config, s: TimeState, env: Env, packet: seq<u8>)
    requires IsTimeRequest(packet)
    ensures Serve(cfg, s, env, packet)
         == Outcome(AfterReply(cfg.timeType, cfg.backwardsUsec, ReplyTimes(cfg.timeType, s, env).after, env),
                    Some(EncodeSntp(Answer(cfg, s, env, packet))))
  {
  }

  /**
   * Random mode: receive, reference and transmit all carry the stored pair
   * (stored without byte-order conversion); after the reply the next two
   * generator outputs become the pair.
   */
  lemma RandomModeReply(cfg: Config, s: TimeState, env: Env, packet: seq<u8>)
    requires cfg.timeType == Random && IsTimeRequest(packet)
    ensures var d := Answer(cfg, s, env, packet);
      var pair := Timestamp(HostOrder32(s.secsRandom), HostOrder32(s.fracRandom));
      d.receive == pair && d.reference == pair && d.transmit == pair
    ensures Serve(cfg, s, env, packet).state
         == s.(secsRandom := env.draws(s.drawn), fracRandom := env.draws(s.drawn + 1), drawn := s.drawn + 2)
  {
    ServeTimeRequest(cfg, s, env, packet);
  }

  /** Before any pair has been drawn, a Random-mode reply carries all-zero timestamps. */
  lemma FirstRandomReplyIsZero(cfg: Config, start: TimeVal, env: Env, packet: seq<u8>)
    requires cfg.timeType == Random && IsTimeRequest(packet)
    ensures var d := Answer(cfg, Initial(start), env, packet);
      d.receive == Timestamp(0, 0) && d.reference == Timestamp(0, 0) && d.transmit == Timestamp(0, 0)
  {
    RandomModeReply(cfg, Initial(start), env, packet);
    HostOrderZero();
  }

  /**
   * Two consecutive Random-mode replies carry the same pair only when the
   * generator's two outputs in between repeat the pair that was stored.
   */
  lemma RandomPairsAdvance(cfg: Config, s: TimeState, env: Env, p1: seq<u8>, p2: seq<u8>)
    requires cfg.timeType == Random && IsTimeRequest(p1) && IsTimeRequest(p2)
    ensures var s1 := Serve(cfg, s, env, p1).state;
      var d1 := Answer(cfg, s, env, p1);
      var d2 := Answer(cfg, s1, env, p2);
      && d2.transmit == Timestamp(HostOrder32(env.draws(s.drawn)), HostOrder32(env.draws(s.drawn + 1)))
      && (d1.transmit == d2.transmit <==> env.draws(s.drawn) == s.secsRandom && env.draws(s.drawn + 1) == s.fracRandom)
  {
    var s1 := Serve(cfg, s, env, p1).state;
    RandomModeReply(cfg, s, env, p1);
    RandomModeReply(cfg, s1, env, p2);
    HostOrder32Involution(s.secsRandom);
    HostOrder32Involution(s.fracRandom);
    HostOrder32Involution(env.draws(s.drawn));
    HostOrder32Involution(env.draws(s.drawn + 1));
  }

  /**
   * Backwards mode: every timestamp is the current start instant, and after
   * the reply the start instant is exactly one step earlier; nothing else
   * changes.
   */
  lemma BackwardsModeReply(cfg: Config, s: TimeState, env: Env, packet: seq<u8>)
    requires cfg.timeType == Backwards && IsTimeRequest(packet)
    ensures var d := Answer(cfg, s, env, packet);
      d.receive == NtpTime(s.start) && d.reference == NtpTime(s.start) && d.transmit == NtpTime(s.start)
    ensures var s' := Serve(cfg, s, env, packet).state;
      && s' == s.(start := Retreat(s.start, cfg.backwardsUsec))
      && Micros(s'.start) == Micros(s.start) - cfg.backwardsUsec
  {
    ServeTimeRequest(cfg, s, env, packet);
  }

  /** Two consecutive Backwards-mode replies: the second reference instant is exactly one step before the first. */
  lemma BackwardsConsecutive(cfg: Config, s: TimeState, env: Env, p1: seq<u8>, p2: seq<u8>)
    requires cfg.timeType == Backwards && IsTimeRequest(p1) && IsTimeRequest(p2)
    ensures var s1 := Serve(cfg, s, env, p1).state;
      && Answer(cfg, s, env, p1).reference == NtpTime(s.start)
      && Answer(cfg, s1, env, p2).reference == NtpTime(s1.start)
      && Micros(s1.start) == Micros(s.start) - cfg.backwardsUsec
      && Micros(Serve(cfg, s1, env, p2).state.start) == Micros(s1.start) - cfg.backwardsUsec
  {
    var s1 := Serve(cfg, s, env, p1).state;
    BackwardsModeReply(cfg, s, env, p1);
    BackwardsModeReply(cfg, s1, env, p2);
  }

  /**
   * Backwards mode, while neither start instant wraps in NTP form: the second
   * reply's reference timestamp is strictly earlier, as a 64-bit NTP value,
   * than the first's.
   */
  lemma BackwardsReferenceDecreases(cfg: Config, s: TimeState, env: Env, p1: seq<u8>, p2: seq<u8>)
    requires cfg.timeType == Backwards && cfg.backwardsUsec > 0
    requires IsTimeRequest(p1) && IsTimeRequest(p2)
    requires NtpExact(s.start) && NtpExact(Retreat(s.start, cfg.backwardsUsec))
    ensures var s1 := Serve(cfg, s, env, p1).state;
      NtpValue(Answer(cfg, s1, env, p2).reference) < NtpValue(Answer(cfg, s, env, p1).reference)
  {
    var s1 := Serve(cfg, s, env, p1).state;
    BackwardsModeReply(cfg, s, env, p1);
    BackwardsModeReply(cfg, s1, env, p2);
    NtpTimeMonotone(s1.start, s.start);
  }

  /**
   * Backwards mode can send a later reference timestamp than the one before:
   * stepping 0.1 s back from 999995 microseconds leaves the seconds alone and
   * takes the fraction from its wrapped value 11229 up to 3865478525.
   */
  lemma BackwardsReferenceCanRise(cfg: Config, s: TimeState, env: Env, p1: seq<u8>, p2: seq<u8>)
    requires cfg.timeType == Backwards && cfg.backwardsUsec == 100_000
    requires s.start == TimeVal(1_300_000_000, 999_995)
    requires IsTimeRequest(p1) && IsTimeRequest(p2)
    ensures var s1 := Serve(cfg, s, env, p1).state;
      var first := Answer(cfg, s, env, p1).reference;
      var second := Answer(cfg, s1, env, p2).reference;
      && first.secs == second.secs
      && first.frac == 11229 && second.frac == 3_865_478_525
      && NtpValue(first) < NtpValue(second)
  {
    var s1 := Serve(cfg, s, env, p1).state;
    BackwardsModeReply(cfg, s, env, p1);
    BackwardsModeReply(cfg, s1, env, p2);
    RetreatAcrossFractionWrap(1_300_000_000);
  }

  /** Constant mode: every timestamp is the start instant, and the state does not change. */
  lemma ConstantModeReply(cfg: Config, s: TimeState, env: Env, packet: seq<u8>)
    requires cfg.timeType == Constant && IsTimeRequest(packet)
    ensures var d := Answer(cfg, s, env, packet);
      d.receive == NtpTime(s.start) && d.reference == NtpTime(s.start) && d.transmit == NtpTime(s.start)
    ensures Serve(cfg, s, env, packet).state == s
  {
    ServeTimeRequest(cfg, s, env, packet);
  }

  /**
   * ConstantWithNoise mode: receive, reference and transmit are the start
   * instant with noise from the next three generator outputs, in that order
   * (NoiseBounded says what the noise does to each timestamp).
   */
  lemma NoiseModeReply(cfg: Config, s: TimeState, env: Env, packet: seq<u8>)
    requires cfg.timeType == ConstantWithNoise && IsTimeRequest(packet)
    ensures var d := Answer(cfg, s, env, packet);
      && d.receive == NoisyTime(s.start, env.draws(s.drawn) % NOISE_RANGE)
      && d.reference == NoisyTime(s.start, env.draws(s.drawn + 1) % NOISE_RANGE)
      && d.transmit == NoisyTime(s.start, env.draws(s.drawn + 2) % NOISE_RANGE)
    ensures Serve(cfg, s, env, packet).state == s.(drawn := s.drawn + 3)
  {
    ServeTimeRequest(cfg, s, env, packet);
    var t := ReplyTimes(ConstantWithNoise, s, env);
    assert t.receive == NoisyTime(s.start, env.draws(s.drawn) % NOISE_RANGE);
    assert t.reference == NoisyTime(s.start, env.draws(s.drawn + 1) % NOISE_RANGE);
    assert t.transmit == NoisyTime(s.start, env.draws(s.drawn + 2) % NOISE_RANGE);
    assert t.after == s.(drawn := s.drawn + 3);
  }

  /** Real mode: receive, reference and transmit are three successive clock readings. */
  lemma RealModeReply(cfg: Config, s: TimeState, env: Env, packet: seq<u8>)
    requires cfg.timeType == Real && IsTimeRequest(packet)
    ensures var d := Answer(cfg, s, env, packet);
      && d.receive == NtpTime(env.clock(s.clockReads))
      && d.reference == NtpTime(env.clock(s.clockReads + 1))
      && d.transmit == NtpTime(env.clock(s.clockReads + 2))
    ensures Serve(cfg, s, env, packet).state == s.(clockReads := s.clockReads + 3)
  {
    ServeTimeRequest(cfg, s, env, packet);
  }

  /** Whatever the datagram, only Backwards mode moves the start instant, and only a time reply refreshes the random pair. */
  lemma StateChangesConfined(cfg: Config, s: TimeState, env: Env, packet: seq<u8>)
    ensures var s' := Serve(cfg, s, env, packet).state;
      && (cfg.timeType != Backwards ==> s'.start == s.start)
      && ((s'.secsRandom, s'.fracRandom) != (s.secsRandom, s.fracRandom) ==>
            cfg.timeType == Random && IsTimeRequest(packet))
  {
  }

  // ------------------------------------------------------- control replies

  /**
   * The reply to a control message decodes to mode 6, version 3, leap 0, the
   * response bit set and the error and more bits clear, the request's opcode,
   * sequence and association id, status and offset 0, the payload of the table and a
   * count equal to its length; the time state is untouched.
   */
  lemma ControlReplyOnWire(cfg: Config, s: TimeState, env: Env, packet: seq<u8>)
    requires IsControlRequest(packet)
    ensures var o := Serve(cfg, s, env, packet);
      var req := DecodeControl(packet).value.head;
      var p := Payload(req.op, req.associd);
      && o.state == s && o.reply.Some?
      && |o.reply.value| == CONTROL_HEADER_SIZE + |p|
      && DecodeControl(o.reply.value).Ok?
      && var c := DecodeControl(o.reply.value).value;
      && c.head.header == Header(0, 3, 6)
      && c.head.response && !c.head.error && !c.head.more
      && c.head.op == req.op && c.head.sequence == req.sequence && c.head.associd == req.associd
      && c.head.status == 0 && c.head.offset == 0
      && c.count == |p| && c.data == p
  {
    ControlReplyDecodes(DecodeControl(packet).value.head);
  }

  // ------------------------------------------------------ runs of requests

  datatype RunOutcome = RunOutcome(state: TimeState, replies: seq<Option<seq<u8>>>)

  /** Serving the datagrams in order, one after the other. */
  function Run(cfg: Config, s: TimeState, env: Env, packets: seq<seq<u8>>): (r: RunOutcome)
    ensures |r.replies| == |packets|
    decreases packets
  {
    if packets == [] then RunOutcome(s, [])
    else
      var o := Serve(cfg, s, env, packets[0]);
      var rest := Run(cfg, o.state, env, packets[1..]);
      RunOutcome(rest.state, [o.reply] + rest.replies)
  }

  /** How many of the datagrams get a time reply. */
  function TimeRequests(packets: seq<seq<u8>>): nat {
    if packets == [] then 0
    else (if IsTimeRequest(packets[0]) then 1 else 0) + TimeRequests(packets[1..])
  }

  /** In Constant mode a whole run leaves the state alone and every time reply carries the start instant in all three fields. */
  lemma {:induction false} ConstantRun(cfg: Config, s: TimeState, env: Env, packets: seq<seq<u8>>)
    requires cfg.timeType == Constant
    ensures var r := Run(cfg, s, env, packets);
      && r.state == s
      && forall i :: 0 <= i < |packets| && IsTimeRequest(packets[i]) ==>
           && r.replies[i].Some? && DecodeSntp(r.replies[i].value) == Ok(Answer(cfg, s, env, packets[i]))
           && var d := Answer(cfg, s, env, packets[i]);
              d.receive == NtpTime(s.start) && d.reference == NtpTime(s.start) && d.transmit == NtpTime(s.start)
    decreases packets
  {
    if packets != [] {
      ConstantFirst(cfg, s, env, packets[0]);
      ConstantRun(cfg, s, env, packets[1..]);
      var r := Run(cfg, s, env, packets);
      var rest := Run(cfg, s, env, packets[1..]);
      assert r.state == rest.state;
      forall i | 1 <= i < |packets|
        ensures r.replies[i] == rest.replies[i - 1] && packets[i] == packets[1..][i - 1]
      {
      }
    }
  }

  lemma ConstantFirst(cfg: Config, s: TimeState, env: Env, packet: seq<u8>)
    requires cfg.timeType == Constant
    ensures Serve(cfg, s, env, packet).state == s
    ensures IsTimeRequest(packet) ==>
      && Serve(cfg, s, env, packet).reply.Some?
      && DecodeSntp(Serve(cfg, s, env, packet).reply.value) == Ok(Answer(cfg, s, env, packet))
      && var d := Answer(cfg, s, env, packet);
         d.receive == NtpTime(s.start) && d.reference == NtpTime(s.start) && d.transmit == NtpTime(s.start)
  {
    if IsTimeRequest(packet) {
      ConstantModeReply(cfg, s, env, packet);
      TimeReplyOnWire(cfg, s, env, packet);
    }
  }

  /** In Backwards mode a run moves the start instant back by exactly one step per time reply, and by nothing else. */
  lemma {:induction false} BackwardsRun(cfg: Config, s: TimeState, env: Env, packets: seq<seq<u8>>)
    requires cfg.timeType == Backwards
    ensures Micros(Run(cfg, s, env, packets).state.start)
         == Micros(s.start) - cfg.backwardsUsec * TimeRequests(packets)
    decreases packets
  {
    if packets != [] {
      var o := Serve(cfg, s, env, packets[0]);
      var step, k := cfg.backwardsUsec, TimeRequests(packets[1..]);
      assert Run(cfg, s, env, packets).state == Run(cfg, o.state, env, packets[1..]).state;
      BackwardsRun(cfg, o.state, env, packets[1..]);
      if IsTimeRequest(packets[0]) {
        BackwardsModeReply(cfg, s, env, packets[0]);
        assert TimeRequests(packets) == k + 1;
        MulSucc(step, k);
      } else {
        StateChangesConfinedStart(cfg, s, env, packets[0]);
        assert TimeRequests(packets) == k;
      }
    }
  }

  lemma MulSucc(a: int, k: nat)
    ensures a * (k + 1) == a * k + a
  {
  }

  /** A datagram that gets no time reply does not move the start instant. */
  lemma StateChangesConfinedStart(cfg: Config, s: TimeState, env: Env, packet: seq<u8>)
    requires !IsTimeRequest(packet)
    ensures Serve(cfg, s, env, packet).state.start == s.start
  {
  }
}
