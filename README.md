# jans — a deliberately unreliable SNTP responder, modelled in Dafny

jans is a small UDP server. It answers SNTP time requests (modes 1 and 3)
and NTP control messages (mode 6) on purpose with wrong or odd times, so
that client implementations can be tested against it. It has five time
types:

- `real`: the system clock;
- `constant`: the moment the program started;
- `constant_noise`: the start moment with up to ±2^14 units of noise in the fraction;
- `random`: a pair of pseudo-random words;
- `backwards`: the start moment, moved back by a fixed step after every reply.

Control messages get canned answers.

This project models, as Dafny, the code behind that behaviour:

- `wire.dfy` (module `Wire`): machine words and byte order. This covers
  big-endian encoding and decoding, narrowing to 8 and 32 bits, two's
  complement bytes, and `HostOrder32`, the value a big-endian reader sees
  in a word that the program stored in little-endian host order without
  `htonl`.
- `packets.dfy` (module `Packets`): the first-byte bit fields, the 48-byte
  SNTP datagram and the 12-byte control header plus data. Each has an
  encoder, a length-checked decoder, and round-trip and canonical-form
  lemmas.
- `timesource.dfy` (module `TimeSources`): `set_time` as the pure function
  `Sample` and the post-reply update as `AfterReply`. The class
  `TimeSource` holds the process-wide state (`start_ts`, the random pair,
  and the positions reached in the clock and the generator). Its methods
  (`SetTime`, `UpdateAfterReply`, `MyRandomLimit`, `MyRandom`) are proved
  against those functions. This module also holds the case-insensitive
  parsing of time-type names.
- `control.dfy` (module `ControlMessages`): the opcode-to-payload table and
  the control reply.
- `responder.dfy` (module `Responder`): one pass of the serving loop.
  - `Serve` is the specification: the new state and the reply, if any,
    for one datagram.
  - `HandleRequest` is the imperative method that calls the `TimeSource`
    in the source's order and is proved equal to `Serve`.
  - `Run` folds `Serve` over a sequence of datagrams.
  - Lemmas state what each time type puts in a reply, the echo of the
    request's transmit timestamp, and how the state evolves across
    several requests.

### Injected environment

The clock and the generator are not called. An `Env` value gives the
successive `gettimeofday` readings (`clock: nat -> TimeVal`) and the
successive `lrand48` outputs (`draws: nat -> Draw`, values in [0, 2^31)).
The state counts how many of each have been used:

- every `set_time` in `real` mode reads the clock once;
- every call in `constant_noise` mode draws once;
- every refresh of the random pair draws twice.

### Byte order

The program is a little-endian-host program: its bit fields are laid out
least significant bit first, as GCC does on x86. Every field it converts
with `htonl`/`htons` is big-endian on the wire, including the two words
of the read-status payload. Two groups of fields are stored raw, and the
model keeps that, so a big-endian reader sees them byte-swapped
(`HostOrder32`):

- the random pair (jans.c:122-123);
- the root delay and root dispersion (jans.c:231-232).

The raw reference identifier bytes are copied verbatim (jans.c:234).

## Model

| member | source | states |
|---|---|---|
| Wire.SignedByte | jans.c:39-40 | the byte of a signed char is its two's complement form, the value modulo 256, so it is below 0x80 exactly when the value is non-negative |
| Wire.FromSignedByte | jans.c:39-40 | reading a byte as a signed char is the inverse of storing it |
| Wire.SignedByteInverse | jans.c:39-40 | a signed char survives the trip to a byte and back |
| Wire.FromBigEndianInverse | jans.c:41-52 | a word written big-endian in n bytes reads back as itself |
| Wire.BigEndianInverse | jans.c:41-52 | any n bytes are the big-endian form of the number they denote |
| Wire.HostOrder32 | jans.c:231-232 | the wire bytes of a word stored in host order are its big-endian bytes reversed |
| Wire.HostOrder32Involution | jans.c:122-123 | swapping byte order twice gives the word back, so distinct stored words stay distinct on the wire |
| Wire.HostOrderZero | jans.c:21 | the zero word looks the same in either byte order |
| Wire.UnpackPack | jans.c:41-52 | a list of words packed big-endian unpacks to itself |
| Wire.PackUnpack | jans.c:41-52 | bytes unpacked into words and packed again are unchanged |
| Packets.HeaderByte | jans.c:25-30 | mode is the low three bits, version the next three, leap indicator the top two |
| Packets.DecodeHeaderByte | jans.c:25-30 | the header read from a byte encodes back to that byte |
| Packets.HeaderRoundTrip | jans.c:25-30 | decoding an encoded header gives it back |
| Packets.DecodeHeader | jans.c:162 | the header is read iff the datagram has a first byte, and it encodes back to that byte |
| Packets.EncodeSntp | jans.c:32-52 | an SNTP datagram is exactly 48 bytes |
| Packets.DecodeSntp | jans.c:172 | decoding succeeds iff there are at least 48 bytes, otherwise it reports how many were needed and present |
| Packets.SntpRoundTrip | jans.c:32-52 | decoding an encoded datagram gives it back, field for field |
| Packets.SntpCanonical | jans.c:32-52 | re-encoding a decoded datagram gives back exactly its first 48 bytes |
| Packets.SntpHeadBytes | jans.c:34-43 | bytes 0..3 are the header byte, stratum, poll and precision; 4..11 root delay then root dispersion, big-endian; 12..15 the reference identifier bytes as they are |
| Packets.SntpTimestampBytes | jans.c:44-51 | the reference timestamp is at bytes 16..23, originate at 24..31, receive at 32..39 and transmit at 40..47, each big-endian seconds then fraction |
| Packets.FlagsByte | jans.c:60-63 | opcode in the low five bits, then more, error and response bits |
| Packets.EncodeControl | jans.c:54-70 | a control message is the 12-byte header followed by exactly its data |
| Packets.DecodeControl | jans.c:197-200 | decoding succeeds iff there are 12 bytes; the data is a prefix of what follows, of the declared count cut short at the end of the input |
| Packets.ControlRoundTrip | jans.c:54-70 | decoding an encoded control message gives back its header and data, with the data length as count |
| Packets.ControlCanonical | jans.c:54-70 | a control message whose count fits re-encodes to exactly its header and data bytes |
| TimeSources.EpochValue | jans.c:16 | the 1900-to-1970 offset is 2208988800 seconds |
| TimeSources.FractionNoWrap | jans.c:109 | up to 999992 µs the fraction is µs × 4295 with no wrap, and it grows with the microseconds |
| TimeSources.FractionWrapsNearSecondEnd | jans.c:109 | at 999999 µs the 32-bit fraction wraps to 28409, below the fraction at 7 µs |
| TimeSources.NtpTime | jans.c:108-109 | an instant in NTP form, seconds shifted by the epoch and the fraction µs × 4295, both truncated to 32 bits; its meaning is stated by EpochValue, FractionNoWrap, FractionWrapsNearSecondEnd and NtpTimeMonotone |
| TimeSources.NoisyTime | jans.c:113-118 | the start instant in NTP form with noise added to the fraction; its meaning is stated by NoiseBounded |
| TimeSources.NtpTimeMonotone | jans.c:108-109 | between two instants whose NTP form wraps neither field, the earlier one has the smaller 64-bit NTP value |
| TimeSources.NoiseBounded | jans.c:118 | noise leaves the seconds alone and shifts the fraction by the draw minus 16384, modulo 2^32 |
| TimeSources.Retreat | jans.c:248-254 | the instant moved back is exactly the step earlier in microseconds, with microseconds normalised to [0, 10^6) |
| TimeSources.RetreatAcrossFractionWrap | jans.c:248-254 | a 0.1 s step back from 999995 µs keeps the seconds and raises the NTP fraction from its wrapped value 11229 to 3865478525 |
| TimeSources.Initial | jans.c:20-21 | the state at start-up, with a zero random pair; its meaning is stated by TimeSource.constructor and FirstRandomReplyIsZero |
| TimeSources.Sample | jans.c:99-130 | one call of set_time, giving the new state and the timestamp; its meaning is stated by SampleFrame, TimeSource.SetTime and the five mode lemmas of Responder |
| TimeSources.SampleFrame | jans.c:99-130 | one set_time changes only the clock position (real mode, by one) and the generator position (noise mode, by one) |
| TimeSources.AfterReply | jans.c:243-254 | the state update after a time reply; its meaning is stated by AfterReplyEffect and TimeSource.UpdateAfterReply |
| TimeSources.AfterReplyEffect | jans.c:243-254 | after a reply only random mode draws (the next two outputs become the pair) and only backwards mode moves the start instant, by exactly the step |
| TimeSources.LowerIdempotent | jans.c:390 | lower-casing twice is lower-casing once |
| TimeSources.ParseTimeType | jans.c:389-402 | the time type a name denotes, or None; its meaning is stated by ParseTimeTypeSpec and ParseTimeTypeIgnoresCase |
| TimeSources.ParseTimeTypeSpec | jans.c:389-402 | a name selects a time type iff its lower-case form is that type's name; any other name is rejected |
| TimeSources.ParseTimeTypeIgnoresCase | jans.c:389-402 | a name parses the same as its lower-case form |
| TimeSources.TimeSource.constructor | jans.c:442 | the start instant is captured once, the random pair is zero, and nothing has been read or drawn yet |
| TimeSources.TimeSource.ReadClock | jans.c:105 | returns the next clock reading and advances past it |
| TimeSources.TimeSource.Lrand48 | jans.c:89 | returns the next generator output and advances past it |
| TimeSources.TimeSource.MyRandomLimit | jans.c:87-92 | returns the next generator output modulo max, which lies in [0, max) |
| TimeSources.TimeSource.MyRandom | jans.c:94-97 | returns the next generator output, which the 32-bit mask leaves unchanged |
| TimeSources.TimeSource.SetTime | jans.c:99-130 | the timestamp and the new state are those of Sample for the time type and the old state |
| TimeSources.TimeSource.UpdateAfterReply | jans.c:243-254 | the new state is AfterReply of the old one |
| ControlMessages.Payload | jans.c:273-291 | every payload fits the 16-bit count field |
| ControlMessages.PayloadTable | jans.c:273-291 | read status gives 00 01 FF FF; read variables on association 1 gives the variable text then a NUL, on any other association nothing; every other opcode the 12 placeholder bytes |
| ControlMessages.VariablesTextLength | jans.c:283 | the variable text is 354 characters, so its reply data is 355 bytes |
| ControlMessages.ReplyHeader | jans.c:261-271 | the control reply header; its meaning is stated by ControlReplyDecodes and Responder.ControlReplyOnWire |
| ControlMessages.ControlReply | jans.c:295 | the reply is 12 header bytes plus the payload |
| ControlMessages.ControlReplyDecodes | jans.c:259-293 | the reply decodes to the reply header, a count equal to the payload length, and the payload |
| Responder.Serve | jans.c:162-299 | the new state and the reply for one datagram; its meaning is stated by ReplySentIff, OtherModesIgnored, StateChangesConfined and HandleRequest |
| Responder.ServeTime | jans.c:170-255 | the handling of modes 1, 3 and 5; its meaning is stated by ServeTimeRequest, BroadcastNotAnswered and ShortTimeRequestDropped |
| Responder.ServeControl | jans.c:193-299 | the handling of mode 6; its meaning is stated by ControlReplyOnWire |
| Responder.ReplyTimes | jans.c:174-238 | the receive, reference and transmit timestamps taken in that order, and the state after them; its meaning is stated by the five mode lemmas |
| Responder.TimeReply | jans.c:226-238 | the reply datagram built from a request and the timestamps; its meaning is stated by AnswerFields and OriginateEchoesTransmit |
| Responder.HandleRequest | jans.c:170-299 | the reply and the new time state are exactly those of Serve for the old state |
| Responder.PrintableIdentifier | jans.c:179-185 | each of the four identifier bytes outside 32..126 becomes a space, the others are kept |
| Responder.ReplySentIff | jans.c:221-299 | a reply is sent iff the datagram is a full time request (mode 1 or 3) or a control message (mode 6) |
| Responder.OtherModesIgnored | jans.c:221-299 | an empty datagram or one of mode 0, 2, 4 or 7 gets no reply and leaves the state alone |
| Responder.ShortTimeRequestDropped | jans.c:170-172 | a mode 1, 3 or 5 datagram shorter than 48 bytes gets no reply and leaves the state alone |
| Responder.BroadcastNotAnswered | jans.c:170-174 | a broadcast (mode 5) gets no reply, but its receive timestamp is still taken |
| Responder.TimeReplyOnWire | jans.c:221-240 | a time request gets back 48 bytes that decode to its Answer |
| Responder.OriginateEchoesTransmit | jans.c:235-236 | the reply's originate timestamp is the request's transmit timestamp, byte for byte |
| Responder.AnswerFields | jans.c:226-238 | the reply has leap 0, version 3, mode 1 for mode 1 and 4 otherwise, the configured stratum, poll, precision (narrowed), root delay and dispersion (32 bits, host order), refid and the three timestamps in order |
| Responder.ServeTimeRequest | jans.c:221-254 | a time request is answered with the encoded Answer and then the post-reply update is applied |
| Responder.RandomModeReply | jans.c:243-247 | in random mode all three timestamps are the stored pair, and afterwards the next two draws become the pair |
| Responder.FirstRandomReplyIsZero | jans.c:120-124 | before the first refresh a random-mode reply carries all-zero timestamps |
| Responder.RandomPairsAdvance | jans.c:243-247 | the second of two random-mode replies carries the two draws made after the first, and it equals the first iff those draws repeat the stored pair |
| Responder.BackwardsModeReply | jans.c:248-254 | in backwards mode all three timestamps are the start instant, which afterwards is exactly one step earlier; nothing else changes |
| Responder.BackwardsConsecutive | jans.c:248-254 | two consecutive backwards-mode replies have reference instants exactly one step apart |
| Responder.BackwardsReferenceDecreases | jans.c:248-254 | while neither start instant wraps in NTP form, the second backwards-mode reply's reference timestamp is strictly earlier, as a 64-bit NTP value, than the first's |
| Responder.BackwardsReferenceCanRise | jans.c:248-254 | from 999995 µs with a 0.1 s step, the second backwards-mode reply's reference timestamp is later than the first's: same seconds, fraction 3865478525 instead of 11229 |
| Responder.ConstantModeReply | jans.c:111-116 | in constant mode all three timestamps are the start instant and the state does not change |
| Responder.NoiseModeReply | jans.c:111-119 | in noise mode receive, reference and transmit are the start instant with the noise of the next three draws, in that order |
| Responder.RealModeReply | jans.c:103-110 | in real mode receive, reference and transmit are three successive clock readings |
| Responder.StateChangesConfined | jans.c:243-254 | whatever the datagram, only backwards mode moves the start instant and only a random-mode time reply changes the pair |
| Responder.StateChangesConfinedStart | jans.c:221-255 | a datagram that gets no time reply does not move the start instant |
| Responder.ControlReplyOnWire | jans.c:256-298 | a control reply decodes to mode 6, version 3, response set, error and more clear, the request's opcode, sequence and association, status and offset 0, and the table's payload with its length as count; the time state is untouched |
| Responder.Run | jans.c:138-300 | the serving loop over a sequence of datagrams, one reply slot per datagram; its meaning is stated by ConstantRun and BackwardsRun |
| Responder.ConstantRun | jans.c:138-299 | over any run in constant mode the state never changes and every time reply decodes to timestamps equal to the start instant |
| Responder.BackwardsRun | jans.c:248-254 | over any run in backwards mode the start instant moves back by exactly the step times the number of time replies |

## Left out

- Sockets, `recvfrom`/`sendto` and their failures, all printing, `create_socket`, `daemon`, `help` and `version`: these are I/O. A datagram is a byte sequence in, and an optional byte sequence out. The printing includes the verbose-only diagnostics (`print_time`, jans.c:164-191) and the dump of every control message, which runs whatever the verbosity (jans.c:199-217).
- DecodeControl: the dump of a control message (jans.c:200-215) trusts the `count` on the wire, up to 65535. It reads that many bytes from `ncdin->data`, past the end of the datagram and of the 512-byte `msgbufferin`. That is undefined behaviour and can crash the server. The model never reads past the input: `DecodeControl` clamps the data to the bytes present. Since the dump only prints and the reply never uses the request's data, nothing else in the model depends on the clamp.
- `main`'s option parsing (`getopt`, `atoi`, `atof`): the parsed settings are the `Config` value. Only the time-type name lookup is modelled (`ParseTimeType`); its error, ending the process, is `None`.
- error.c is not part of this model. `error_exit` ends the process, and a failing `gettimeofday` (jans.c:105-106) is likewise not modelled, because the injected clock always answers.
- `srand48` seeding and the `lrand48` algorithm: the generator is the injected `draws` stream. Only its range [0, 2^31) is assumed.
- Retreat: the source steps back by a `double` number of seconds. It converts with `(int)`, which truncates toward zero, and keeps the seconds in a 32-bit `int`. The model instead steps back by a whole number of microseconds, borrows Euclidean-style so the microseconds stay in [0, 10^6), and keeps unbounded seconds. So before 1970, rounding of the step, and overflow of the seconds are not modelled.
- DecodeSntp: the source reads a datagram of any length from a zeroed 512-byte buffer, so a shorter time request is answered with zeros in its missing fields. The model rejects SNTP datagrams shorter than 48 bytes: they get no reply and change no state.
- DecodeControl: the model likewise drops control messages shorter than 12 bytes. The source answers them, reading the zeroed buffer.
- ControlMessages.ReplyHeader: the source never writes the status word of the control reply, so it sends whatever the output buffer held. The model sends 0.
- ControlMessages.PayloadTable: on association 1 it states that the data is the 354 text bytes followed by a NUL. It does not state that the text has no earlier NUL (which is what makes `strlen` + 1 equal 355).
- BackwardsConsecutive: it steps only the start instant, exactly, in microseconds. The NTP timestamps a backwards-mode reply carries are not monotone. From 999993 µs and above the fraction wraps (see below), and `BackwardsReferenceCanRise` shows a second reply about 0.9 s later than the first. Even without a wrap, the wire step of 0.1 s is 100000 × 4295 = 429500000 fraction units, not 0.1 × 2^32 ≈ 429496729.6. `BackwardsReferenceDecreases` proves a strict decrease only while neither instant wraps.
- FractionNoWrap: at 999993 µs and above the 32-bit fraction wraps, because 4295 = ⌈2^32 / 10^6⌉. The model keeps this as written and states it as a lemma (`FractionWrapsNearSecondEnd`); it does not treat it as a defect.
- Responder.Config: knowing that the program is a little-endian host is a modelling decision. On a big-endian host `HostOrder32` would be the identity.

