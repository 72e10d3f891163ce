/**
 * The two datagram shapes the responder reads and writes: the 48-byte SNTP
 * datagram (section 4 of RFC 4330) and the NTP control message, a 12-byte
 * header followed by its data (Appendix B of RFC 1305). Bit fields are
 * packed with explicit masks and shifts; multi-byte fields are big-endian.
 */
module Packets {
  import opened Wire
  import opened Results

  type u2 = x: int | 0 <= x < 4
  type u3 = x: int | 0 <= x < 8
  type u5 = x: int | 0 <= x < 32

  /** The four raw bytes of a reference identifier. */
  type RefId = s: seq<u8> | |s| == 4 witness [0, 0, 0, 0]

  /** The first byte of every NTP datagram. */
  datatype Header = Header(li: u2, vn: u3, mode: u3)

  /** Mode in bits 0-2 (mask 0x07), version in bits 3-5, leap indicator in bits 6-7. */
  function HeaderByte(h: Header): (b: u8)
    ensures b % 8 == h.mode && (b / 8) % 8 == h.vn && b / 64 == h.li
  {
    h.li * 64 + h.vn * 8 + h.mode
  }

  function DecodeHeaderByte(b: u8): (h: Header)
    ensures HeaderByte(h) == b
  {
    Header(b / 64, (b / 8) % 8, b % 8)
  }

  lemma HeaderRoundTrip(h: Header)
    ensures DecodeHeaderByte(HeaderByte(h)) == h
  {
  }

  /** The header of a datagram, which needs at least its first byte. */
  function DecodeHeader(bs: seq<u8>): (r: Result<Header>)
    ensures r.Ok? <==> |bs| >= 1
    ensures r.Ok? ==> HeaderByte(r.value) == bs[0]
  {
    if |bs| < 1 then Err(TooShort(1, |bs|)) else Ok(DecodeHeaderByte(bs[0]))
  }

  // ---------------------------------------------------------------- SNTP

  /** Seconds since the NTP epoch and a fraction of a second in units of 2^-32 s. */
  datatype Timestamp = Timestamp(secs: u32, frac: u32)

  datatype SntpDatagram = SntpDatagram(
    header: Header,
    stratum: u8,
    poll: i8,
    precision: i8,
    rootDelay: u32,
    rootDispersion: u32,
    refid: RefId,
    reference: Timestamp,
    originate: Timestamp,
    receive: Timestamp,
    transmit: Timestamp)

  const SNTP_SIZE := 48

  /** The eleven 32-bit words that follow the first four bytes, in struct order. */
  function SntpWords(d: SntpDatagram): (ws: seq<nat>)
    ensures |ws| == 11 && Fits(ws, 4)
  {
    Pow256Values();
    [d.rootDelay, d.rootDispersion, FromBigEndian(d.refid),
     d.reference.secs, d.reference.frac, d.originate.secs, d.originate.frac,
     d.receive.secs, d.receive.frac, d.transmit.secs, d.transmit.frac]
  }

  function SntpPrefix(d: SntpDatagram): seq<u8> {
    [HeaderByte(d.header), d.stratum, SignedByte(d.poll), SignedByte(d.precision)]
  }

  function EncodeSntp(d: SntpDatagram): (r: seq<u8>)
    ensures |r| == SNTP_SIZE
  {
    SntpPrefix(d) + Pack(SntpWords(d), 4)
  }

  /**
   * Decodes the first 48 bytes of bs; bytes beyond them are ignored, and a
   * shorter input is an error rather than a read past its end.
   */
  function DecodeSntp(bs: seq<u8>): (r: Result<SntpDatagram>)
    ensures r.Ok? <==> |bs| >= SNTP_SIZE
    ensures r.Err? ==> r.error == TooShort(SNTP_SIZE, |bs|)
  {
    if |bs| < SNTP_SIZE then Err(TooShort(SNTP_SIZE, |bs|))
    else
      Pow256Values();
      var w := Unpack(bs[4..SNTP_SIZE], 4, 11);
      Ok(SntpDatagram(
        DecodeHeaderByte(bs[0]), bs[1], FromSignedByte(bs[2]), FromSignedByte(bs[3]),
        w[0], w[1], BigEndian(w[2], 4),
        Timestamp(w[3], w[4]), Timestamp(w[5], w[6]),
        Timestamp(w[7], w[8]), Timestamp(w[9], w[10])))
  }

  /** Decoding an encoded datagram gives it back. */
  lemma SntpRoundTrip(d: SntpDatagram)
    ensures DecodeSntp(EncodeSntp(d)) == Ok(d)
  {
    Pow256Values();
    var e := EncodeSntp(d);
    assert e[4..SNTP_SIZE] == Pack(SntpWords(d), 4);
    UnpackPack(SntpWords(d), 4);
    BigEndianInverse(d.refid);
    SignedByteInverse(d.poll);
    SignedByteInverse(d.precision);
  }

  /** Re-encoding a decoded datagram gives back exactly the 48 bytes it came from. */
  lemma SntpCanonical(bs: seq<u8>)
    requires |bs| >= SNTP_SIZE
    ensures EncodeSntp(DecodeSntp(bs).value) == bs[..SNTP_SIZE]
  {
    Pow256Values();
    var d := DecodeSntp(bs).value;
    var w := Unpack(bs[4..SNTP_SIZE], 4, 11);
    FromBigEndianInverse(w[2], 4);
    assert SntpWords(d) == w;
    PackUnpack(bs[4..SNTP_SIZE], 4, 11);
    assert bs[..SNTP_SIZE] == bs[..4] + bs[4..SNTP_SIZE];
  }

  /**
   * The wire layout of the first sixteen bytes: the header byte, stratum,
   * poll and precision, then root delay and root dispersion big-endian, then
   * the four reference identifier bytes as they are.
   */
  lemma SntpHeadBytes(d: SntpDatagram)
    ensures EncodeSntp(d)[..4] == [HeaderByte(d.header), d.stratum, SignedByte(d.poll), SignedByte(d.precision)]
    ensures EncodeSntp(d)[4..12] == BigEndian(d.rootDelay, 4) + BigEndian(d.rootDispersion, 4)
    ensures EncodeSntp(d)[12..16] == d.refid
  {
    Pow256Values();
    var ws := SntpWords(d);
    PackSuffix(ws, 0);
    PackSuffix(ws, 2);
    BigEndianInverse(d.refid);
    var p := Pack(ws, 4);
    assert p[8..12] == p[8..16][..4] == BigEndian(ws[2], 4);
    assert EncodeSntp(d)[12..16] == p[8..12];
  }

  /**
   * The wire bytes of the four timestamps, each its seconds word then its
   * fraction word: reference at 16, originate at 24, receive at 32 and
   * transmit at 40.
   */
  lemma SntpTimestampBytes(d: SntpDatagram)
    ensures EncodeSntp(d)[16..24] == BigEndian(d.reference.secs, 4) + BigEndian(d.reference.frac, 4)
    ensures EncodeSntp(d)[24..32] == BigEndian(d.originate.secs, 4) + BigEndian(d.originate.frac, 4)
    ensures EncodeSntp(d)[32..40] == BigEndian(d.receive.secs, 4) + BigEndian(d.receive.frac, 4)
    ensures EncodeSntp(d)[40..48] == BigEndian(d.transmit.secs, 4) + BigEndian(d.transmit.frac, 4)
  {
    Pow256Values();
    var ws := SntpWords(d);
    PackSuffix(ws, 3);
    PackSuffix(ws, 5);
    PackSuffix(ws, 7);
    PackSuffix(ws, 9);
  }

  /** Dropping words 0..k-1 from a packed sequence leaves the packing of the rest. */
  lemma {:induction false} PackSuffix(ws: seq<nat>, k: nat)
    requires Fits(ws, 4) && k + 2 <= |ws|
    ensures Pack(ws, 4)[4 * k..4 * k + 8] == BigEndian(ws[k], 4) + BigEndian(ws[k + 1], 4)
  {
    var p := Pack(ws, 4);
    var rest := Pack(ws[1..], 4);
    assert p == BigEndian(ws[0], 4) + rest;
    if k == 0 {
      assert rest[..4] == BigEndian(ws[1], 4);
      assert p[..8] == BigEndian(ws[0], 4) + rest[..4];
    } else {
      PackSuffix(ws[1..], k - 1);
      var j := 4 * (k - 1);
      assert 4 * k == j + 4;
      assert p[j + 4..j + 12] == rest[j..j + 8];
    }
  }

  // ------------------------------------------------------- control message

  /** The control header without its count, which the encoder derives from the data. */
  datatype ControlHeader = ControlHeader(
    header: Header,
    op: u5,
    more: bool,
    error: bool,
    response: bool,
    sequence: u16,
    status: u16,
    associd: u16,
    offset: u16)

  /** A decoded control message: the count on the wire and the data actually present. */
  datatype ControlDatagram = ControlDatagram(head: ControlHeader, count: u16, data: seq<u8>)

  const CONTROL_HEADER_SIZE := 12

  function Bit(b: bool): nat {
    if b then 1 else 0
  }

  /** Opcode in bits 0-4 (mask 0x1f), more in bit 5, error in bit 6, response in bit 7. */
  function FlagsByte(h: ControlHeader): (b: u8)
    ensures b % 32 == h.op
    ensures ((b / 32) % 2 == 1) == h.more && ((b / 64) % 2 == 1) == h.error
    ensures (b / 128 == 1) == h.response
  {
    Bit(h.response) * 128 + Bit(h.error) * 64 + Bit(h.more) * 32 + h.op
  }

  function ControlWords(h: ControlHeader, count: u16): (ws: seq<nat>)
    ensures |ws| == 5 && Fits(ws, 2)
  {
    Pow256Values();
    [h.sequence, h.status, h.associd, h.offset, count]
  }

  /** The 12-byte header, with count set to the length of the data, then the data. */
  function EncodeControl(h: ControlHeader, data: seq<u8>): (r: seq<u8>)
    requires |data| < 0x1_0000
    ensures |r| == CONTROL_HEADER_SIZE + |data|
    ensures r[CONTROL_HEADER_SIZE..] == data
  {
    [HeaderByte(h.header), FlagsByte(h)] + Pack(ControlWords(h, |data|), 2) + data
  }

  /**
   * Decodes a control message. The data taken is the declared count of
   * bytes, cut short at the end of the input: the count on the wire is
   * never trusted to lie within it.
   */
  function DecodeControl(bs: seq<u8>): (r: Result<ControlDatagram>)
    ensures r.Ok? <==> |bs| >= CONTROL_HEADER_SIZE
    ensures r.Ok? ==> r.value.data <= bs[CONTROL_HEADER_SIZE..]
    ensures r.Ok? ==> |r.value.data| == if r.value.count <= |bs| - CONTROL_HEADER_SIZE
                                        then r.value.count else |bs| - CONTROL_HEADER_SIZE
  {
    if |bs| < CONTROL_HEADER_SIZE then Err(TooShort(CONTROL_HEADER_SIZE, |bs|))
    else
      Pow256Values();
      var b1 := bs[1];
      var w := Unpack(bs[2..CONTROL_HEADER_SIZE], 2, 5);
      var count: u16 := w[4];
      var available := |bs| - CONTROL_HEADER_SIZE;
      var len := if count <= available then count else available;
      var head := ControlHeader(
        DecodeHeaderByte(bs[0]), b1 % 32, (b1 / 32) % 2 == 1, (b1 / 64) % 2 == 1, b1 / 128 == 1,
        w[0], w[1], w[2], w[3]);
      Ok(ControlDatagram(head, count, bs[CONTROL_HEADER_SIZE..CONTROL_HEADER_SIZE + len]))
  }

  /** Decoding an encoded control message gives back its header, its data, and the data's length as count. */
  lemma ControlRoundTrip(h: ControlHeader, data: seq<u8>)
    requires |data| < 0x1_0000
    ensures DecodeControl(EncodeControl(h, data)) == Ok(ControlDatagram(h, |data|, data))
  {
    Pow256Values();
    var e := EncodeControl(h, data);
    assert e[2..CONTROL_HEADER_SIZE] == Pack(ControlWords(h, |data|), 2);
    UnpackPack(ControlWords(h, |data|), 2);
    assert e[CONTROL_HEADER_SIZE..CONTROL_HEADER_SIZE + |data|] == data;
  }

  /** A control message whose count lies within the input re-encodes to exactly its header and data bytes. */
  lemma ControlCanonical(bs: seq<u8>)
    requires |bs| >= CONTROL_HEADER_SIZE
    requires DecodeControl(bs).value.count <= |bs| - CONTROL_HEADER_SIZE
    ensures var c := DecodeControl(bs).value;
            EncodeControl(c.head, c.data) == bs[..CONTROL_HEADER_SIZE + c.count]
  {
    Pow256Values();
    var c := DecodeControl(bs).value;
    var w := Unpack(bs[2..CONTROL_HEADER_SIZE], 2, 5);
    assert DecodeHeaderByte(bs[0]) == c.head.header;
    assert FlagsByte(c.head) == bs[1];
    assert ControlWords(c.head, |c.data|) == w;
    PackUnpack(bs[2..CONTROL_HEADER_SIZE], 2, 5);
    assert bs[..CONTROL_HEADER_SIZE + c.count]
        == [bs[0], bs[1]] + bs[2..CONTROL_HEADER_SIZE] + c.data;
  }
}
