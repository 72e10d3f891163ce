/**
 * Canned answers to NTP control messages: one reply per request, with no
 * fragmentation, whose data depends only on the operation code and the
 * association id.
 */
module ControlMessages {
  import opened Wire
  import opened Results
  import opened Packets

  const READ_STATUS: u5 := 1
  const READ_VARIABLES: u5 := 2

  /** The only association the responder pretends to have. */
  const ASSOCIATION: u16 := 1

  /** The fixed variable list returned for read variables on association 1. */
  const VARIABLES_TEXT: string := "srcadr=127.127.8.0, srcport=123, dstadr=127.0.0.1, dstport=123, leap=0, stratum=0, precision=-23, rootdelay=0.000, rootdisp=0.000, refid=POEP, reftime=0xd0190943.00000000, rec=0xd0190943.468980ec, reach=0xff, unreach=0, hmode=3, pmode=4, hpoll=6, ppoll=10, headway=0, flash=0x0, keyid=0, ttl=0, offset=-16.908, delay=0.000, dispersion=1.658, jitter=0.548"

  /** The placeholder data returned for every other operation code (twelve characters, no newline). */
  const STUB_TEXT: string := "poep is vies"

  /** The bytes of a string of C chars: each character keeps its low eight bits. */
  function Ascii(s: string): seq<u8> {
    seq(|s|, i requires 0 <= i < |s| => Wrap8(s[i] as int))
  }

  /** The data of the reply to operation op on association associd. */
  function Payload(op: u5, associd: u16): (p: seq<u8>)
    ensures |p| < 0x1_0000
  {
    Pow256Values();
    if op == READ_STATUS then BigEndian(ASSOCIATION, 2) + BigEndian(0xFFFF, 2)
    else if op == READ_VARIABLES then
      if associd == ASSOCIATION then Ascii(VARIABLES_TEXT) + [0] else []
    else Ascii(STUB_TEXT)
  }

  /**
   * The payload table: read status gives association 1 with every status bit
   * set; read variables gives the variable text with its terminating NUL on
   * association 1 and nothing on any other; every other code gives the
   * twelve-byte placeholder.
   */
  lemma PayloadTable(op: u5, associd: u16)
    ensures op == READ_STATUS ==> Payload(op, associd) == [0x00, 0x01, 0xFF, 0xFF]
    ensures op == READ_VARIABLES && associd == ASSOCIATION ==>
      var p := Payload(op, associd);
      && |p| == |VARIABLES_TEXT| + 1 && p[|p| - 1] == 0
      && p[..|VARIABLES_TEXT|] == Ascii(VARIABLES_TEXT)
    ensures op == READ_VARIABLES && associd != ASSOCIATION ==> Payload(op, associd) == []
    ensures op != READ_STATUS && op != READ_VARIABLES ==>
      Payload(op, associd) == Ascii(STUB_TEXT) && |Payload(op, associd)| == 12
  {
    Pow256Values();
    if op == READ_STATUS {
      assert BigEndian(1, 2) == [0x00, 0x01];
      assert BigEndian(0xFFFF, 2) == [0xFF, 0xFF];
    }
  }

  lemma VariablesTextLength()
    ensures |VARIABLES_TEXT| == 354
  {
  }

  /** The reply header: mode 6, version 3, a response with no error and no more data, echoing opcode, sequence and association. */
  function ReplyHeader(req: ControlHeader): (h: ControlHeader) {
    ControlHeader(Header(0, 3, 6), req.op, false, false, true, req.sequence, 0, req.associd, 0)
  }

  /** The complete reply datagram to a control request. */
  function ControlReply(req: ControlHeader): (r: seq<u8>)
    ensures |r| == CONTROL_HEADER_SIZE + |Payload(req.op, req.associd)|
  {
    EncodeControl(ReplyHeader(req), Payload(req.op, req.associd))
  }

  /** The reply decodes to the reply header, a count equal to the payload length, and the payload. */
  lemma ControlReplyDecodes(req: ControlHeader)
    ensures var p := Payload(req.op, req.associd);
      DecodeControl(ControlReply(req)) == Ok(ControlDatagram(ReplyHeader(req), |p|, p))
  {
    ControlRoundTrip(ReplyHeader(req), Payload(req.op, req.associd));
  }
}
