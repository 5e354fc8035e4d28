/** LCP Echo (section 5.8 of RFC 1661): the kernel's inline responder
    (kmod/sstp_demux.c) and the userspace driver put the same bytes on the wire. */
module Echo {
  import opened Bytes
  import Reassembly
  import opened SstpFraming
  import PppCodec
  import Fsm
  import opened PppModel
  import opened TxMachine
  import TxChannel
  import SessionWrite

  const ECHO_REQUEST: byte := 9
  const ECHO_REPLY: byte := 10

  /** The LCP Length of a packet that starts with its Protocol field. */
  function LcpLen(payload: seq<byte>): nat
    requires |payload| >= 10
  {
    FromBe16(payload[4], payload[5])
  }

  /** What the responder takes for an Echo-Request. */
  predicate IsEchoRequest(payload: seq<byte>) {
    && |payload| >= 10
    && payload[0] == 0xC0 && payload[1] == 0x21 && payload[2] == ECHO_REQUEST
    && 8 <= LcpLen(payload) <= |payload| - 2
  }

  /** Protocol, Code, Identifier and Length copied, a zero Magic-Number, the data. */
  function EchoReplyData(payload: seq<byte>): (r: seq<byte>)
    requires IsEchoRequest(payload)
    ensures |r| == 2 + LcpLen(payload)
  {
    [0xC0, 0x21, ECHO_REPLY, payload[3], payload[4], payload[5], 0, 0, 0, 0] + payload[10..2 + LcpLen(payload)]
  }

  /** Fill the reply buffer. */
  method BuildReply(payload: seq<byte>) returns (reply: seq<byte>)
    requires IsEchoRequest(payload)
    ensures reply == EchoReplyData(payload)
  {
    var lcpLen := LcpLen(payload);
    var p := new byte[2 + lcpLen](_ => 0);
    p[0], p[1], p[2], p[3] := 0xC0, 0x21, ECHO_REPLY, payload[3];
    p[4], p[5] := payload[4], payload[5];
    p[6], p[7], p[8], p[9] := 0, 0, 0, 0;
    ghost var head := p[..10];
    assert head == [0xC0, 0x21, ECHO_REPLY, payload[3], payload[4], payload[5], 0, 0, 0, 0];
    PppCodec.CopyInto(p, 10, payload[10..2 + lcpLen]);
    reply := p[..];
    assert reply == head + payload[10..2 + lcpLen];
  }

  /** `sstp_handle_lcp_echo`: true if the packet was an Echo-Request, answered or
      swallowed. */
  method HandleLcpEcho(ch: TxChannel.Channel, payload: seq<byte>) returns (handled: bool)
    requires |payload| <= MAX_PAYLOAD
    modifies ch`txQ, ch`workPending
    ensures handled <==> IsEchoRequest(payload)
    ensures if handled && !old(ch.closing) && |old(ch.txQ)| < TX_Q_CAP
      then ch.txQ == old(ch.txQ) + [Buffer(EchoReplyData(payload))] && ch.workPending
      else ch.txQ == old(ch.txQ) && ch.workPending == old(ch.workPending)
  {
    if |payload| < 10 {
      return false;
    }
    if payload[0] != 0xC0 || payload[1] != 0x21 || payload[2] != ECHO_REQUEST {
      return false;
    }
    var lcpLen := LcpLen(payload);
    if lcpLen < 8 || lcpLen + 2 > |payload| {
      return false;
    }
    if ch.closing || |ch.txQ| >= TX_Q_CAP {
      return true;
    }
    var reply := BuildReply(payload);
    ch.txQ := ch.txQ + [Buffer(reply)];
    ch.workPending := true;
    return true;
  }

  /** `sstp_deliver_ppp`: strip the Address and Control bytes, answer an Echo-Request
      here, hand the rest to ppp_generic. */
  method DeliverPpp(ch: TxChannel.Channel, payload: seq<byte>) returns (input: Option<seq<byte>>)
    requires |payload| <= MAX_PAYLOAD
    modifies ch`txQ, ch`workPending, ch`malformed
    ensures var bare := PppCodec.StripAddress(payload);
      && (input.Some? <==> |bare| >= 2 && !IsEchoRequest(bare))
      && (input.Some? ==> input.value == bare)
      && ch.malformed == old(ch.malformed) + (if |bare| < 2 then 1 else 0)
      && (if IsEchoRequest(bare) && !old(ch.closing) && |old(ch.txQ)| < TX_Q_CAP
          then ch.txQ == old(ch.txQ) + [Buffer(EchoReplyData(bare))] else ch.txQ == old(ch.txQ))
  {
    var bare := payload;
    if |bare| >= 2 && bare[0] == 0xff && bare[1] == 0x03 {
      bare := bare[2..];
    }
    if |bare| < 2 {
      ch.malformed := ch.malformed + 1;
      return None;
    }
    var handled := HandleLcpEcho(ch, bare);
    if handled {
      return None;
    }
    return Some(bare);
  }

  // ---------------------------------------------------------------------------
  // The two responders
  // ---------------------------------------------------------------------------

  /** The SSTP packet the transmit worker makes of the queued reply. */
  function KernelBytes(bare: seq<byte>): seq<byte>
    requires IsEchoRequest(bare)
  {
    Encode(SstpFraming.Frame(false, [0xff, 0x03] + EchoReplyData(bare)))
  }

  /** What the session writes of the driver's answer to a frame; None if it aborts. */
  function UserBytes(p: Link, payload: seq<byte>, nonce: Nonce): Option<seq<byte>> {
    SessionWrite.WrittenAll(PppCodec.WireAll(OnFrame(Fsm.Step, p, payload, nonce).1.packets))
  }

  /** The driver reads the same packet out of the same bytes. */
  lemma DriverReadsRequest(payload: seq<byte>)
    ensures var bare := PppCodec.StripAddress(payload);
      IsEchoRequest(bare) ==>
        && PppCodec.DecodeFrame(payload) == Some(PppCodec.PppFrame(PppCodec.LCP, bare[2..]))
        && PppCodec.DecodePacket(bare[2..]) == Some(PppCodec.LcpPacket(ECHO_REQUEST, bare[3], bare[6..2 + LcpLen(bare)]))
  {
    var bare := PppCodec.StripAddress(payload);
    if IsEchoRequest(bare) {
      var info := bare[2..];
      assert info[0] == bare[2] && info[1] == bare[3] && info[2] == bare[4] && info[3] == bare[5];
      assert info[4..LcpLen(bare)] == bare[6..2 + LcpLen(bare)];
    }
  }

  /** And conversely: what it takes for an Echo-Request with Length at least eight is
      one to the responder. */
  lemma ResponderReadsRequest(payload: seq<byte>, id: byte, data: seq<byte>)
    requires PppCodec.DecodeFrame(payload).Some? && PppCodec.DecodeFrame(payload).value.protocol == PppCodec.LCP
    requires PppCodec.DecodePacket(PppCodec.DecodeFrame(payload).value.info) == Some(PppCodec.LcpPacket(ECHO_REQUEST, id, data))
    ensures IsEchoRequest(PppCodec.StripAddress(payload)) <==> |data| >= 4
  {
    var bare := PppCodec.StripAddress(payload);
    var info := PppCodec.DecodeFrame(payload).value.info;
    var first: int := bare[0];
    assert first % 2 == 0 ==> bare[0] == 0xC0 && bare[1] == 0x21 && info == bare[2..];
    assert info[0] == bare[2] && info[2] == bare[4] && info[3] == bare[5];
  }

  lemma ReplyEnvelope(bare: seq<byte>)
    requires IsEchoRequest(bare)
    ensures PppCodec.Wire(PppCodec.Packet(PppCodec.LCP, ECHO_REPLY, bare[3], EchoReplyBody(bare[6..2 + LcpLen(bare)])))
         == [0xff, 0x03] + EchoReplyData(bare)
  {
    var n := LcpLen(bare);
    var data := bare[6..2 + n];
    assert EchoReplyBody(data) == [0, 0, 0, 0] + bare[10..2 + n];
    var pkt := PppCodec.Packet(PppCodec.LCP, ECHO_REPLY, bare[3], EchoReplyBody(data));
    assert PppCodec.PacketLen(pkt) == n;
    LengthBytes(bare[4], bare[5]);
    assert PppCodec.Envelope(pkt) == [ECHO_REPLY, bare[3], bare[4], bare[5], 0, 0, 0, 0] + bare[10..2 + n];
    assert Be16(PppCodec.LCP) == [0xC0, 0x21];
  }

  lemma LengthBytes(hi: byte, lo: byte)
    ensures Be16(FromBe16(hi, lo)) == [hi, lo]
  {
    var h: int, l: int := hi, lo;
    assert (h * 256 + l) / 256 == h;
  }

  lemma DriverReplies(p: Link, payload: seq<byte>, nonce: Nonce)
    requires p.lcp.fsm.state.Opened? && IsEchoRequest(PppCodec.StripAddress(payload))
    ensures PppCodec.WireAll(OnFrame(Fsm.Step, p, payload, nonce).1.packets)
         == [[0xff, 0x03] + EchoReplyData(PppCodec.StripAddress(payload))]
  {
    var bare := PppCodec.StripAddress(payload);
    DriverReadsRequest(payload);
    var data := bare[6..2 + LcpLen(bare)];
    var l := p.lcp.(lastRxrCode := ECHO_REQUEST, lastEchoId := bare[3], lastEchoData := data);
    assert LcpReceives(p.lcp, PppCodec.LcpPacket(ECHO_REQUEST, bare[3], data)) == (l, Fsm.RcvEcho);
    var (f, out) := Fsm.Step(l.fsm, Fsm.RcvEcho);
    assert out == Fsm.StepOut(Fsm.Opened, Some(Fsm.EchoReply), None, None, Fsm.QUIET);
    var pkt := PppCodec.Packet(PppCodec.LCP, ECHO_REPLY, bare[3], EchoReplyBody(data));
    assert OnFrame(Fsm.Step, p, payload, nonce).1.packets == [pkt];
    ReplyEnvelope(bare);
  }

  /** On every payload the responder takes for an Echo-Request, a session whose LCP is
      Opened writes the kernel's packet, byte for byte, if and only if the Length is at most
      4087; above that the kernel sends a packet nobody can read and the session aborts. */
  lemma SameBytesIffShort(p: Link, payload: seq<byte>, nonce: Nonce)
    requires p.lcp.fsm.state.Opened? && IsEchoRequest(PppCodec.StripAddress(payload))
    ensures var bare := PppCodec.StripAddress(payload);
      && (UserBytes(p, payload, nonce) == Some(KernelBytes(bare)) <==> LcpLen(bare) <= MAX_PACKET_LEN - 8)
      && (UserBytes(p, payload, nonce).None? <==> LcpLen(bare) > MAX_PACKET_LEN - 8)
  {
    DriverReplies(p, payload, nonce);
    SessionWrite.WrittenOne([0xff, 0x03] + EchoReplyData(PppCodec.StripAddress(payload)));
  }

  /** The shortest request that does it: Length 4088, without the Address and Control
      bytes, 4090 bytes in all, which one SSTP packet carries. */
  lemma LongEchoAborts(p: Link, data: seq<byte>, nonce: Nonce)
    requires p.lcp.fsm.state.Opened? && |data| == 4084
    ensures var payload := [0xC0, 0x21, ECHO_REQUEST, 7, 0x0F, 0xF8] + data;
      && HEADER_LEN + |payload| <= MAX_PACKET_LEN
      && IsEchoRequest(PppCodec.StripAddress(payload))
      && UserBytes(p, payload, nonce).None?
  {
    var payload := [0xC0, 0x21, ECHO_REQUEST, 7, 0x0F, 0xF8] + data;
    assert PppCodec.StripAddress(payload) == payload && LcpLen(payload) == 4088;
    SameBytesIffShort(p, payload, nonce);
  }

  /** That packet reads back exactly when the request's Length leaves room for the
      prefix: a request without it can be two bytes too long. */
  lemma ReplyReadsBackIffShort(bare: seq<byte>)
    requires IsEchoRequest(bare)
    ensures KernelParse(KernelBytes(bare)) == Reassembly.Got(SstpFraming.Frame(false, [0xff, 0x03] + EchoReplyData(bare)), |KernelBytes(bare)|)
      <==> LcpLen(bare) <= MAX_PACKET_LEN - 8
  {
    var f := SstpFraming.Frame(false, [0xff, 0x03] + EchoReplyData(bare));
    assert Encode(f) + [] == Encode(f);
    if LcpLen(bare) <= MAX_PACKET_LEN - 8 {
      HeadParses(f, []);
    } else {
      OverlongHead(f, []);
    }
  }
}
