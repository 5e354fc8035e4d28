/** PPP frames and the packets the driver reads and writes (src/ppp/frame.rs,
    src/ppp/lcp.rs, src/ppp/auth.rs, the encoders of src/ppp/driver.rs). Every packet
    written has the same envelope: Code, Identifier, Length, body. */
module PppCodec {
  import opened Bytes

  const IPCP: nat := 0x8021
  const LCP: nat := 0xC021
  const PAP: nat := 0xC023
  const CHAP: nat := 0xC223

  const PACKET_HEADER_LEN: nat := 4
  const FRAME_HEADER_LEN: nat := 4

  datatype Packet = Packet(protocol: nat, code: byte, id: byte, body: seq<byte>)

  /** High byte even, low byte odd (section 2 of RFC 1661). */
  predicate LegalProtocol(p: nat) {
    p < U16_LIMIT && (p / 256) % 2 == 0 && p % 2 == 1
  }

  function PacketLen(p: Packet): nat {
    PACKET_HEADER_LEN + |p.body|
  }

  /** Code, Identifier, Length, body; the Length is cut to 16 bits. */
  function Envelope(p: Packet): (s: seq<byte>)
    ensures |s| == PacketLen(p)
  {
    [p.code, p.id] + Be16(PacketLen(p)) + p.body
  }

  /** The frame as written to an SSTP data packet. */
  function Wire(p: Packet): (s: seq<byte>)
    ensures |s| == FRAME_HEADER_LEN + PacketLen(p)
  {
    [0xff, 0x03] + Be16(p.protocol) + Envelope(p)
  }

  function WireAll(ps: seq<Packet>): (r: seq<seq<byte>>)
    ensures |r| == |ps|
  {
    seq(|ps|, i requires 0 <= i < |ps| => Wire(ps[i]))
  }

  // ---------------------------------------------------------------------------
  // Decoding
  // ---------------------------------------------------------------------------

  datatype PppFrame = PppFrame(protocol: nat, info: seq<byte>)

  function StripAddress(buf: seq<byte>): seq<byte> {
    if |buf| >= 2 && buf[0] == 0xff && buf[1] == 0x03 then buf[2..] else buf
  }

  /** Address and Control are optional; a Protocol field of one byte is odd. */
  function DecodeFrame(buf: seq<byte>): (f: Option<PppFrame>)
    ensures f.Some? ==> |f.value.info| < |buf|
  {
    var p := StripAddress(buf);
    if |p| == 0 then None
    else if p[0] % 2 == 1 then Some(PppFrame(p[0], p[1..]))
    else if |p| < 2 || p[1] % 2 == 0 then None
    else Some(PppFrame(FromBe16(p[0], p[1]), p[2..]))
  }

  datatype LcpPacket = LcpPacket(code: byte, id: byte, data: seq<byte>)

  /** The envelope, cut to its Length; shared by LCP, IPCP, PAP and CHAP. */
  function DecodePacket(buf: seq<byte>): (r: Option<LcpPacket>)
    ensures r.Some? ==> |buf| >= PACKET_HEADER_LEN && |r.value.data| <= |buf| - PACKET_HEADER_LEN
  {
    if |buf| < PACKET_HEADER_LEN then None
    else
      var declared := FromBe16(buf[2], buf[3]);
      if declared < PACKET_HEADER_LEN || declared > |buf| then None
      else Some(LcpPacket(buf[0], buf[1], buf[PACKET_HEADER_LEN..declared]))
  }

  datatype PapRequest = PapRequest(id: byte, peerId: seq<byte>, password: seq<byte>)

  /** Authenticate-Request (section 2.2.1 of RFC 1334). */
  function DecodePap(buf: seq<byte>): Option<PapRequest> {
    match DecodePacket(buf)
    case None => None
    case Some(p) =>
      if p.code != 1 || |p.data| == 0 then None
      else
        var peerLen: int := p.data[0];
        if |p.data| < 1 + peerLen + 1 then None
        else
          var pwLen: int := p.data[1 + peerLen];
          var start := peerLen + 2;
          if |p.data| < start + pwLen then None
          else Some(PapRequest(p.id, p.data[1..1 + peerLen], p.data[start..start + pwLen]))
  }

  datatype ChapValue = ChapValue(id: byte, value: seq<byte>, name: seq<byte>)

  /** Challenge or Response (section 4.1 of RFC 1994). */
  function DecodeChap(buf: seq<byte>): Option<ChapValue> {
    match DecodePacket(buf)
    case None => None
    case Some(p) =>
      if (p.code != 1 && p.code != 2) || |p.data| == 0 then None
      else
        var size: int := p.data[0];
        if |p.data| < 1 + size then None
        else Some(ChapValue(p.id, p.data[1..1 + size], p.data[1 + size..]))
  }

  /** A frame byte by byte: Address and Control, Protocol, Code, Identifier, Length, body. */
  lemma WireByBytes(p: Packet)
    requires p.protocol < 0x10000 && PacketLen(p) < 0x10000
    ensures var n := 4 + |p.body|;
      Wire(p) == [0xff, 0x03, p.protocol / 256, p.protocol % 256, p.code, p.id, n / 256, n % 256] + p.body
  {
  }

  /** Address and Control may be left out, and so may the first byte of a Protocol below 256. */
  lemma FrameForms(protocol: nat, info: seq<byte>)
    requires LegalProtocol(protocol)
    ensures var full := [protocol / 256, protocol % 256] + info;
      && DecodeFrame(full) == Some(PppFrame(protocol, info))
      && DecodeFrame([0xff, 0x03] + full) == Some(PppFrame(protocol, info))
      && (protocol < 256 ==> DecodeFrame([0xff, 0x03, protocol] + info) == Some(PppFrame(protocol, info)))
  {
    var full: seq<byte> := [protocol / 256, protocol % 256] + info;
    assert full[2..] == info && StripAddress(full) == full;
    assert ([0xff, 0x03] + full)[2..] == full;
    Be16RoundTrip(protocol);
    if protocol < 256 {
      var short: seq<byte> := [protocol] + info;
      assert ([0xff, 0x03, protocol] + info)[2..] == short && short[1..] == info;
    }
  }

  /** A packet is as long as its Length says, within what is there; bytes behind it are padding. */
  lemma PacketByLength(buf: seq<byte>)
    ensures var r := DecodePacket(buf);
      && (r.Some? <==> |buf| >= 4 && 4 <= 256 * (buf[2] as int) + buf[3] as int <= |buf|)
      && (r.Some? ==> r.value == LcpPacket(buf[0], buf[1], buf[4..256 * (buf[2] as int) + buf[3] as int]))
  {
  }

  // ---------------------------------------------------------------------------
  // Bodies
  // ---------------------------------------------------------------------------

  /** Authenticate-Ack or Nak. */
  function PapAnswer(code: byte, id: byte, message: seq<byte>): Packet {
    Packet(PAP, code, id, [|message| % 256] + message)
  }

  /** Challenge or Response. */
  function ChapValuePacket(code: byte, id: byte, value: seq<byte>, name: seq<byte>): Packet {
    Packet(CHAP, code, id, [|value| % 256] + value + name)
  }

  /** What a PAP peer sends. */
  function PapRequestPacket(r: PapRequest): Packet {
    Packet(PAP, 1, r.id, [|r.peerId| % 256] + r.peerId + ([|r.password| % 256] + r.password))
  }

  // ---------------------------------------------------------------------------
  // Round trips
  // ---------------------------------------------------------------------------

  lemma Be16RoundTrip(n: nat)
    requires n < U16_LIMIT
    ensures FromBe16(Be16(n)[0], Be16(n)[1]) == n
  {
    assert n / 256 < 256;
  }

  /** An envelope reads back, Length equal to its size, exactly when the size fits the
      16-bit field. */
  lemma EnvelopeReadsBack(p: Packet)
    ensures DecodePacket(Envelope(p)) == Some(LcpPacket(p.code, p.id, p.body)) <==> PacketLen(p) < U16_LIMIT
  {
    var e := Envelope(p);
    assert e[2] == Be16(PacketLen(p))[0] && e[3] == Be16(PacketLen(p))[1];
    if PacketLen(p) < U16_LIMIT {
      Be16RoundTrip(PacketLen(p));
      assert e[PACKET_HEADER_LEN..PacketLen(p)] == p.body;
    }
  }

  /** A written frame decodes to its protocol and envelope. */
  lemma FrameReadsBack(p: Packet)
    requires LegalProtocol(p.protocol)
    ensures DecodeFrame(Wire(p)) == Some(PppFrame(p.protocol, Envelope(p)))
  {
    var w := Wire(p);
    var s := w[2..];
    assert StripAddress(w) == s;
    assert s == Be16(p.protocol) + Envelope(p);
    Be16RoundTrip(p.protocol);
    assert s[2..] == Envelope(p);
  }

  /** Both together, and the same number the Length field shows. */
  lemma WireReadsBack(p: Packet)
    requires LegalProtocol(p.protocol) && PacketLen(p) < U16_LIMIT
    ensures DecodeFrame(Wire(p)) == Some(PppFrame(p.protocol, Envelope(p)))
    ensures DecodePacket(Envelope(p)) == Some(LcpPacket(p.code, p.id, p.body))
    ensures FromBe16(Wire(p)[6], Wire(p)[7]) == |Wire(p)| - FRAME_HEADER_LEN
  {
    FrameReadsBack(p);
    EnvelopeReadsBack(p);
    Be16RoundTrip(PacketLen(p));
  }

  lemma PapBody(peerId: seq<byte>, tail: seq<byte>)
    requires |peerId| < 256 && |tail| > 0
    ensures var b: seq<byte> := [|peerId| % 256] + peerId + tail;
      && b[0] == |peerId| && b[1..1 + |peerId|] == peerId
      && b[1 + |peerId|] == tail[0] && b[2 + |peerId|..] == tail[1..]
  {
  }

  /** Credentials of up to 255 bytes each come through as sent. */
  lemma PapReadsBack(r: PapRequest)
    requires |r.peerId| < 256 && |r.password| < 256
    ensures DecodePap(Envelope(PapRequestPacket(r))) == Some(r)
  {
    var p := PapRequestPacket(r);
    EnvelopeReadsBack(p);
    var n, m := |r.peerId|, |r.password|;
    var tail := [m % 256] + r.password;
    PapBody(r.peerId, tail);
    assert tail[1..] == r.password && |p.body| == n + m + 2;
    assert p.body[n + 2..n + 2 + m] == p.body[n + 2..];
  }

  lemma ChapReadsBack(code: byte, id: byte, value: seq<byte>, name: seq<byte>)
    requires (code == 1 || code == 2) && |value| < 256 && |name| < 256
    ensures DecodeChap(Envelope(ChapValuePacket(code, id, value, name))) == Some(ChapValue(id, value, name))
  {
    var p := ChapValuePacket(code, id, value, name);
    EnvelopeReadsBack(p);
    var n := |value|;
    assert p.body[0] == n && p.body[1..1 + n] == value && p.body[1 + n..] == name;
  }

  // ---------------------------------------------------------------------------
  // The encoders, writing into a buffer
  // ---------------------------------------------------------------------------

  /** Copy `src` into the buffer from `at` on. */
  method CopyInto(out: array<byte>, at: nat, src: seq<byte>)
    requires at + |src| <= out.Length
    modifies out
    ensures out[..] == old(out[..at]) + src + old(out[at + |src|..])
  {
    for i := 0 to |src|
      invariant out[..at] == old(out[..at]) && out[at..at + i] == src[..i]
      invariant out[at + i..] == old(out[at + i..])
    {
      out[at + i] := src[i];
    }
    assert out[..] == out[..at] + out[at..at + |src|] + out[at + |src|..];
  }

  /** Envelope and body at the start of the buffer. */
  method WriteEnvelope(out: array<byte>, at: nat, p: Packet)
    requires at + PacketLen(p) <= out.Length
    modifies out
    ensures out[..at] == old(out[..at]) && out[at..at + PacketLen(p)] == Envelope(p)
  {
    out[at], out[at + 1] := p.code, p.id;
    out[at + 2], out[at + 3] := (PacketLen(p) / 256) % 256, PacketLen(p) % 256;
    ghost var header := out[at..at + 4];
    assert header == [p.code, p.id] + Be16(PacketLen(p));
    assert out[..at] == old(out[..at]);
    label Header:
    CopyInto(out, at + 4, p.body);
    assert out[..at + 4] == old@Header(out[..at + 4]);
    assert out[at..at + 4] == out[..at + 4][at..] == header;
    assert out[at..at + PacketLen(p)] == out[at..at + 4] + out[at + 4..at + PacketLen(p)];
  }

  /** `encode_protocol_packet`, and `encode_frame` around a finished packet. */
  method EncodePacketFrame(p: Packet) returns (frame: seq<byte>)
    ensures frame == Wire(p)
  {
    var out := new byte[FRAME_HEADER_LEN + PacketLen(p)](_ => 0);
    out[0], out[1] := 0xff, 0x03;
    out[2], out[3] := (p.protocol / 256) % 256, p.protocol % 256;
    ghost var head := out[..4];
    assert head == [0xff, 0x03] + Be16(p.protocol);
    WriteEnvelope(out, 4, p);
    frame := out[..];
    assert frame == out[..4] + out[4..];
  }
}
