/** The outer SSTP packet ([MS-SSTP] sections 2.2.1 and 2.2.3): version, C bit
    and a 12-bit total length. One encoder, and the two parsers that read it: the
    kernel demultiplexer and the userspace codec. */
module SstpFraming {
  import opened Bytes
  import opened Reassembly

  const VERSION_1_0: byte := 0x10
  const HEADER_LEN: nat := 4
  const MAX_PACKET_LEN: nat := 0x0FFF
  const CONTROL_EXTRA_LEN: nat := 4

  datatype Frame = Frame(control: bool, body: seq<byte>)

  function FrameLen(f: Frame): nat {
    HEADER_LEN + |f.body|
  }

  /** The length field holds 12 bits: a longer packet is truncated, not refused. */
  function Header(control: bool, total: nat): (h: seq<byte>)
    ensures |h| == HEADER_LEN
  {
    [VERSION_1_0, if control then 1 else 0, (total / 256) % 16, total % 256]
  }

  function Encode(f: Frame): (s: seq<byte>)
    ensures |s| == FrameLen(f)
  {
    Header(f.control, FrameLen(f)) + f.body
  }

  function EncodeAll(fs: seq<Frame>): seq<byte> {
    if fs == [] then [] else Encode(fs[0]) + EncodeAll(fs[1..])
  }

  /** Length declared by the header at the head of `buf`. */
  function Declared(buf: seq<byte>): (n: nat)
    requires |buf| >= HEADER_LEN
    ensures n <= MAX_PACKET_LEN
  {
    FromBe16(buf[2], buf[3]) % 4096
  }

  predicate HasControlBit(b: byte) {
    b % 2 == 1
  }

  /** One turn of the demultiplexer's loop (kmod). A fatal verdict carries the
      version byte, as the protocol-error event does. */
  function KernelParse(buf: seq<byte>): Verdict<Frame> {
    if |buf| < HEADER_LEN then NeedMore
    else if buf[0] != VERSION_1_0 || Declared(buf) < HEADER_LEN then Fatal(buf[0])
    else if Declared(buf) > |buf| then NeedMore
    else Got(Frame(HasControlBit(buf[1]), buf[HEADER_LEN..Declared(buf)]), Declared(buf))
  }

  /** Message types the userspace codec knows. */
  predicate KnownType(body: seq<byte>) {
    |body| >= 2 && 1 <= FromBe16(body[0], body[1]) <= 9
  }

  /** `Packet::parse` as the session's read loop takes its answers: `Truncated` and
      `LengthMismatch` mean wait, every other error ends the session. A complete
      control packet with a body under four bytes answers `Truncated`. */
  function UserParse(buf: seq<byte>): Verdict<Frame> {
    if |buf| < HEADER_LEN then NeedMore
    else if buf[0] != VERSION_1_0 || Declared(buf) < HEADER_LEN then Fatal(buf[0])
    else if Declared(buf) > |buf| then NeedMore
    else
      var f := Frame(HasControlBit(buf[1]), buf[HEADER_LEN..Declared(buf)]);
      if !f.control then Got(f, Declared(buf))
      else if |f.body| < CONTROL_EXTRA_LEN then NeedMore
      else if !KnownType(f.body) then Fatal(FromBe16(f.body[0], f.body[1]))
      else Got(f, Declared(buf))
  }

  /** The header bit by bit: version 1.0 in the first byte, the C bit lowest in the second,
      twelve bits of length, high nibble first. */
  lemma HeaderByBits(buf: seq<byte>)
    requires |buf| >= 4
    ensures var n := 256 * (buf[2] as int % 16) + buf[3] as int;
      && KernelParse(buf) == (
        if buf[0] != 0x10 || n < 4 then Fatal(buf[0])
        else if n > |buf| then NeedMore
        else Got(Frame(buf[1] as int % 2 == 1, buf[4..n]), n))
      && UserParse(buf) == (
        if buf[0] != 0x10 || n < 4 then Fatal(buf[0])
        else if n > |buf| then NeedMore
        else if buf[1] as int % 2 == 0 then Got(Frame(false, buf[4..n]), n)
        else if n < 8 then NeedMore
        else
          var kind := 256 * (buf[4] as int) + buf[5] as int;
          if 1 <= kind <= 9 then Got(Frame(true, buf[4..n]), n) else Fatal(kind))
  {
    TwelveBits(buf[2], buf[3]);
  }

  lemma TwelveBits(hi: byte, lo: byte)
    ensures FromBe16(hi, lo) % 4096 == 256 * (hi as int % 16) + lo as int
  {
    var h: int, l: int := hi, lo;
    assert h == 16 * (h / 16) + h % 16;
    assert h * 256 + l == 4096 * (h / 16) + (256 * (h % 16) + l);
  }

  /** And as it is written. */
  lemma EncodedByBits(f: Frame)
    requires FrameLen(f) < 4096
    ensures var n := 4 + |f.body|; Encode(f) == [0x10, if f.control then 1 else 0, n / 256, n % 256] + f.body
  {
  }

  lemma KernelParseIsStable()
    ensures Productive(KernelParse) && Stable(KernelParse)
  {
    forall b, more | !KernelParse(b).NeedMore?
      ensures KernelParse(b + more) == KernelParse(b)
    {
      HeadUnchanged(b, more);
    }
  }

  lemma UserParseIsStable()
    ensures Productive(UserParse) && Stable(UserParse)
  {
    forall b, more | !UserParse(b).NeedMore?
      ensures UserParse(b + more) == UserParse(b)
    {
      HeadUnchanged(b, more);
    }
  }

  lemma HeadUnchanged(b: seq<byte>, more: seq<byte>)
    requires |b| >= HEADER_LEN
    ensures Declared(b + more) == Declared(b)
    ensures (b + more)[0] == b[0] && (b + more)[1] == b[1]
    ensures HEADER_LEN <= Declared(b) <= |b| ==>
      (b + more)[HEADER_LEN..Declared(b)] == b[HEADER_LEN..Declared(b)]
  {
  }

  /** The buffer a clean parse leaves behind is shorter than the longest packet. */
  lemma LeftoverBound(buf: seq<byte>)
    ensures ParseStream(KernelParse, buf).error.None? ==>
      |ParseStream(KernelParse, buf).rest| <= MAX_PACKET_LEN - 1
  {
    KernelParseIsStable();
    StopsAt(KernelParse, buf);
  }

  // ---------------------------------------------------------------------------
  // Round trip
  // ---------------------------------------------------------------------------

  lemma DeclaredOfEncoded(f: Frame, tail: seq<byte>)
    ensures Declared(Encode(f) + tail) == FrameLen(f) % 4096
    ensures (Encode(f) + tail)[0] == VERSION_1_0
    ensures HasControlBit((Encode(f) + tail)[1]) == f.control
  {
    var n := FrameLen(f);
    assert (n / 256) % 16 * 256 + n % 256 == n % 4096;
  }

  lemma HeadParses(f: Frame, tail: seq<byte>)
    requires FrameLen(f) <= MAX_PACKET_LEN
    ensures KernelParse(Encode(f) + tail) == Got(f, FrameLen(f))
    ensures (Encode(f) + tail)[FrameLen(f)..] == tail
  {
    DeclaredOfEncoded(f, tail);
    assert (Encode(f) + tail)[HEADER_LEN..FrameLen(f)] == f.body;
  }

  /** A packet too long for its length field is never read back as itself. */
  lemma OverlongHead(f: Frame, tail: seq<byte>)
    requires FrameLen(f) > MAX_PACKET_LEN
    ensures var v := KernelParse(Encode(f) + tail);
      v.Fatal? || (v.Got? && |v.packet.body| < |f.body|)
  {
    DeclaredOfEncoded(f, tail);
  }

  /** Round trip, and exactly when it holds: the demultiplexer gives back the
      frames that were encoded if and only if each fits the 12-bit length field. */
  lemma {:induction false} EncodedStreamParses(fs: seq<Frame>)
    ensures ParseStream(KernelParse, EncodeAll(fs)) == Parsed(fs, [], None)
      <==> forall i :: 0 <= i < |fs| ==> FrameLen(fs[i]) <= MAX_PACKET_LEN
  {
    if fs != [] {
      var tail := EncodeAll(fs[1..]);
      if FrameLen(fs[0]) <= MAX_PACKET_LEN {
        HeadParses(fs[0], tail);
        EncodedStreamParses(fs[1..]);
        var p := ParseStream(KernelParse, tail);
        assert ParseStream(KernelParse, EncodeAll(fs)) == Prepend(fs[0], p);
        assert fs == [fs[0]] + fs[1..];
        assert forall i :: 0 < i < |fs| ==> fs[i] == fs[1..][i - 1];
        assert forall i :: 0 <= i < |fs| - 1 ==> fs[1..][i] == fs[i + 1];
        assert ([fs[0]] + p.packets)[1..] == p.packets;
      } else {
        OverlongHead(fs[0], tail);
        var p := ParseStream(KernelParse, EncodeAll(fs));
        assert p.error.Some? || p.packets[0] != fs[0];
      }
    }
  }

  /** The failing family has members the senders do let through: a control body of
      4092 bytes passes the SEND_CONTROL guard and is framed with length zero. */
  lemma ControlBodyTooLong(body: seq<byte>)
    requires |body| == 4092
    ensures ParseStream(KernelParse, Encode(Frame(true, body))) == Parsed([], Encode(Frame(true, body)), Some(VERSION_1_0))
  {
    DeclaredOfEncoded(Frame(true, body), []);
    assert Encode(Frame(true, body)) + [] == Encode(Frame(true, body));
  }

  // ---------------------------------------------------------------------------
  // The two parsers compared
  // ---------------------------------------------------------------------------

  /** What the userspace codec accepts of the frames the kernel hands out. */
  predicate UserAccepts(f: Frame) {
    f.control ==> |f.body| >= CONTROL_EXTRA_LEN && KnownType(f.body)
  }

  /** The two agree on a stream if and only if the kernel finds no control packet
      in it that is shorter than eight bytes or of an unknown message type. */
  lemma {:induction false} ParsersAgree(buf: seq<byte>)
    ensures ParseStream(UserParse, buf) == ParseStream(KernelParse, buf)
      <==> forall i :: 0 <= i < |ParseStream(KernelParse, buf).packets| ==>
             UserAccepts(ParseStream(KernelParse, buf).packets[i])
    decreases |buf|
  {
    var v := KernelParse(buf);
    if v.Got? {
      var k := ParseStream(KernelParse, buf[v.length..]);
      assert ParseStream(KernelParse, buf) == Prepend(v.packet, k);
      var ps := [v.packet] + k.packets;
      assert ps[0] == v.packet && forall i :: 0 < i < |ps| ==> ps[i] == k.packets[i - 1];
      assert forall i :: 0 <= i < |k.packets| ==> k.packets[i] == ps[i + 1];
      if UserAccepts(v.packet) {
        ParsersAgree(buf[v.length..]);
        var u := ParseStream(UserParse, buf[v.length..]);
        assert ParseStream(UserParse, buf) == Prepend(v.packet, u);
        assert ([v.packet] + u.packets)[1..] == u.packets && ps[1..] == k.packets;
      } else {
        assert ParseStream(UserParse, buf).packets == [];
      }
    }
  }

  /** A complete control packet with a body under four bytes blocks the userspace
      reader for good: no later input ever gets a packet or an error out of it. */
  lemma RuntControlBlocks(body: seq<byte>, more: seq<byte>)
    requires |body| < CONTROL_EXTRA_LEN
    ensures ParseStream(UserParse, Encode(Frame(true, body)) + more)
         == Parsed([], Encode(Frame(true, body)) + more, None)
    ensures KernelParse(Encode(Frame(true, body)) + more) == Got(Frame(true, body), HEADER_LEN + |body|)
  {
    HeadParses(Frame(true, body), more);
  }
}
