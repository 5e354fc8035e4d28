/** The two netlink readers: acknowledgement draining (src/netlink.rs) and the search for
    link statistics (src/kppp/netlink.rs). Each is a loop proved against a function on the
    bytes, and that function against the messages or attributes that were encoded. */
module NetlinkWalk {
  import opened Bytes
  import opened Netlink

  const MSG_HEADER_LEN: nat := 16
  const NLMSG_ERROR: nat := 2
  const IFLA_STATS64: nat := 23

  // ---------------------------------------------------------------------------
  // Messages
  // ---------------------------------------------------------------------------

  datatype Msg = Msg(typ: nat, flags: nat, seqNo: nat, pid: nat, payload: seq<byte>)

  predicate MsgFits(m: Msg) {
    && m.typ < U16_LIMIT && m.flags < U16_LIMIT && m.seqNo < U32_LIMIT && m.pid < U32_LIMIT
    && MSG_HEADER_LEN + |m.payload| < U32_LIMIT
  }

  function EncodeHeader(m: Msg): (h: seq<byte>)
    ensures |h| == MSG_HEADER_LEN
  {
    Le32(MSG_HEADER_LEN + |m.payload|) + Le16(m.typ) + Le16(m.flags) + Le32(m.seqNo) + Le32(m.pid)
  }

  function EncodeMsg(m: Msg): seq<byte> {
    EncodeHeader(m) + m.payload + Padding(|m.payload|)
  }

  function EncodeMsgs(ms: seq<Msg>): seq<byte> {
    if ms == [] then [] else EncodeMsg(ms[0]) + EncodeMsgs(ms[1..])
  }

  /** The messages of a buffer, and whether all of them were whole. */
  datatype Stream = Stream(msgs: seq<Msg>, whole: bool)

  function Type16(buf: seq<byte>, at: nat): nat
    requires at + 2 <= |buf|
  {
    FromLe16(buf[at], buf[at + 1])
  }

  function Field32(buf: seq<byte>, at: nat): nat
    requires at + 4 <= |buf|
  {
    FromLe32(buf[at], buf[at + 1], buf[at + 2], buf[at + 3])
  }

  function MsgLen(s: seq<byte>): nat
    requires |s| >= MSG_HEADER_LEN
  {
    Field32(s, 0)
  }

  function MsgAt(s: seq<byte>): Msg
    requires |s| >= MSG_HEADER_LEN && MSG_HEADER_LEN <= MsgLen(s) <= |s|
  {
    Msg(Type16(s, 4), Type16(s, 6), Field32(s, 8), Field32(s, 12), s[MSG_HEADER_LEN..MsgLen(s)])
  }

  function WalkMsgs(s: seq<byte>): Stream
    decreases |s|
  {
    if |s| < MSG_HEADER_LEN then Stream([], true)
    else if MsgLen(s) < MSG_HEADER_LEN || MsgLen(s) > |s| then Stream([], false)
    else var r := WalkMsgs(SkipAttr(s, MsgLen(s))); Stream([MsgAt(s)] + r.msgs, r.whole)
  }

  datatype DrainResult = Drained | Truncated | Kernel(errno: int)

  /** A 32-bit two's complement field. */
  function Signed(n: nat): int {
    if n < U32_LIMIT / 2 then n else n - U32_LIMIT
  }

  /** Negation in 32 bits: the smallest value is its own. */
  function Negated(e: int): int {
    if e == -(U32_LIMIT / 2) then e else -e
  }

  /** What an error message says, or None for one too short to say it. */
  function ErrorOf(m: Msg): Option<int> {
    if |m.payload| < 4 then None else Some(Signed(Field32(m.payload, 0)))
  }

  predicate IsAck(m: Msg) {
    m.typ == NLMSG_ERROR && ErrorOf(m) == Some(0)
  }

  /** An error message that is not an acknowledgement ends the walk. */
  predicate Stops(m: Msg) {
    m.typ == NLMSG_ERROR && !IsAck(m)
  }

  function StopResult(m: Msg): DrainResult {
    if ErrorOf(m).None? then Truncated else Kernel(Negated(ErrorOf(m).value))
  }

  function Drain(stream: Stream, remaining: set<nat>): (set<nat>, DrainResult)
    decreases |stream.msgs|
  {
    if stream.msgs == [] then (remaining, if stream.whole then Drained else Truncated)
    else
      var m, rest := stream.msgs[0], Stream(stream.msgs[1..], stream.whole);
      if Stops(m) then (remaining, StopResult(m))
      else Drain(rest, if IsAck(m) then remaining - {m.seqNo} else remaining)
  }

  /** `drain_acks` */
  method DrainAcks(buf: seq<byte>, remaining: set<nat>) returns (left: set<nat>, result: DrainResult)
    ensures (left, result) == Drain(WalkMsgs(buf), remaining)
  {
    left := remaining;
    var offset: nat := 0;
    while offset + MSG_HEADER_LEN <= |buf|
      invariant Drain(WalkMsgs(buf), remaining) == Drain(WalkMsgs(Remaining(buf, offset)), left)
      decreases |buf| - offset
    {
      var msgLen := Field32(buf, offset);
      LengthAt(buf, offset);
      if msgLen < MSG_HEADER_LEN || offset + msgLen > |buf| {
        BadLength(Remaining(buf, offset), left);
        return left, Truncated;
      }
      var typ, seqNo, err, next := ReadMsg(buf, offset, msgLen, left);
      if typ == NLMSG_ERROR {
        if err.None? {
          return left, Truncated;
        }
        if err.value != 0 {
          return left, Kernel(Negated(err.value));
        }
        left := left - {seqNo};
      }
      offset := next;
    }
    result := Drained;
  }

  /** What draining does at a whole message, given its fields. */
  function TurnResult(typ: nat, seqNo: nat, err: Option<int>, rest: Stream, left: set<nat>): (set<nat>, DrainResult) {
    if typ != NLMSG_ERROR then Drain(rest, left)
    else if err.None? then (left, Truncated)
    else if err.value != 0 then (left, Kernel(Negated(err.value)))
    else Drain(rest, left - {seqNo})
  }

  /** The type, sequence number and error field of the message at `offset`, and where the
      next one starts. */
  method ReadMsg(buf: seq<byte>, offset: nat, length: nat, ghost left: set<nat>)
    returns (typ: nat, seqNo: nat, err: Option<int>, next: nat)
    requires offset + MSG_HEADER_LEN <= |buf| && MSG_HEADER_LEN <= length && offset + length <= |buf|
    requires MsgLen(Remaining(buf, offset)) == length
    ensures next > offset
    ensures Drain(WalkMsgs(Remaining(buf, offset)), left) == TurnResult(typ, seqNo, err, WalkMsgs(Remaining(buf, next)), left)
  {
    typ, seqNo := Type16(buf, offset + 4), Field32(buf, offset + 8);
    err, next := None, offset + Align(length);
    if length >= MSG_HEADER_LEN + 4 {
      err := Some(Signed(Field32(buf, offset + MSG_HEADER_LEN)));
    }
    FieldsAt(buf, offset, length);
    DrainTurn(Remaining(buf, offset), left);
  }

  lemma LengthAt(buf: seq<byte>, offset: nat)
    requires offset + MSG_HEADER_LEN <= |buf|
    ensures |Remaining(buf, offset)| == |buf| - offset
    ensures MsgLen(Remaining(buf, offset)) == Field32(buf, offset)
  {
    var s := Remaining(buf, offset);
    assert forall i :: 0 <= i < |s| ==> s[i] == buf[offset + i];
  }

  lemma BadLength(s: seq<byte>, left: set<nat>)
    requires |s| >= MSG_HEADER_LEN && (MsgLen(s) < MSG_HEADER_LEN || MsgLen(s) > |s|)
    ensures Drain(WalkMsgs(s), left) == (left, Truncated)
  {
  }

  /** One whole message of the walk. */
  lemma DrainTurn(s: seq<byte>, left: set<nat>)
    requires |s| >= MSG_HEADER_LEN && MSG_HEADER_LEN <= MsgLen(s) <= |s|
    ensures var m, rest := MsgAt(s), WalkMsgs(SkipAttr(s, MsgLen(s)));
      Drain(WalkMsgs(s), left) ==
        if Stops(m) then (left, StopResult(m)) else Drain(rest, if IsAck(m) then left - {m.seqNo} else left)
  {
    var m, rest := MsgAt(s), WalkMsgs(SkipAttr(s, MsgLen(s)));
    assert WalkMsgs(s) == Stream([m] + rest.msgs, rest.whole);
    assert ([m] + rest.msgs)[1..] == rest.msgs;
  }

  /** The fields of a message, read in place. */
  lemma FieldsAt(buf: seq<byte>, offset: nat, length: nat)
    requires offset + MSG_HEADER_LEN <= |buf| && MSG_HEADER_LEN <= length && offset + length <= |buf|
    requires MsgLen(Remaining(buf, offset)) == length
    ensures var m := MsgAt(Remaining(buf, offset));
      && m.typ == Type16(buf, offset + 4) && m.seqNo == Field32(buf, offset + 8)
      && ErrorOf(m) == (if length < MSG_HEADER_LEN + 4 then None else Some(Signed(Field32(buf, offset + MSG_HEADER_LEN))))
    ensures SkipAttr(Remaining(buf, offset), length) == Remaining(buf, offset + Align(length))
  {
    var s := Remaining(buf, offset);
    assert forall i :: 0 <= i < |s| ==> s[i] == buf[offset + i];
  }

  /** What is left from an offset that padding may have pushed past the end. */
  function Remaining(buf: seq<byte>, offset: nat): seq<byte> {
    if offset >= |buf| then [] else buf[offset..]
  }

  // ---------------------------------------------------------------------------

  /** Draining only ever removes. */
  lemma {:induction false} DrainShrinks(stream: Stream, remaining: set<nat>)
    ensures Drain(stream, remaining).0 <= remaining
    decreases |stream.msgs|
  {
    if stream.msgs != [] && !Stops(stream.msgs[0]) {
      var m := stream.msgs[0];
      DrainShrinks(Stream(stream.msgs[1..], stream.whole), if IsAck(m) then remaining - {m.seqNo} else remaining);
    }
  }

  /** The fields of a header do not depend on what follows it. */
  lemma HeaderAlone(h: seq<byte>, rest: seq<byte>)
    requires |h| == MSG_HEADER_LEN
    ensures var s := h + rest;
      && Field32(s, 0) == Field32(h, 0) && Type16(s, 4) == Type16(h, 4) && Type16(s, 6) == Type16(h, 6)
      && Field32(s, 8) == Field32(h, 8) && Field32(s, 12) == Field32(h, 12)
  {
  }

  lemma Middle(h: seq<byte>, p: seq<byte>, t: seq<byte>)
    ensures (h + (p + t))[|h|..|h| + |p|] == p && (h + (p + t))[|h| + |p|..] == t
  {
  }

  lemma EncodedSplit(m: Msg, tail: seq<byte>)
    ensures EncodeMsg(m) + tail == EncodeHeader(m) + (m.payload + (Padding(|m.payload|) + tail))
  {
    var h, pad := EncodeHeader(m), Padding(|m.payload|);
    Assoc(h, m.payload, pad);
    Assoc(h, m.payload + pad, tail);
    Assoc(m.payload, pad, tail);
  }

  lemma SkipPadding(s: seq<byte>, n: nat, pad: seq<byte>, tail: seq<byte>)
    requires 0 < n <= |s| && s[n..] == pad + tail && n + |pad| == Align(n)
    ensures SkipAttr(s, n) == tail
  {
    assert s[Align(n)..] == s[n..][|pad|..];
  }

  lemma HeaderReads(m: Msg, tail: seq<byte>)
    requires MsgFits(m)
    ensures var s := EncodeMsg(m) + tail;
      && |s| >= MSG_HEADER_LEN && MsgLen(s) == MSG_HEADER_LEN + |m.payload|
      && MsgAt(s) == m && SkipAttr(s, MsgLen(s)) == tail
  {
    var h, pad := EncodeHeader(m), Padding(|m.payload|);
    var s := h + (m.payload + (pad + tail));
    EncodedSplit(m, tail);
    HeaderFields(m);
    HeaderAlone(h, m.payload + (pad + tail));
    Middle(h, m.payload, pad + tail);
    AlignShift(MSG_HEADER_LEN, |m.payload|);
    SkipPadding(s, MSG_HEADER_LEN + |m.payload|, pad, tail);
  }

  lemma HeaderFields(m: Msg)
    requires MsgFits(m)
    ensures var h := EncodeHeader(m);
      && Field32(h, 0) == MSG_HEADER_LEN + |m.payload| && Type16(h, 4) == m.typ
      && Type16(h, 6) == m.flags && Field32(h, 8) == m.seqNo && Field32(h, 12) == m.pid
  {
    Le32RoundTrip(MSG_HEADER_LEN + |m.payload|);
    Le16RoundTrip(m.typ);
    Le16RoundTrip(m.flags);
    Le32RoundTrip(m.seqNo);
    Le32RoundTrip(m.pid);
  }

  lemma {:induction false} WalkEncoded(ms: seq<Msg>)
    requires forall m <- ms :: MsgFits(m)
    ensures WalkMsgs(EncodeMsgs(ms)) == Stream(ms, true)
  {
    if ms != [] {
      HeaderReads(ms[0], EncodeMsgs(ms[1..]));
      WalkEncoded(ms[1..]);
      assert ms == [ms[0]] + ms[1..];
    }
  }

  /** An acknowledgement as it stands in the bytes: type 2 and an error field of zero. */
  predicate AckBytes(m: Msg) {
    m.typ == 2 && |m.payload| >= 4 && m.payload[0] == 0 && m.payload[1] == 0 && m.payload[2] == 0 && m.payload[3] == 0
  }

  /** A kernel error is the field negated, so that -e is reported as e; -2^31 is its own. */
  predicate Reports(m: Msg, r: DrainResult) {
    if |m.payload| < 4 then r.Truncated?
    else
      var b0: int, b1: int, b2: int, b3: int := m.payload[0], m.payload[1], m.payload[2], m.payload[3];
      var v := b0 + 0x100 * b1 + 0x1_0000 * b2 + 0x100_0000 * b3;
      r == Kernel(if v > 0x8000_0000 then 0x1_0000_0000 - v else -v)
  }

  lemma AckIs(m: Msg)
    ensures IsAck(m) <==> AckBytes(m)
    ensures Stops(m) ==> Reports(m, StopResult(m))
  {
  }

  /** Sequence numbers acknowledged among the first `k` messages. */
  function Acked(ms: seq<Msg>, k: nat): set<nat>
    requires k <= |ms|
  {
    set i | 0 <= i < k && AckBytes(ms[i]) :: ms[i].seqNo
  }

  /** The first message that stops the walk, or the end. */
  ghost predicate FirstStop(ms: seq<Msg>, k: nat) {
    && k <= |ms| && (forall i :: 0 <= i < k ==> ms[i].typ == 2 ==> AckBytes(ms[i]))
    && (k < |ms| ==> ms[k].typ == 2 && !AckBytes(ms[k]))
  }

  lemma {:induction false} DrainUpTo(ms: seq<Msg>, remaining: set<nat>, k: nat)
    requires FirstStop(ms, k)
    ensures Drain(Stream(ms, true), remaining) == (remaining - Acked(ms, k), if k == |ms| then Drained else StopResult(ms[k]))
    decreases |ms|
  {
    if ms != [] {
      AckIs(ms[0]);
    }
    if k == 0 {
      assert Acked(ms, 0) == {};
      assert remaining - {} == remaining;
    } else {
      var m, rest := ms[0], ms[1..];
      var next := if IsAck(m) then remaining - {m.seqNo} else remaining;
      assert forall i :: 0 <= i < k - 1 ==> rest[i] == ms[i + 1];
      DrainUpTo(rest, next, k - 1);
      AckedFirst(ms, k);
      assert next - Acked(rest, k - 1) == remaining - Acked(ms, k);
      assert k < |ms| ==> rest[k - 1] == ms[k];
    }
  }

  lemma AckedFirst(ms: seq<Msg>, k: nat)
    requires 0 < k <= |ms|
    ensures Acked(ms, k) == (if AckBytes(ms[0]) then {ms[0].seqNo} else {}) + Acked(ms[1..], k - 1)
  {
    var rest := ms[1..];
    forall x | x in Acked(ms, k)
      ensures x in (if AckBytes(ms[0]) then {ms[0].seqNo} else {}) + Acked(rest, k - 1)
    {
      var i :| 0 <= i < k && AckBytes(ms[i]) && ms[i].seqNo == x;
      if i > 0 {
        assert rest[i - 1] == ms[i];
      }
    }
    forall x | x in Acked(rest, k - 1)
      ensures x in Acked(ms, k)
    {
      var i :| 0 <= i < k - 1 && AckBytes(rest[i]) && rest[i].seqNo == x;
      assert ms[i + 1] == rest[i];
    }
  }

  /** On concatenated, aligned messages draining removes exactly the numbers acknowledged
      before the first kernel error, and reports that error. */
  lemma DrainsExactly(ms: seq<Msg>, remaining: set<nat>, k: nat)
    requires FirstStop(ms, k) && forall m <- ms :: MsgFits(m)
    ensures var (left, r) := Drain(WalkMsgs(EncodeMsgs(ms)), remaining);
      left == remaining - Acked(ms, k) && (if k == |ms| then r.Drained? else Reports(ms[k], r))
  {
    WalkEncoded(ms);
    DrainUpTo(ms, remaining, k);
    if k < |ms| {
      AckIs(ms[k]);
    }
  }

  // ---------------------------------------------------------------------------
  // Link statistics
  // ---------------------------------------------------------------------------

  datatype LinkStats = LinkStats(rxPackets: nat, txPackets: nat, rxBytes: nat, txBytes: nat)

  function Le64(n: nat): (s: seq<byte>)
    ensures |s| == 8
  {
    Le32(n % U32_LIMIT) + Le32(n / U32_LIMIT)
  }

  function FromLe64(s: seq<byte>): nat
    requires |s| == 8
  {
    Field32(s, 0) + U32_LIMIT * Field32(s, 4)
  }

  function FromPayload(p: seq<byte>): Option<LinkStats> {
    if |p| < 32 then None
    else Some(LinkStats(FromLe64(p[..8]), FromLe64(p[8..16]), FromLe64(p[16..24]), FromLe64(p[24..32])))
  }

  /** The search, on the bytes. */
  function Search(s: seq<byte>): Option<LinkStats>
    decreases |s|
  {
    match ReadHeader(s)
    case NoHeader => None
    case Broken => None
    case At(length, typ) =>
      if typ == IFLA_STATS64 then FromPayload(s[ATTR_HEADER_LEN..length]) else Search(SkipAttr(s, length))
  }

  /** `find_stats64` */
  method FindStats64(s: seq<byte>) returns (r: Option<LinkStats>)
    ensures r == Search(s)
  {
    var attrs := s;
    while |attrs| >= ATTR_HEADER_LEN
      invariant Search(attrs) == Search(s)
      decreases |attrs|
    {
      var length, typ := Type16(attrs, 0), Type16(attrs, 2);
      if length < ATTR_HEADER_LEN || length > |attrs| {
        return None;
      }
      if typ == IFLA_STATS64 {
        return FromPayload(attrs[ATTR_HEADER_LEN..length]);
      }
      if Align(length) >= |attrs| {
        return None;
      }
      attrs := attrs[Align(length)..];
    }
    r := None;
  }

  /** `k` is the first statistics attribute, or the end. */
  ghost predicate FirstStats(attrs: seq<Attr>, k: nat) {
    && k <= |attrs| && (forall i :: 0 <= i < k ==> TypeField(attrs[i]) != 23)
    && (k < |attrs| ==> TypeField(attrs[k]) == 23)
  }

  /** On any encoded list the search returns the first statistics attribute, if it holds
      at least 32 bytes. */
  lemma {:induction false} SearchFindsFirst(attrs: seq<Attr>, k: nat)
    requires AllFit(attrs) && FirstStats(attrs, k)
    ensures Search(EncodeAttrs(attrs)) == if k == |attrs| then None else FromPayload(Content(attrs[k]))
    decreases |attrs|
  {
    if attrs != [] {
      var a, rest := attrs[0], attrs[1..];
      assert attrs == [a] + rest;
      EncodeAttrsCons(a, rest);
      var tail := EncodeAttrs(rest);
      HeaderOfEncoded(a, tail);
      if k > 0 {
        assert forall i :: 0 <= i < |rest| ==> rest[i] == attrs[i + 1];
        SearchFindsFirst(rest, k - 1);
        SearchSkips(EncodeAttr(a) + tail, ATTR_HEADER_LEN + |Content(a)|, TypeField(a));
      }
    }
  }

  lemma SearchSkips(s: seq<byte>, length: nat, typ: nat)
    requires ReadHeader(s) == At(length, typ) && typ != IFLA_STATS64
    ensures Search(s) == Search(SkipAttr(s, length))
  {
  }

  lemma Halves(n: nat)
    requires n < U32_LIMIT * U32_LIMIT
    ensures n / U32_LIMIT < U32_LIMIT && n == n % U32_LIMIT + U32_LIMIT * (n / U32_LIMIT)
  {
  }

  lemma Le64RoundTrip(n: nat)
    requires n < U32_LIMIT * U32_LIMIT
    ensures FromLe64(Le64(n)) == n
  {
    Halves(n);
    JoinHalves(n % U32_LIMIT, n / U32_LIMIT);
  }

  lemma JoinHalves(lo: nat, hi: nat)
    requires lo < U32_LIMIT && hi < U32_LIMIT
    ensures FromLe64(Le32(lo) + Le32(hi)) == lo + U32_LIMIT * hi
  {
    Le32RoundTrip(lo);
    Le32RoundTrip(hi);
  }

  /** Counters come through as the kernel wrote them, whatever follows. */
  lemma StatsReadBack(st: LinkStats, tail: seq<byte>)
    requires st.rxPackets < U32_LIMIT * U32_LIMIT && st.txPackets < U32_LIMIT * U32_LIMIT
    requires st.rxBytes < U32_LIMIT * U32_LIMIT && st.txBytes < U32_LIMIT * U32_LIMIT
    ensures FromPayload(Le64(st.rxPackets) + Le64(st.txPackets) + Le64(st.rxBytes) + Le64(st.txBytes) + tail) == Some(st)
  {
    var p := Le64(st.rxPackets) + Le64(st.txPackets) + Le64(st.rxBytes) + Le64(st.txBytes) + tail;
    assert p[..8] == Le64(st.rxPackets) && p[8..16] == Le64(st.txPackets);
    assert p[16..24] == Le64(st.rxBytes) && p[24..32] == Le64(st.txBytes);
    Le64RoundTrip(st.rxPackets);
    Le64RoundTrip(st.txPackets);
    Le64RoundTrip(st.rxBytes);
    Le64RoundTrip(st.txBytes);
  }
}
