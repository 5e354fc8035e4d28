/** `MessageBuf` (src/netlink.rs): attributes appended, nests opened on a stack of
    offsets and their lengths patched in place when they close. */
module NetlinkBuilder {
  import opened Bytes
  import opened Netlink
  import NetlinkWalk

  const MSG_HEADER_LEN: nat := 16

  /** An open nest, or the message itself: the attributes completed so far. */
  datatype Level = Level(typ: nat, done: seq<Attr>)

  /** A nest header before its length is known. */
  function Stub(typ: nat): (s: seq<byte>)
    ensures |s| == ATTR_HEADER_LEN
  {
    Le16(0) + Le16(WithNestFlag(typ))
  }

  /** The bytes of a message under construction; `levels[0]` is the message. */
  function Render(prefix: seq<byte>, levels: seq<Level>): (s: seq<byte>)
    requires |levels| > 0
    ensures |s| >= |prefix|
    decreases |levels|
  {
    var n := |levels| - 1;
    if n == 0 then prefix + EncodeAttrs(levels[0].done)
    else Render(prefix, levels[..n]) + (Stub(levels[n].typ) + EncodeAttrs(levels[n].done))
  }

  /** Where the open nests start. */
  function Offsets(prefix: seq<byte>, levels: seq<Level>): (r: seq<nat>)
    requires |levels| > 0
    ensures |r| == |levels| - 1
    decreases |levels|
  {
    var n := |levels| - 1;
    if n == 0 then [] else Offsets(prefix, levels[..n]) + [|Render(prefix, levels[..n])|]
  }

  lemma {:induction false} RenderAligned(prefix: seq<byte>, levels: seq<Level>)
    requires |levels| > 0 && |prefix| % 4 == 0
    ensures |Render(prefix, levels)| % 4 == 0
    decreases |levels|
  {
    var n := |levels| - 1;
    var attrs := |EncodeAttrs(levels[n].done)|;
    EncodeAttrsAligned(levels[n].done);
    if n == 0 {
      SumAligned(|prefix|, attrs, |Render(prefix, levels)|);
    } else {
      RenderAligned(prefix, levels[..n]);
      SumAligned(ATTR_HEADER_LEN, attrs, ATTR_HEADER_LEN + attrs);
      SumAligned(|Render(prefix, levels[..n])|, ATTR_HEADER_LEN + attrs, |Render(prefix, levels)|);
    }
  }

  /** The stack of offsets is aligned, strictly increasing and inside the buffer. */
  lemma {:induction false} OffsetsIncrease(prefix: seq<byte>, levels: seq<Level>)
    requires |levels| > 0 && |prefix| % 4 == 0
    ensures forall i :: 0 <= i < |levels| - 1 ==>
      var off := Offsets(prefix, levels)[i]; off % 4 == 0 && off + ATTR_HEADER_LEN <= |Render(prefix, levels)|
    ensures forall i, j :: 0 <= i < j < |levels| - 1 ==> Offsets(prefix, levels)[i] < Offsets(prefix, levels)[j]
    decreases |levels|
  {
    var n := |levels| - 1;
    if n > 0 {
      OffsetsIncrease(prefix, levels[..n]);
      RenderAligned(prefix, levels[..n]);
    }
  }

  // ---------------------------------------------------------------------------
  // The three operations on levels
  // ---------------------------------------------------------------------------

  function Top(levels: seq<Level>): Level
    requires |levels| > 0
  {
    levels[|levels| - 1]
  }

  function Adding(levels: seq<Level>, a: Attr): (r: seq<Level>)
    requires |levels| > 0
    ensures |r| == |levels|
  {
    levels[..|levels| - 1] + [Top(levels).(done := Top(levels).done + [a])]
  }

  function Closing(levels: seq<Level>): (r: seq<Level>)
    requires |levels| > 1
    ensures |r| == |levels| - 1
  {
    Adding(levels[..|levels| - 1], Nest(Top(levels).typ, Top(levels).done))
  }

  predicate LevelsFit(levels: seq<Level>) {
    forall l <- levels :: l.typ < U16_LIMIT && AllFit(l.done)
  }

  lemma AddingFits(levels: seq<Level>, a: Attr)
    requires |levels| > 0 && LevelsFit(levels) && Fits(a)
    ensures LevelsFit(Adding(levels, a))
  {
    assert Top(levels) in levels;
  }

  lemma ClosingFits(levels: seq<Level>)
    requires |levels| > 1 && LevelsFit(levels)
    requires ATTR_HEADER_LEN + |EncodeAttrs(Top(levels).done)| < U16_LIMIT
    ensures LevelsFit(Closing(levels))
  {
    assert Top(levels) in levels;
    AddingFits(levels[..|levels| - 1], Nest(Top(levels).typ, Top(levels).done));
  }

  lemma AddingRenders(prefix: seq<byte>, levels: seq<Level>, a: Attr)
    requires |levels| > 0
    ensures Render(prefix, Adding(levels, a)) == Render(prefix, levels) + EncodeAttr(a)
    ensures Offsets(prefix, Adding(levels, a)) == Offsets(prefix, levels)
  {
    var n, top := |levels| - 1, Top(levels);
    var after := Adding(levels, a);
    EncodeAttrsPush(top.done, a);
    assert after[..n] == levels[..n] && after[n] == top.(done := top.done + [a]);
    if n == 0 {
      Assoc(prefix, EncodeAttrs(top.done), EncodeAttr(a));
    } else {
      Assoc(Stub(top.typ), EncodeAttrs(top.done), EncodeAttr(a));
      Assoc(Render(prefix, levels[..n]), Stub(top.typ) + EncodeAttrs(top.done), EncodeAttr(a));
    }
  }

  lemma OpeningRenders(prefix: seq<byte>, levels: seq<Level>, typ: nat)
    requires |levels| > 0
    ensures Render(prefix, levels + [Level(typ, [])]) == Render(prefix, levels) + Stub(typ)
    ensures Offsets(prefix, levels + [Level(typ, [])]) == Offsets(prefix, levels) + [|Render(prefix, levels)|]
  {
    var after := levels + [Level(typ, [])];
    assert after[..|levels|] == levels && Stub(typ) + [] == Stub(typ);
  }

  lemma NoPadding(s: seq<byte>, n: nat)
    requires n % 4 == 0
    ensures s + Padding(n) == s
  {
    AlignAligned(n);
    assert Padding(n) == [];
  }

  lemma AlignedBlock(typ: nat, c: seq<byte>)
    requires |c| % 4 == 0
    ensures Block(typ, c) == (Le16(ATTR_HEADER_LEN + |c|) + Le16(typ)) + c
  {
    NoPadding(Le16(ATTR_HEADER_LEN + |c|) + Le16(typ) + c, |c|);
  }

  /** Header and payload appended, then padded to four. */
  lemma PaddedBlock(before: seq<byte>, typ: nat, payload: seq<byte>)
    requires |before| % 4 == 0
    ensures var s := before + (Le16(ATTR_HEADER_LEN + |payload|) + Le16(typ)) + payload;
      s + Padding(|s|) == before + Block(typ, payload)
  {
    var h := Le16(ATTR_HEADER_LEN + |payload|) + Le16(typ);
    var pad := Padding(|payload|);
    PaddingShift(|before| + ATTR_HEADER_LEN, |payload|);
    Assoc(before, h, payload);
    Assoc(before, h + payload, pad);
  }

  lemma PaddingShift(n: nat, m: nat)
    requires n % 4 == 0
    ensures Padding(n + m) == Padding(m)
  {
    AlignShift(n, m);
  }

  /** Overwrite the two bytes at the start of what follows `base`. */
  lemma Patch(base: seq<byte>, zero: seq<byte>, length: seq<byte>, flag: seq<byte>, kids: seq<byte>)
    requires |zero| == 2
    ensures var s := base + ((zero + flag) + kids);
      s[..|base|] + length + s[|base| + 2..] == base + ((length + flag) + kids)
  {
    var s := base + ((zero + flag) + kids);
    assert s[..|base|] == base && s[|base| + 2..] == flag + kids;
    Assoc(base, length, flag + kids);
    Assoc(length, flag, kids);
  }

  /** The nest at the top, closed, as bytes. */
  lemma ClosedNest(typ: nat, done: seq<Attr>)
    ensures EncodeAttr(Nest(typ, done))
      == (Le16(ATTR_HEADER_LEN + |EncodeAttrs(done)|) + Le16(WithNestFlag(typ))) + EncodeAttrs(done)
  {
    EncodeAttrsAligned(done);
    AlignedBlock(WithNestFlag(typ), EncodeAttrs(done));
    assert Content(Nest(typ, done)) == EncodeAttrs(done);
  }

  /** Patching the stub turns it into the header of the finished nest. */
  lemma ClosingRenders(prefix: seq<byte>, levels: seq<Level>)
    requires |levels| > 1
    ensures var s, n := Render(prefix, levels), |levels| - 1;
      var off := |Render(prefix, levels[..n])|;
      && off + ATTR_HEADER_LEN + |EncodeAttrs(Top(levels).done)| == |s|
      && Offsets(prefix, levels) == Offsets(prefix, Closing(levels)) + [off]
      && Render(prefix, Closing(levels)) == s[..off] + Le16(|s| - off) + s[off + 2..]
  {
    var n, top := |levels| - 1, Top(levels);
    var base, kids := Render(prefix, levels[..n]), EncodeAttrs(top.done);
    AddingRenders(prefix, levels[..n], Nest(top.typ, top.done));
    ClosedNest(top.typ, top.done);
    Patch(base, Le16(0), Le16(ATTR_HEADER_LEN + |kids|), Le16(WithNestFlag(top.typ)), kids);
  }

  // ---------------------------------------------------------------------------
  // Sequences of operations
  // ---------------------------------------------------------------------------

  /** Nothing open, and these attributes written. */
  function Whole(attrs: seq<Attr>): (r: seq<Level>)
    ensures |r| == 1
  {
    [Level(0, attrs)]
  }

  function Empty(): (r: seq<Level>)
    ensures |r| == 1
  {
    Whole([])
  }

  lemma AddingToWhole(attrs: seq<Attr>, a: Attr)
    ensures Adding(Whole(attrs), a) == Whole(attrs + [a])
  {
  }

  datatype Op = Push(typ: nat, payload: seq<byte>) | Begin(typ: nat) | End

  /** None if a nest is closed that was never opened. */
  function Apply(levels: seq<Level>, op: Op): (r: Option<seq<Level>>)
    requires |levels| > 0
    ensures r.Some? ==> |r.value| > 0
  {
    match op
    case Push(typ, payload) => Some(Adding(levels, Leaf(typ, payload)))
    case Begin(typ) => Some(levels + [Level(typ, [])])
    case End => if |levels| > 1 then Some(Closing(levels)) else None
  }

  function ApplyAll(levels: seq<Level>, ops: seq<Op>): (r: Option<seq<Level>>)
    requires |levels| > 0
    ensures r.Some? ==> |r.value| > 0
    decreases |ops|
  {
    if ops == [] then Some(levels)
    else
      var next := Apply(levels, ops[0]);
      if next.None? then None else ApplyAll(next.value, ops[1..])
  }

  /** The operations that write a tree. */
  function Linear(attrs: seq<Attr>): seq<Op>
    decreases attrs
  {
    if attrs == [] then [] else Linear(attrs[..|attrs| - 1]) + LinearOne(attrs[|attrs| - 1])
  }

  function LinearOne(a: Attr): seq<Op>
    decreases a
  {
    match a
    case Leaf(typ, payload) => [Push(typ, payload)]
    case Nest(typ, kids) => [Begin(typ)] + Linear(kids) + [End]
  }

  /** All operations so far, read off the levels. */
  function Said(levels: seq<Level>): seq<Op>
    requires |levels| > 0
    decreases |levels|
  {
    var n := |levels| - 1;
    if n == 0 then Linear(levels[0].done)
    else Said(levels[..n]) + ([Begin(levels[n].typ)] + Linear(levels[n].done))
  }

  lemma LinearPush(attrs: seq<Attr>, a: Attr)
    ensures Linear(attrs + [a]) == Linear(attrs) + LinearOne(a)
  {
    assert (attrs + [a])[..|attrs|] == attrs;
  }

  lemma AddingSaid(levels: seq<Level>, a: Attr)
    requires |levels| > 0
    ensures Said(Adding(levels, a)) == Said(levels) + LinearOne(a)
  {
    var n, top := |levels| - 1, Top(levels);
    var after := Adding(levels, a);
    assert after[..n] == levels[..n];
    LinearPush(top.done, a);
    if n > 0 {
      Assoc([Begin(top.typ)], Linear(top.done), LinearOne(a));
      Assoc(Said(levels[..n]), [Begin(top.typ)] + Linear(top.done), LinearOne(a));
    }
  }

  lemma ClosingSaid(levels: seq<Level>)
    requires |levels| > 1
    ensures Said(Closing(levels)) == Said(levels) + [End]
  {
    var n, top := |levels| - 1, Top(levels);
    AddingSaid(levels[..n], Nest(top.typ, top.done));
    Assoc(Said(levels[..n]), [Begin(top.typ)] + Linear(top.done), [End]);
  }

  lemma OpeningSaid(levels: seq<Level>, typ: nat)
    requires |levels| > 0
    ensures Said(levels + [Level(typ, [])]) == Said(levels) + [Begin(typ)]
  {
    assert (levels + [Level(typ, [])])[..|levels|] == levels;
    assert [Begin(typ)] + [] == [Begin(typ)];
  }

  /** Each operation adds itself to what the levels say. */
  lemma ApplySaid(levels: seq<Level>, op: Op)
    requires |levels| > 0 && Apply(levels, op).Some?
    ensures Said(Apply(levels, op).value) == Said(levels) + [op]
  {
    match op
    case Push(typ, payload) => AddingSaid(levels, Leaf(typ, payload));
    case Begin(typ) => OpeningSaid(levels, typ);
    case End => ClosingSaid(levels);
  }

  lemma {:induction false} ApplyAllSaid(levels: seq<Level>, ops: seq<Op>)
    requires |levels| > 0 && ApplyAll(levels, ops).Some?
    ensures Said(ApplyAll(levels, ops).value) == Said(levels) + ops
    decreases |ops|
  {
    if ops == [] {
      assert Said(levels) + ops == Said(levels);
    } else {
      var next := Apply(levels, ops[0]).value;
      ApplySaid(levels, ops[0]);
      ApplyAllSaid(next, ops[1..]);
      Assoc(Said(levels), [ops[0]], ops[1..]);
      assert [ops[0]] + ops[1..] == ops;
    }
  }

  lemma {:induction false} ApplyAllJoin(levels: seq<Level>, a: seq<Op>, b: seq<Op>)
    requires |levels| > 0 && ApplyAll(levels, a).Some?
    ensures ApplyAll(levels, a + b) == ApplyAll(ApplyAll(levels, a).value, b)
    decreases |a|
  {
    if a == [] {
      assert a + b == b;
    } else {
      ApplyAllJoin(Apply(levels, a[0]).value, a[1..], b);
      assert (a + b)[0] == a[0] && (a + b)[1..] == a[1..] + b;
    }
  }

  /** Running a tree's operations appends the tree. */
  ghost predicate Appends(levels: seq<Level>, ops: seq<Op>, attrs: seq<Attr>)
    requires |levels| > 0
  {
    ApplyAll(levels, ops) == Some(levels[..|levels| - 1] + [Top(levels).(done := Top(levels).done + attrs)])
  }

  lemma ApplyOne(levels: seq<Level>, op: Op)
    requires |levels| > 0
    ensures ApplyAll(levels, [op]) == Apply(levels, op)
  {
    assert [op][1..] == [];
  }

  lemma {:induction false} OneAppends(levels: seq<Level>, a: Attr)
    requires |levels| > 0
    ensures ApplyAll(levels, LinearOne(a)) == Some(Adding(levels, a))
    decreases a, 1
  {
    match a
    case Leaf(typ, payload) => ApplyOne(levels, Push(typ, payload));
    case Nest(typ, kids) =>
      var opened_ := levels + [Level(typ, [])];
      ApplyOne(levels, Begin(typ));
      TreeAppends(opened_, kids);
      ApplyAllJoin(levels, [Begin(typ)], Linear(kids));
      var full := levels + [Level(typ, kids)];
      assert opened_[..|levels|] == levels && [] + kids == kids;
      ApplyAllJoin(levels, [Begin(typ)] + Linear(kids), [End]);
      ApplyOne(full, End);
      assert full[..|levels|] == levels;
  }

  lemma {:induction false} TreeAppends(levels: seq<Level>, attrs: seq<Attr>)
    requires |levels| > 0
    ensures Appends(levels, Linear(attrs), attrs)
    decreases attrs, 0
  {
    if attrs == [] {
      assert Top(levels).done + [] == Top(levels).done;
      assert levels[..|levels| - 1] + [Top(levels)] == levels;
    } else {
      var init, last := attrs[..|attrs| - 1], attrs[|attrs| - 1];
      TreeAppends(levels, init);
      var mid := levels[..|levels| - 1] + [Top(levels).(done := Top(levels).done + init)];
      OneAppends(mid, last);
      ApplyAllJoin(levels, Linear(init), LinearOne(last));
      assert (Top(levels).done + init) + [last] == Top(levels).done + attrs;
      assert mid[..|levels| - 1] == levels[..|levels| - 1];
    }
  }

  /** A sequence of operations is well bracketed, and builds `attrs`, exactly when it is
      the linear form of `attrs`. */
  lemma WellBracketed(ops: seq<Op>, attrs: seq<Attr>)
    ensures ApplyAll(Empty(), ops) == Some(Whole(attrs)) <==> ops == Linear(attrs)
  {
    var start := Empty();
    if ApplyAll(start, ops) == Some(Whole(attrs)) {
      ApplyAllSaid(start, ops);
      assert Said(start) == [] && [] + ops == ops;
    }
    TreeAppends(start, attrs);
    assert start[..0] + [Level(0, [] + attrs)] == Whole(attrs) by { assert [] + attrs == attrs; }
  }

  /** Any well-bracketed sequence of operations after an aligned prefix leaves an aligned
      message whose attributes read back as the tree the sequence spells, if and only if
      no type carries the nest flag. */
  lemma BuiltMessageReadsBack(prefix: seq<byte>, ops: seq<Op>, attrs: seq<Attr>)
    requires |prefix| % 4 == 0 && AllFit(attrs)
    requires ApplyAll(Empty(), ops) == Some(Whole(attrs))
    ensures ops == Linear(attrs)
    ensures |Render(prefix, Whole(attrs))| % 4 == 0
    ensures ParseAttrs(Render(prefix, Whole(attrs))[|prefix|..]) == Some(attrs) <==> AllPlain(attrs)
  {
    WellBracketed(ops, attrs);
    RoundTripIffPlain(attrs);
    RenderWhole(prefix, attrs);
  }

  lemma RenderWhole(prefix: seq<byte>, attrs: seq<Attr>)
    requires |prefix| % 4 == 0
    ensures |Render(prefix, Whole(attrs))| % 4 == 0
    ensures Render(prefix, Whole(attrs))[|prefix|..] == EncodeAttrs(attrs)
  {
    RenderAligned(prefix, Whole(attrs));
  }

  // ---------------------------------------------------------------------------
  // The buffer
  // ---------------------------------------------------------------------------

  /** `nlmsghdr` with a zero pid. */
  function MsgHeader(length: nat, msgType: nat, flags: nat, seqNo: nat): (h: seq<byte>)
    ensures |h| == MSG_HEADER_LEN
  {
    Le32(length) + Le16(msgType) + Le16(flags) + Le32(seqNo) + Le32(0)
  }

  class MessageBuf {
    var bytes: seq<byte>
    var nestStack: seq<nat>
    const seqNo: nat
    const flags: nat
    /** Everything before the attributes. */
    ghost var prefix: seq<byte>
    ghost var levels: seq<Level>

    ghost predicate Valid()
      reads this
    {
      && |levels| > 0 && |prefix| >= MSG_HEADER_LEN && |prefix| % 4 == 0
      && bytes == Render(prefix, levels)
      && nestStack == Offsets(prefix, levels)
      && LevelsFit(levels)
    }

    constructor (msgType: nat, flags: nat, seqNo: nat)
      ensures Valid() && prefix == MsgHeader(0, msgType, flags, seqNo) && levels == Empty()
    {
      this.flags, this.seqNo := flags, seqNo;
      bytes, nestStack := MsgHeader(0, msgType, flags, seqNo), [];
      prefix, levels := MsgHeader(0, msgType, flags, seqNo), Empty();
      new;
      assert prefix + [] == prefix;
    }

    method PadTo4()
      modifies this`bytes
      ensures bytes == old(bytes) + Padding(|old(bytes)|)
      ensures |old(bytes)| % 4 == 0 ==> bytes == old(bytes)
    {
      ghost var n := 0;
      assert bytes + Zeros(0) == bytes;
      while |bytes| % 4 != 0
        invariant bytes == old(bytes) + Zeros(n) && |bytes| <= Align(|old(bytes)|)
        decreases Align(|old(bytes)|) - |bytes|
      {
        assert Zeros(n) + [0] == Zeros(n + 1);
        Assoc(old(bytes), Zeros(n), [0]);
        bytes := bytes + [0];
        n := n + 1;
      }
    }

    /** A struct, padded; right after `nlmsghdr` it is the family header, and the buffer
        goes on as a message. */
    method PushStruct(value: seq<byte>)
      requires Valid()
      modifies `bytes, `prefix
      ensures bytes == old(bytes) + value + Padding(|value|) && |bytes| % 4 == 0
      ensures prefix == if levels == Empty() then old(prefix) + value + Padding(|value|) else old(prefix)
      ensures levels == Empty() ==> Valid()
    {
      RenderAligned(prefix, levels);
      bytes := bytes + value;
      PadTo4();
      PaddingShift(|old(bytes)|, |value|);
      if levels == Empty() {
        prefix := prefix + value + Padding(|value|);
        assert old(prefix) + [] == old(prefix) && prefix + [] == prefix;
      }
    }

    method PushAttrBytes(attrType: nat, payload: seq<byte>)
      requires Valid() && attrType < U16_LIMIT && ATTR_HEADER_LEN + |payload| < U16_LIMIT
      modifies this
      ensures Valid() && prefix == old(prefix) && levels == Adding(old(levels), Leaf(attrType, payload))
    {
      var a := Leaf(attrType, payload);
      RenderAligned(prefix, levels);
      var total := ATTR_HEADER_LEN + |payload|;
      bytes := bytes + (Le16(total) + Le16(attrType)) + payload;
      PadTo4();
      PaddedBlock(old(bytes), attrType, payload);
      AddingRenders(prefix, levels, a);
      AddingFits(levels, a);
      levels := Adding(levels, a);
    }

    method NestBegin(attrType: nat)
      requires Valid() && attrType < U16_LIMIT
      modifies this
      ensures Valid() && prefix == old(prefix) && levels == old(levels) + [Level(attrType, [])]
    {
      OpeningRenders(prefix, levels, attrType);
      nestStack := nestStack + [|bytes|];
      bytes := bytes + Stub(attrType);
      levels := levels + [Level(attrType, [])];
    }

    /** Pop the offset and patch the length there. */
    method NestEnd()
      requires Valid() && nestStack != [] && |bytes| - nestStack[|nestStack| - 1] < U16_LIMIT
      modifies this
      ensures Valid() && prefix == old(prefix) && levels == Closing(old(levels))
      ensures nestStack == old(nestStack[..|nestStack| - 1])
    {
      ClosingRenders(prefix, levels);
      var off := nestStack[|nestStack| - 1];
      nestStack := nestStack[..|nestStack| - 1];
      bytes := bytes[..off] + Le16(|bytes| - off) + bytes[off + 2..];
      ClosingFits(levels);
      levels := Closing(levels);
      RenderAligned(prefix, levels);
      PadTo4();
    }

    /** Patch the outer length: it is the size of the whole message, and the attributes
        after the prefix read back as the tree that was built. */
    method Finalize()
      requires Valid() && nestStack == [] && |bytes| < U32_LIMIT
      modifies this`bytes
      ensures |bytes| == |old(bytes)| && |bytes| % 4 == 0
      ensures |bytes| >= MSG_HEADER_LEN && FromLe32(bytes[0], bytes[1], bytes[2], bytes[3]) == |bytes|
      ensures bytes[4..] == old(bytes)[4..]
      ensures bytes[|prefix|..] == EncodeAttrs(levels[0].done)
      ensures ParseAttrs(bytes[|prefix|..]) == Some(levels[0].done) <==> AllPlain(levels[0].done)
    {
      RenderAligned(prefix, levels);
      bytes := Le32(|bytes|) + bytes[4..];
      Le32RoundTrip(|bytes|);
      assert old(bytes)[|prefix|..] == EncodeAttrs(levels[0].done);
      RoundTripIffPlain(levels[0].done);
    }
  }

  // ---------------------------------------------------------------------------
  // One of the encoders
  // ---------------------------------------------------------------------------

  const RTM_NEWROUTE: nat := 24
  const ROUTE_FLAGS: nat := 0x505   // REQUEST, ACK, CREATE, REPLACE
  const RTA_DST: nat := 1
  const RTA_OIF: nat := 4
  const RTA_GATEWAY: nat := 5
  const RTA_PRIORITY: nat := 6
  const RTMSG_LEN: nat := 12

  type Octets = s: seq<byte> | |s| == 4 witness [0, 0, 0, 0]

  /** What a route request should say. */
  function RouteAttrs(ifindex: nat, dest: Octets, gateway: Option<Octets>, metric: Option<nat>): seq<Attr> {
    [Leaf(1, dest), Leaf(4, Le32(ifindex))]
    + (if gateway.Some? then [Leaf(5, gateway.value)] else [])
    + (if metric.Some? then [Leaf(6, Le32(metric.value))] else [])
  }

  /** `struct rtmsg`: an on-link route has link scope. */
  function RtMsg(prefixLen: byte, viaGateway: bool): (s: seq<byte>)
    ensures |s| == RTMSG_LEN
  {
    [2, prefixLen, 0, 0, 254, 3, if viaGateway then 0 else 253, 1] + Le32(0)
  }

  method BeginRoute(seqNo: nat, prefixLen: byte, viaGateway: bool) returns (buf: MessageBuf)
    ensures fresh(buf) && buf.Valid() && buf.levels == Empty()
    ensures buf.prefix == MsgHeader(0, RTM_NEWROUTE, ROUTE_FLAGS, seqNo) + RtMsg(prefixLen, viaGateway)
  {
    buf := new MessageBuf(RTM_NEWROUTE, ROUTE_FLAGS, seqNo);
    ghost var header := buf.prefix;
    var rt := RtMsg(prefixLen, viaGateway);
    buf.PushStruct(rt);
    NoPadding(header + rt, RTMSG_LEN);
  }

  /** To the walk the bytes are one whole message. */
  ghost predicate IsMessage(bytes: seq<byte>, msgType: nat, flags: nat, seqNo: nat) {
    && |bytes| >= 16
    && NetlinkWalk.WalkMsgs(bytes) == NetlinkWalk.Stream([NetlinkWalk.Msg(msgType, flags, seqNo, 0, bytes[16..])], true)
  }

  /** A finished message is one message to the walk, with the type, flags and sequence number
      it was made with. */
  lemma FinishedReads(bytes: seq<byte>, msgType: nat, flags: nat, seqNo: nat)
    requires MSG_HEADER_LEN <= |bytes| < U32_LIMIT && |bytes| % 4 == 0
    requires msgType < U16_LIMIT && flags < U16_LIMIT && seqNo < U32_LIMIT
    requires FromLe32(bytes[0], bytes[1], bytes[2], bytes[3]) == |bytes|
    requires bytes[4..MSG_HEADER_LEN] == MsgHeader(0, msgType, flags, seqNo)[4..]
    ensures IsMessage(bytes, msgType, flags, seqNo)
  {
    var m := NetlinkWalk.Msg(msgType, flags, seqNo, 0, bytes[MSG_HEADER_LEN..]);
    NetlinkWalk.HeaderFields(m);
    var h := NetlinkWalk.EncodeHeader(m);
    assert forall i :: 4 <= i < MSG_HEADER_LEN ==> bytes[i] == bytes[4..MSG_HEADER_LEN][i - 4] == h[i];
    assert NetlinkWalk.MsgAt(bytes) == m;
    assert SkipAttr(bytes, |bytes|) == [];
    assert NetlinkWalk.WalkMsgs([]) == NetlinkWalk.Stream([], true);
    assert [m] + [] == [m];
  }

  /** The finished request: exact outer length, and the message and attributes a reader gets. */
  method EncodeAddRoute(seqNo: nat, ifindex: nat, dest: Octets, prefixLen: byte, gateway: Option<Octets>, metric: Option<nat>)
    returns (buf: MessageBuf)
    ensures fresh(buf) && buf.nestStack == []
    ensures |buf.bytes| == MSG_HEADER_LEN + RTMSG_LEN + |EncodeAttrs(RouteAttrs(ifindex, dest, gateway, metric))|
    ensures FromLe32(buf.bytes[0], buf.bytes[1], buf.bytes[2], buf.bytes[3]) == |buf.bytes|
    ensures seqNo < U32_LIMIT ==> IsMessage(buf.bytes, 24, 0x505, seqNo)
    ensures buf.bytes[16..28] == [2, prefixLen, 0, 0, 254, 3, if gateway.Some? then 0 else 253, 1, 0, 0, 0, 0]
    ensures ParseAttrs(buf.bytes[28..]) == Some(RouteAttrs(ifindex, dest, gateway, metric))
  {
    ghost var header, rt := MsgHeader(0, RTM_NEWROUTE, ROUTE_FLAGS, seqNo), RtMsg(prefixLen, gateway.Some?);
    buf := BeginRoute(seqNo, prefixLen, gateway.Some?);
    PushRouteAttrs(buf, ifindex, dest, gateway, metric);
    ghost var attrs := RouteAttrs(ifindex, dest, gateway, metric);
    RouteSize(ifindex, dest, gateway, metric);
    ghost var before := buf.bytes;
    assert before == header + rt + EncodeAttrs(attrs);
    buf.Finalize();
    HeadKept(before, buf.bytes, header, rt, EncodeAttrs(attrs));
    assert RtMsg(prefixLen, gateway.Some?) == [2, prefixLen, 0, 0, 254, 3, if gateway.Some? then 0 else 253, 1, 0, 0, 0, 0];
    if seqNo < U32_LIMIT {
      FinishedReads(buf.bytes, RTM_NEWROUTE, ROUTE_FLAGS, seqNo);
    }
  }

  lemma HeadKept(before: seq<byte>, after: seq<byte>, header: seq<byte>, family: seq<byte>, tail: seq<byte>)
    requires before == header + family + tail && |header| == 16 && |family| == 12
    requires |after| == |before| && after[4..] == before[4..]
    ensures after[4..16] == header[4..] && after[16..28] == family
  {
    assert forall i :: 4 <= i < 28 ==> after[i] == after[4..][i - 4];
  }

  method PushRouteAttrs(buf: MessageBuf, ifindex: nat, dest: Octets, gateway: Option<Octets>, metric: Option<nat>)
    requires buf.Valid() && buf.levels == Empty()
    modifies buf
    ensures buf.Valid() && buf.prefix == old(buf.prefix)
    ensures buf.levels == Whole(RouteAttrs(ifindex, dest, gateway, metric))
  {
    ghost var attrs: seq<Attr> := [];
    AddingToWhole(attrs, Leaf(RTA_DST, dest));
    buf.PushAttrBytes(RTA_DST, dest);
    attrs := attrs + [Leaf(RTA_DST, dest)];
    AddingToWhole(attrs, Leaf(RTA_OIF, Le32(ifindex)));
    buf.PushAttrBytes(RTA_OIF, Le32(ifindex));
    attrs := attrs + [Leaf(RTA_OIF, Le32(ifindex))];
    if gateway.Some? {
      AddingToWhole(attrs, Leaf(RTA_GATEWAY, gateway.value));
      buf.PushAttrBytes(RTA_GATEWAY, gateway.value);
      attrs := attrs + [Leaf(RTA_GATEWAY, gateway.value)];
    }
    if metric.Some? {
      AddingToWhole(attrs, Leaf(RTA_PRIORITY, Le32(metric.value)));
      buf.PushAttrBytes(RTA_PRIORITY, Le32(metric.value));
      attrs := attrs + [Leaf(RTA_PRIORITY, Le32(metric.value))];
    }
    assert attrs == RouteAttrs(ifindex, dest, gateway, metric);
  }

  lemma {:induction false} FourByteLeaves(attrs: seq<Attr>)
    requires forall a <- attrs :: a.Leaf? && |a.payload| == 4
    ensures |EncodeAttrs(attrs)| == 8 * |attrs|
  {
    if attrs != [] {
      var last := attrs[|attrs| - 1];
      assert last in attrs && Content(last) == last.payload;
      FourByteLeaves(attrs[..|attrs| - 1]);
    }
  }

  lemma RouteSize(ifindex: nat, dest: Octets, gateway: Option<Octets>, metric: Option<nat>)
    ensures |EncodeAttrs(RouteAttrs(ifindex, dest, gateway, metric))| <= 32
    ensures AllPlain(RouteAttrs(ifindex, dest, gateway, metric))
  {
    FourByteLeaves(RouteAttrs(ifindex, dest, gateway, metric));
  }
}
