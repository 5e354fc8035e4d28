/** Netlink attributes (src/netlink.rs, src/kppp/netlink.rs): a tree, its encoding on a
    little-endian host, and the walk that reads it back. */
module Netlink {
  import opened Bytes

  const ATTR_HEADER_LEN: nat := 4
  const NLA_F_NESTED: nat := 0x8000

  datatype Attr = Leaf(typ: nat, payload: seq<byte>) | Nest(typ: nat, kids: seq<Attr>)

  function Align(n: nat): (r: nat)
    ensures n <= r < n + 4
  {
    (n + 3) / 4 * 4
  }

  lemma AlignShift(k: nat, n: nat)
    requires k % 4 == 0
    ensures Align(k + n) == k + Align(n)
  {
  }

  lemma AlignAligned(n: nat)
    ensures Align(n) % 4 == 0 && (n % 4 == 0 ==> Align(n) == n)
  {
  }

  function Zeros(n: nat): (z: seq<byte>)
    ensures |z| == n
  {
    seq(n, _ => 0)
  }

  /** Bytes up to the next multiple of four. */
  function Padding(n: nat): (z: seq<byte>)
    ensures |z| == Align(n) - n
  {
    Zeros(Align(n) - n)
  }

  /** The type field of a nest always has the flag. */
  function WithNestFlag(typ: nat): nat {
    if typ >= NLA_F_NESTED then typ else typ + NLA_F_NESTED
  }

  function TypeField(a: Attr): nat {
    if a.Leaf? then a.typ else WithNestFlag(a.typ)
  }

  /** Header, content, padding. */
  function Block(typ: nat, c: seq<byte>): (s: seq<byte>)
    ensures |s| == ATTR_HEADER_LEN + Align(|c|)
  {
    Le16(ATTR_HEADER_LEN + |c|) + Le16(typ) + c + Padding(|c|)
  }

  function Content(a: Attr): seq<byte>
    decreases a, 0
  {
    match a
    case Leaf(_, payload) => payload
    case Nest(_, kids) => EncodeAttrs(kids)
  }

  function EncodeAttr(a: Attr): seq<byte>
    decreases a, 1
  {
    Block(TypeField(a), Content(a))
  }

  function EncodeAttrs(attrs: seq<Attr>): seq<byte>
    decreases attrs
  {
    if attrs == [] then [] else EncodeAttrs(attrs[..|attrs| - 1]) + EncodeAttr(attrs[|attrs| - 1])
  }

  /** An attribute byte by byte: length and type, low byte first, the flag 0x80 in the high byte
      of a nest's type, the content, and zeros up to a multiple of four. */
  lemma AttrByBytes(a: Attr)
    requires Fits(a) && a.typ < 0x8000
    ensures var s, n := EncodeAttr(a), 4 + |Content(a)|;
      && |s| % 4 == 0 && n <= |s| < n + 4
      && s[0] == n % 256 && s[1] == n / 256 && s[2] == a.typ % 256 && s[3] == a.typ / 256 + (if a.Nest? then 0x80 else 0)
      && s[4..n] == Content(a) && forall i :: n <= i < |s| ==> s[i] == 0
  {
    AlignAligned(|Content(a)|);
  }

  /** Types and lengths fit their 16-bit fields. */
  predicate Fits(a: Attr)
    decreases a
  {
    && a.typ < U16_LIMIT
    && ATTR_HEADER_LEN + |Content(a)| < U16_LIMIT
    && (a.Nest? ==> forall k <- a.kids :: Fits(k))
  }

  predicate AllFit(attrs: seq<Attr>) {
    forall a <- attrs :: Fits(a)
  }

  /** No type has the nest flag itself. */
  predicate Plain(a: Attr)
    decreases a
  {
    a.typ < NLA_F_NESTED && (a.Nest? ==> forall k <- a.kids :: Plain(k))
  }

  predicate AllPlain(attrs: seq<Attr>) {
    forall a <- attrs :: Plain(a)
  }

  // ---------------------------------------------------------------------------
  // The walk
  // ---------------------------------------------------------------------------

  /** One attribute header. */
  datatype Header = NoHeader | Broken | At(length: nat, typ: nat)

  function ReadHeader(s: seq<byte>): (h: Header)
    ensures h.At? ==> ATTR_HEADER_LEN <= h.length <= |s|
  {
    if |s| < ATTR_HEADER_LEN then NoHeader
    else
      var length, typ := FromLe16(s[0], s[1]), FromLe16(s[2], s[3]);
      if length < ATTR_HEADER_LEN || length > |s| then Broken else At(length, typ)
  }

  /** Skip one attribute and its padding, which the last one may lack. */
  function SkipAttr(s: seq<byte>, length: nat): (r: seq<byte>)
    requires 0 < length <= |s|
    ensures |r| < |s|
  {
    if Align(length) >= |s| then [] else s[Align(length)..]
  }

  /** Read a stream of attributes back into a tree. */
  function ParseAttrs(s: seq<byte>): Option<seq<Attr>>
    decreases |s|
  {
    match ReadHeader(s)
    case NoHeader => if s == [] then Some([]) else None
    case Broken => None
    case At(length, typ) =>
      var rest := ParseAttrs(SkipAttr(s, length));
      var content := s[ATTR_HEADER_LEN..length];
      if rest.None? then None
      else if typ < NLA_F_NESTED then Some([Leaf(typ, content)] + rest.value)
      else
        var kids := ParseAttrs(content);
        if kids.None? then None else Some([Nest(typ - NLA_F_NESTED, kids.value)] + rest.value)
  }

  // ---------------------------------------------------------------------------
  // Round trip
  // ---------------------------------------------------------------------------

  lemma SumAligned(a: nat, b: nat, sum: nat)
    requires a % 4 == 0 && b % 4 == 0 && sum == a + b
    ensures sum % 4 == 0
  {
  }

  lemma BlockAligned(typ: nat, c: seq<byte>)
    ensures |Block(typ, c)| % 4 == 0
  {
    AlignAligned(|c|);
    SumAligned(ATTR_HEADER_LEN, Align(|c|), |Block(typ, c)|);
  }

  lemma {:induction false} EncodeAttrsAligned(attrs: seq<Attr>)
    ensures |EncodeAttrs(attrs)| % 4 == 0
  {
    if attrs != [] {
      var init, last := attrs[..|attrs| - 1], attrs[|attrs| - 1];
      EncodeAttrsAligned(init);
      BlockAligned(TypeField(last), Content(last));
      SumAligned(|EncodeAttrs(init)|, |EncodeAttr(last)|, |EncodeAttrs(attrs)|);
    }
  }

  lemma EncodeAttrsPush(attrs: seq<Attr>, a: Attr)
    ensures EncodeAttrs(attrs + [a]) == EncodeAttrs(attrs) + EncodeAttr(a)
  {
    assert (attrs + [a])[..|attrs|] == attrs;
  }

  lemma ConsOne(a: Attr)
    ensures EncodeAttrs([a] + []) == EncodeAttr(a) + EncodeAttrs([])
  {
    EncodeAttrsPush([], a);
    assert [a] + [] == [] + [a];
    var e := EncodeAttr(a);
    assert [] + e == e + [];
  }

  lemma ConsPush(a: Attr, init: seq<Attr>, last: Attr)
    requires EncodeAttrs([a] + init) == EncodeAttr(a) + EncodeAttrs(init)
    ensures EncodeAttrs([a] + (init + [last])) == EncodeAttr(a) + EncodeAttrs(init + [last])
  {
    Assoc([a], init, [last]);
    EncodeAttrsPush([a] + init, last);
    EncodeAttrsPush(init, last);
    Assoc(EncodeAttr(a), EncodeAttrs(init), EncodeAttr(last));
  }

  lemma {:induction false} EncodeAttrsCons(a: Attr, rest: seq<Attr>)
    ensures EncodeAttrs([a] + rest) == EncodeAttr(a) + EncodeAttrs(rest)
    decreases |rest|
  {
    if rest == [] {
      ConsOne(a);
    } else {
      var init, last := rest[..|rest| - 1], rest[|rest| - 1];
      EncodeAttrsCons(a, init);
      ConsPush(a, init, last);
      assert init + [last] == rest;
    }
  }

  lemma HeaderOfBlock(typ: nat, c: seq<byte>, tail: seq<byte>)
    requires typ < U16_LIMIT && ATTR_HEADER_LEN + |c| < U16_LIMIT
    ensures var s, n := Block(typ, c) + tail, ATTR_HEADER_LEN + |c|;
      && ReadHeader(s) == At(n, typ)
      && s[ATTR_HEADER_LEN..n] == c
      && SkipAttr(s, n) == tail
  {
    var n := ATTR_HEADER_LEN + |c|;
    var s := Block(typ, c) + tail;
    Le16RoundTrip(n);
    Le16RoundTrip(typ);
    AlignShift(ATTR_HEADER_LEN, |c|);
    assert s[0] == Le16(n)[0] && s[1] == Le16(n)[1] && s[2] == Le16(typ)[0] && s[3] == Le16(typ)[1];
    assert s[ATTR_HEADER_LEN..n] == c;
    assert s[Align(n)..] == tail;
  }

  lemma HeaderOfEncoded(a: Attr, tail: seq<byte>)
    requires Fits(a)
    ensures var s, n := EncodeAttr(a) + tail, ATTR_HEADER_LEN + |Content(a)|;
      && ReadHeader(s) == At(n, TypeField(a))
      && s[ATTR_HEADER_LEN..n] == Content(a)
      && SkipAttr(s, n) == tail
  {
    HeaderOfBlock(TypeField(a), Content(a), tail);
  }

  lemma ParseStep(s: seq<byte>, length: nat, typ: nat)
    requires ReadHeader(s) == At(length, typ) && ParseAttrs(SkipAttr(s, length)).Some?
    requires typ >= NLA_F_NESTED ==> ParseAttrs(s[ATTR_HEADER_LEN..length]).Some?
    ensures ParseAttrs(s) == Some([
      if typ < NLA_F_NESTED then Leaf(typ, s[ATTR_HEADER_LEN..length])
      else Nest(typ - NLA_F_NESTED, ParseAttrs(s[ATTR_HEADER_LEN..length]).value)]
      + ParseAttrs(SkipAttr(s, length)).value)
  {
  }

  /** The attribute reads back in front of anything that does. */
  ghost predicate HeadReads(a: Attr, tail: seq<byte>) {
    ParseAttrs(tail).Some? ==> ParseAttrs(EncodeAttr(a) + tail) == Some([a] + ParseAttrs(tail).value)
  }

  lemma ParseFrom(s: seq<byte>, a: Attr, content: seq<byte>)
    requires ReadHeader(s) == At(ATTR_HEADER_LEN + |content|, TypeField(a)) && a.typ < NLA_F_NESTED
    requires s[ATTR_HEADER_LEN..ATTR_HEADER_LEN + |content|] == content
    requires if a.Leaf? then content == a.payload else ParseAttrs(content) == Some(a.kids)
    requires ParseAttrs(SkipAttr(s, ATTR_HEADER_LEN + |content|)).Some?
    ensures ParseAttrs(s) == Some([a] + ParseAttrs(SkipAttr(s, ATTR_HEADER_LEN + |content|)).value)
  {
    ParseStep(s, ATTR_HEADER_LEN + |content|, TypeField(a));
  }

  lemma ParseHead(a: Attr, tail: seq<byte>)
    requires Fits(a) && a.typ < NLA_F_NESTED
    requires a.Nest? ==> ParseAttrs(Content(a)) == Some(a.kids)
    ensures HeadReads(a, tail)
  {
    if ParseAttrs(tail).Some? {
      HeaderOfEncoded(a, tail);
      ParseFrom(EncodeAttr(a) + tail, a, Content(a));
    }
  }

  lemma {:induction false} AttrReads(a: Attr, tail: seq<byte>)
    requires Fits(a) && Plain(a)
    ensures HeadReads(a, tail)
    decreases a, 1
  {
    if a.Nest? {
      ParseEncodedAttrs(a.kids);
    }
    ParseHead(a, tail);
  }

  lemma {:induction false} ParseEncodedAttrs(attrs: seq<Attr>)
    requires AllFit(attrs) && AllPlain(attrs)
    ensures ParseAttrs(EncodeAttrs(attrs)) == Some(attrs)
    decreases attrs, 0
  {
    if attrs != [] {
      var a, rest := attrs[0], attrs[1..];
      var tail := EncodeAttrs(rest);
      ParseEncodedAttrs(rest);
      AttrReads(a, tail);
      assert attrs == [a] + rest;
      EncodeAttrsCons(a, rest);
    }
  }

  lemma {:induction false} ParsedIsPlain(s: seq<byte>)
    ensures ParseAttrs(s).Some? ==> AllPlain(ParseAttrs(s).value)
    decreases |s|
  {
    var h := ReadHeader(s);
    if h.At? {
      ParsedIsPlain(SkipAttr(s, h.length));
      if h.typ >= NLA_F_NESTED {
        ParsedIsPlain(s[ATTR_HEADER_LEN..h.length]);
      }
    }
  }

  /** The walk gives an encoded tree back exactly when no attribute type in it carries
      the nest flag already. */
  lemma RoundTripIffPlain(attrs: seq<Attr>)
    requires AllFit(attrs)
    ensures ParseAttrs(EncodeAttrs(attrs)) == Some(attrs) <==> AllPlain(attrs)
  {
    ParsedIsPlain(EncodeAttrs(attrs));
    if AllPlain(attrs) {
      ParseEncodedAttrs(attrs);
    }
  }
}
