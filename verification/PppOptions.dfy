/** Configuration options (section 6 of RFC 1661, src/ppp/lcp.rs): the list, its encoding,
    the iterator that reads it, and a peer that acts on a Reject or a Nak. */
module PppOptions {
  import opened Bytes

  const OPT_HEADER_LEN: nat := 2

  datatype Opt = Opt(typ: byte, value: seq<byte>)

  type Ipv4 = a: seq<byte> | |a| == 4 witness [0, 0, 0, 0]

  /** The one-byte Length can hold it. */
  predicate Encodable(o: Opt) {
    OPT_HEADER_LEN + |o.value| <= 255
  }

  ghost predicate AllEncodable(os: seq<Opt>) {
    forall o <- os :: Encodable(o)
  }

  function EncodeOption(o: Opt): (s: seq<byte>)
    ensures |s| == OPT_HEADER_LEN + |o.value|
  {
    [o.typ, (OPT_HEADER_LEN + |o.value|) % 256] + o.value
  }

  function EncodeOptions(os: seq<Opt>): seq<byte> {
    if os == [] then [] else EncodeOptions(os[..|os| - 1]) + EncodeOption(os[|os| - 1])
  }

  /** One turn of the option iterator. */
  datatype Item = End | Malformed | One(opt: Opt, length: nat)

  function NextOption(cursor: seq<byte>): (item: Item)
    ensures item.One? ==> 0 < item.length <= |cursor|
    ensures item.One? ==> Encodable(item.opt) && cursor[..item.length] == EncodeOption(item.opt)
    ensures item.End? <==> cursor == []
  {
    if |cursor| == 0 then End
    else if |cursor| < OPT_HEADER_LEN then Malformed
    else
      var declared: int := cursor[1];
      if declared < OPT_HEADER_LEN || declared > |cursor| then Malformed
      else One(Opt(cursor[0], cursor[OPT_HEADER_LEN..declared]), declared)
  }

  /** The options before the first malformed one, and whether there is none. */
  datatype OptionList = OptionList(opts: seq<Opt>, whole: bool)

  function ParseOptions(s: seq<byte>): OptionList
    decreases |s|
  {
    match NextOption(s)
    case End => OptionList([], true)
    case Malformed => OptionList([], false)
    case One(o, n) => var r := ParseOptions(s[n..]); OptionList([o] + r.opts, r.whole)
  }

  lemma EncodePush(os: seq<Opt>, o: Opt)
    ensures EncodeOptions(os + [o]) == EncodeOptions(os) + EncodeOption(o)
  {
    assert (os + [o])[..|os|] == os;
  }

  lemma {:induction false} EncodeAppend(a: seq<Opt>, b: seq<Opt>)
    ensures EncodeOptions(a + b) == EncodeOptions(a) + EncodeOptions(b)
  {
    if b == [] {
      assert a + b == a;
    } else {
      var init, last := b[..|b| - 1], b[|b| - 1];
      EncodeAppend(a, init);
      EncodePush(a + init, last);
      assert a + b == (a + init) + [last];
      Assoc(EncodeOptions(a), EncodeOptions(init), EncodeOption(last));
    }
  }

  lemma EncodeCons(o: Opt, rest: seq<Opt>)
    ensures EncodeOptions([o] + rest) == EncodeOption(o) + EncodeOptions(rest)
  {
    EncodePush([], o);
    assert [] + [o] == [o] && EncodeOptions([]) + EncodeOption(o) == EncodeOption(o);
    EncodeAppend([o], rest);
  }

  lemma NextOfEncoded(o: Opt, rest: seq<byte>)
    requires Encodable(o)
    ensures NextOption(EncodeOption(o) + rest) == One(o, |EncodeOption(o)|)
  {
    var s := EncodeOption(o) + rest;
    assert s[OPT_HEADER_LEN..OPT_HEADER_LEN + |o.value|] == o.value;
  }

  /** Encoding and parsing are inverse, one way. */
  lemma {:induction false} ParseEncoded(os: seq<Opt>)
    requires AllEncodable(os)
    ensures ParseOptions(EncodeOptions(os)) == OptionList(os, true)
  {
    if os != [] {
      var o, rest := os[0], os[1..];
      assert os == [o] + rest;
      EncodeCons(o, rest);
      NextOfEncoded(o, EncodeOptions(rest));
      var s := EncodeOptions(os);
      assert s[|EncodeOption(o)|..] == EncodeOptions(rest);
      ParseEncoded(rest);
    }
  }

  /** And the other way: a list without a malformed option is the encoding of its parse,
      and no list is shorter than it. */
  lemma {:induction false} EncodeParsed(s: seq<byte>)
    ensures AllEncodable(ParseOptions(s).opts)
    ensures |EncodeOptions(ParseOptions(s).opts)| <= |s|
    ensures ParseOptions(s).whole ==> EncodeOptions(ParseOptions(s).opts) == s
    decreases |s|
  {
    var item := NextOption(s);
    if item.One? {
      var o, head, rest := item.opt, s[..item.length], s[item.length..];
      var p := ParseOptions(rest);
      assert ParseOptions(s) == OptionList([o] + p.opts, p.whole);
      EncodeParsed(rest);
      EncodeCons(o, p.opts);
      assert head == EncodeOption(o) && s == head + rest;
    }
  }

  /** The list of options a cursor has passed, and what is left. */
  ghost predicate PassedBy(s: seq<byte>, cursor: seq<byte>, passed: seq<Opt>) {
    && AllEncodable(passed)
    && ParseOptions(s) == OptionList(passed + ParseOptions(cursor).opts, ParseOptions(cursor).whole)
  }

  lemma PassStart(s: seq<byte>)
    ensures PassedBy(s, s, [])
  {
    assert [] + ParseOptions(s).opts == ParseOptions(s).opts;
  }

  lemma PassOne(s: seq<byte>, cursor: seq<byte>, passed: seq<Opt>)
    requires PassedBy(s, cursor, passed) && NextOption(cursor).One?
    ensures PassedBy(s, cursor[NextOption(cursor).length..], passed + [NextOption(cursor).opt])
  {
    var item := NextOption(cursor);
    Assoc(passed, [item.opt], ParseOptions(cursor[item.length..]).opts);
  }

  lemma PassEnd(s: seq<byte>, cursor: seq<byte>, passed: seq<Opt>)
    requires PassedBy(s, cursor, passed) && !NextOption(cursor).One?
    ensures ParseOptions(s) == OptionList(passed, NextOption(cursor).End?)
  {
    assert passed + [] == passed;
  }

  // ---------------------------------------------------------------------------
  // A cooperative peer
  // ---------------------------------------------------------------------------

  /** What is left of a list when the peer drops every option of a rejected type. */
  function Dropping(os: seq<Opt>, rejected: seq<Opt>): (r: seq<Opt>)
    ensures forall o :: o in r <==> o in os && forall x <- rejected :: x.typ != o.typ
  {
    if os == [] then []
    else
      var last := os[|os| - 1];
      assert os == os[..|os| - 1] + [last];
      if forall x <- rejected :: x.typ != last.typ then Dropping(os[..|os| - 1], rejected) + [last]
      else Dropping(os[..|os| - 1], rejected)
  }

  /** The list with every Nak'd type set to the value the Nak carries. */
  function Adopting(os: seq<Opt>, naks: seq<Opt>): (r: seq<Opt>)
    ensures |r| == |os|
    ensures forall i :: 0 <= i < |os| ==>
      r[i].typ == os[i].typ && (r[i] in naks || (r[i] == os[i] && forall x <- naks :: x.typ != os[i].typ))
  {
    if os == [] then [] else Adopting(os[..|os| - 1], naks) + [Adopted(os[|os| - 1], naks)]
  }

  function Adopted(o: Opt, naks: seq<Opt>): (r: Opt)
    ensures r.typ == o.typ && (r in naks || (r == o && forall x <- naks :: x.typ != o.typ))
  {
    if naks == [] then o
    else if naks[0].typ == o.typ then naks[0]
    else Adopted(o, naks[1..])
  }
}
