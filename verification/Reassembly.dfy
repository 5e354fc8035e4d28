/** Cutting packets off the head of a byte stream that arrives in arbitrary
    chunks. The parser is a parameter; what is proved here holds for every
    parser whose verdicts more input cannot change. */
module Reassembly {
  import opened Bytes

  /** What a parser says about the bytes at the head of the buffer. */
  datatype Verdict<+P> =
    | NeedMore
    | Fatal(code: nat)
    | Got(packet: P, length: nat)

  /** `packets` were cut off in order, `rest` is what is left, and `error` is the
      fatal verdict on the head of `rest`, if that is why parsing stopped. */
  datatype Parsed<+P> = Parsed(packets: seq<P>, rest: seq<byte>, error: Option<nat>)

  type Parser<P> = seq<byte> -> Verdict<P>

  /** A parser only ever hands out bytes it was given, at least one at a time,
      and says nothing about an empty buffer. */
  ghost predicate Productive<P(!new)>(parse: Parser<P>) {
    && parse([]).NeedMore?
    && forall b :: parse(b).Got? ==> 0 < parse(b).length <= |b|
  }

  /** More input turns neither a packet nor a fatal error into something else. */
  ghost predicate Stable<P(!new)>(parse: Parser<P>) {
    forall b, more {:trigger parse(b + more)} :: !parse(b).NeedMore? ==> parse(b + more) == parse(b)
  }

  /** One-shot parse of a whole stream: the reference every reader is held to. */
  function ParseStream<P>(parse: Parser<P>, buf: seq<byte>): Parsed<P>
    decreases |buf|
  {
    match parse(buf)
    case NeedMore => Parsed([], buf, None)
    case Fatal(code) => Parsed([], buf, Some(code))
    case Got(packet, length) =>
      if 0 < length <= |buf| then
        Prepend(packet, ParseStream(parse, buf[length..]))
      else
        Parsed([], buf, None)
  }

  function Prepend<P>(packet: P, p: Parsed<P>): Parsed<P> {
    p.(packets := [packet] + p.packets)
  }

  /** A reader that has stopped at `p` receives one more chunk. After a fatal
      error nothing more is parsed. */
  function Feed<P>(parse: Parser<P>, p: Parsed<P>, chunk: seq<byte>): Parsed<P> {
    if p.error.Some? then
      p.(rest := p.rest + chunk)
    else
      var more := ParseStream(parse, p.rest + chunk);
      Parsed(p.packets + more.packets, more.rest, more.error)
  }

  function FeedAll<P>(parse: Parser<P>, p: Parsed<P>, chunks: seq<seq<byte>>): Parsed<P>
    decreases |chunks|
  {
    if chunks == [] then p else FeedAll(parse, Feed(parse, p, chunks[0]), chunks[1..])
  }

  function Fresh<P>(): Parsed<P> {
    Parsed([], [], None)
  }

  /** Stability, one buffer at a time. */
  lemma StableAt<P(!new)>(parse: Parser<P>, a: seq<byte>, b: seq<byte>)
    requires Stable(parse)
    requires !parse(a).NeedMore?
    ensures parse(a + b) == parse(a)
  {
  }

  lemma FeedPrepend<P>(parse: Parser<P>, packet: P, p: Parsed<P>, chunk: seq<byte>)
    ensures Feed(parse, Prepend(packet, p), chunk) == Prepend(packet, Feed(parse, p, chunk))
  {
    if p.error.None? {
      var more := ParseStream(parse, p.rest + chunk);
      assert ([packet] + p.packets) + more.packets == [packet] + (p.packets + more.packets);
    }
  }

  /** Parsing `a`, then receiving `b`, is parsing `a + b`. */
  lemma {:induction false} ParseAppend<P(!new)>(parse: Parser<P>, a: seq<byte>, b: seq<byte>)
    requires Productive(parse) && Stable(parse)
    ensures ParseStream(parse, a + b) == Feed(parse, ParseStream(parse, a), b)
    decreases |a|
  {
    var v := parse(a);
    if v.NeedMore? {
      assert ParseStream(parse, a) == Parsed([], a, None);
      assert [] + ParseStream(parse, a + b).packets == ParseStream(parse, a + b).packets;
    } else {
      StableAt(parse, a, b);
      if v.Got? {
        assert (a + b)[v.length..] == a[v.length..] + b;
        ParseAppend(parse, a[v.length..], b);
        FeedPrepend(parse, v.packet, ParseStream(parse, a[v.length..]), b);
      }
    }
  }

  lemma {:induction false} FeedAllFrom<P(!new)>(parse: Parser<P>, seen: seq<byte>, chunks: seq<seq<byte>>)
    requires Productive(parse) && Stable(parse)
    ensures FeedAll(parse, ParseStream(parse, seen), chunks) == ParseStream(parse, seen + Flatten(chunks))
    decreases |chunks|
  {
    if chunks == [] {
      assert seen + Flatten(chunks) == seen;
    } else {
      var c, later := chunks[0], chunks[1..];
      ParseAppend(parse, seen, c);
      FeedAllFrom(parse, seen + c, later);
      Assoc(seen, c, Flatten(later));
    }
  }

  /** Chunking invariance: however a stream is cut into reads, the packets, the
      bytes left over, the error and its position are those of the one-shot parse. */
  lemma ChunkingInvariance<P(!new)>(parse: Parser<P>, chunks: seq<seq<byte>>)
    requires Productive(parse) && Stable(parse)
    ensures FeedAll(parse, Fresh(), chunks) == ParseStream(parse, Flatten(chunks))
  {
    assert ParseStream(parse, []) == Fresh<P>();
    FeedAllFrom(parse, [], chunks);
    assert [] + Flatten(chunks) == Flatten(chunks);
  }

  /** Where parsing stops: `rest` is a suffix of the stream, and the parser has no
      packet to offer on it. */
  lemma {:induction false} StopsAt<P(!new)>(parse: Parser<P>, buf: seq<byte>)
    requires Productive(parse)
    ensures var r := ParseStream(parse, buf);
      && |r.rest| <= |buf|
      && r.rest == buf[|buf| - |r.rest|..]
      && parse(r.rest) == (if r.error.Some? then Fatal(r.error.value) else NeedMore)
    decreases |buf|
  {
    var v := parse(buf);
    if v.Got? {
      StopsAt(parse, buf[v.length..]);
    }
  }

  // ---------------------------------------------------------------------------
  // A loop that walks a cursor over the buffer
  // ---------------------------------------------------------------------------

  /** What the parse comes to with `done` behind a cursor at `pos`. */
  ghost function Ahead<P>(parse: Parser<P>, all: seq<byte>, pos: nat, done: seq<P>): Parsed<P>
    requires pos <= |all|
  {
    var tail := ParseStream(parse, all[pos..]);
    tail.(packets := done + tail.packets)
  }

  ghost predicate WalkedTo<P>(parse: Parser<P>, all: seq<byte>, pos: nat, done: seq<P>) {
    pos <= |all| && Ahead(parse, all, pos, done) == ParseStream(parse, all)
  }

  lemma WalkStart<P>(parse: Parser<P>, all: seq<byte>)
    ensures WalkedTo(parse, all, 0, [])
  {
    assert all[0..] == all;
    assert [] + ParseStream(parse, all).packets == ParseStream(parse, all).packets;
  }

  lemma WalkTurn<P>(parse: Parser<P>, all: seq<byte>, pos: nat, done: seq<P>, packet: P, length: nat)
    requires WalkedTo(parse, all, pos, done)
    requires parse(all[pos..]) == Got(packet, length) && 0 < length <= |all| - pos
    ensures WalkedTo(parse, all, pos + length, done + [packet])
  {
    assert all[pos..][length..] == all[pos + length..];
    Assoc(done, [packet], ParseStream(parse, all[pos + length..]).packets);
  }

  lemma WalkStop<P>(parse: Parser<P>, all: seq<byte>, pos: nat, done: seq<P>)
    requires WalkedTo(parse, all, pos, done)
    requires !parse(all[pos..]).Got?
    ensures var v := parse(all[pos..]);
      ParseStream(parse, all) == Parsed(done, all[pos..], if v.Fatal? then Some(v.code) else None)
  {
    assert done + [] == done;
  }
}
