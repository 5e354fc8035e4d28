/** The session's TLS read loop (src/session.rs): append the read, walk a cursor over
    complete packets, compact once. Stated for any parser stable under extension. */
module UserReader {
  import opened Bytes
  import opened Reassembly
  import SstpFraming

  class Reader<P(!new)> {
    const parse: Parser<P>
    var rxBuf: seq<byte>
    /** Packets handled so far. */
    var handled: seq<P>
    /** Set when a packet could not be parsed and the session ended. */
    var failed: Option<nat>
    ghost var received: seq<byte>

    /** In step with the one-shot parse; after a failure the buffer is abandoned. */
    ghost predicate Synced()
      reads this
    {
      && Productive(parse) && Stable(parse)
      && var p := ParseStream(parse, received);
      && handled == p.packets
      && failed == p.error
      && (failed.None? ==> rxBuf == p.rest)
    }

    constructor (parse: Parser<P>)
      requires Productive(parse) && Stable(parse)
      ensures Synced() && failed.None? && received == [] && this.parse == parse
    {
      this.parse := parse;
      rxBuf, handled, failed, received := [], [], None, [];
    }

    /** Handle the packet at the cursor, if there is a whole one; `base` is what had been
        handled before this buffer. */
    method Turn(readPos: nat, ghost base: seq<P>, ghost done: seq<P>) returns (more: bool, next: nat, ghost now: seq<P>)
      requires Productive(parse) && failed.None? && handled == base + done
      requires WalkedTo(parse, rxBuf, readPos, done)
      modifies this`handled, this`failed
      ensures handled == base + now && readPos <= next <= |rxBuf|
      ensures more ==> readPos < next && failed.None? && WalkedTo(parse, rxBuf, next, now)
      ensures !more ==> ParseStream(parse, rxBuf) == Parsed(now, rxBuf[next..], failed)
    {
      var v := parse(rxBuf[readPos..]);
      if !v.Got? {
        WalkStop(parse, rxBuf, readPos, done);
        if v.Fatal? {
          failed := Some(v.code);
        }
        return false, readPos, done;
      }
      WalkTurn(parse, rxBuf, readPos, done, v.packet, v.length);
      Assoc(base, done, [v.packet]);
      handled := handled + [v.packet];
      return true, readPos + v.length, done + [v.packet];
    }

    /** Walk the cursor over the complete packets in the buffer. */
    method ParseBuffered() returns (readPos: nat)
      requires Productive(parse) && failed.None?
      modifies this`handled, this`failed
      ensures var p := ParseStream(parse, rxBuf);
        && handled == old(handled) + p.packets && failed == p.error
        && readPos <= |rxBuf| && rxBuf[readPos..] == p.rest
    {
      readPos := 0;
      ghost var done: seq<P> := [];
      WalkStart(parse, rxBuf);
      var more := true;
      while more
        invariant handled == old(handled) + done && readPos <= |rxBuf|
        invariant more ==> failed.None? && WalkedTo(parse, rxBuf, readPos, done)
        invariant !more ==> ParseStream(parse, rxBuf) == Parsed(done, rxBuf[readPos..], failed)
        decreases more, |rxBuf| - readPos
      {
        more, readPos, done := Turn(readPos, old(handled), done);
      }
    }

    /** One read: append, walk, and compact once unless the session ends. */
    method OnRead(chunk: seq<byte>)
      requires Synced() && failed.None?
      modifies this
      ensures Synced() && received == old(received) + chunk
    {
      ParseAppend(parse, received, chunk);
      received := received + chunk;
      rxBuf := rxBuf + chunk;
      var readPos := ParseBuffered();
      if failed.Some? {
        return;
      }
      if readPos == |rxBuf| {
        rxBuf := [];
      } else if readPos > 0 {
        rxBuf := rxBuf[readPos..];
      }
    }
  }

  /** The reader the session runs. */
  method NewSessionReader() returns (r: Reader<SstpFraming.Frame>)
    ensures fresh(r) && r.Synced() && r.failed.None? && r.received == []
    ensures r.parse == SstpFraming.UserParse
  {
    SstpFraming.UserParseIsStable();
    r := new Reader(SstpFraming.UserParse);
  }
}
