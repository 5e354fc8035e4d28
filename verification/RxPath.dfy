/** The receive worker of the kernel module (kmod/sstp_demux.c): a fixed reassembly
    buffer that is filled from the socket, parsed and compacted in place. */
module RxPath {
  import opened Bytes
  import opened Reassembly
  import opened SstpFraming

  const RX_BUF_CAP: nat := 8192
  const RX_LOOPS: nat := 64

  const EAGAIN: int := -11
  const EPIPE: int := -32
  const ENOBUFS: int := -105

  /** What the kTLS socket has to say next. */
  datatype RecvEvent =
    | Data(bytes: seq<byte>)
    | Closed
    | NonAppData(recordType: byte)
    | Failed(errno: int)

  datatype Event =
    | PeerClosed
    | TlsFatalAlert(arg: int)
    | TlsRekeyNeeded(recordType: byte)
    | ProtocolError(version: nat)

  /** A receive that delivers has at least one byte, and an errno is positive. */
  predicate WellFormed(script: seq<RecvEvent>) {
    forall i :: 0 <= i < |script| ==>
      && (script[i].Data? ==> script[i].bytes != [])
      && (script[i].Failed? ==> script[i].errno > 0)
  }

  /** All application bytes a socket still has to give. */
  function Pending(script: seq<RecvEvent>): seq<byte> {
    if script == [] then []
    else (if script[0].Data? then script[0].bytes else []) + Pending(script[1..])
  }

  /** One receive: the room offered and the answer, none if it would block. */
  datatype Receive = Receive(room: nat, answer: Option<RecvEvent>)

  /** What `sstp_demux_recv_once` makes of an answer. */
  function Code(r: Receive): int {
    match r.answer
    case None => EAGAIN
    case Some(Data(bytes)) => |bytes|
    case Some(Closed) => 0
    case Some(NonAppData(_)) => EPIPE
    case Some(Failed(e)) => -e
  }

  /** A record that is not application data: the only EPIPE that closes the session. */
  predicate Rekeys(r: Receive) {
    r.answer.Some? && r.answer.value.NonAppData?
  }

  function Rekeying(r: Receive): seq<Event> {
    if Rekeys(r) then [TlsRekeyNeeded(r.answer.value.recordType)] else []
  }

  /** Data is never empty and an errno is positive. */
  predicate Sensible(r: Receive) {
    r.answer.Some? ==> (r.answer.value.Data? ==> r.answer.value.bytes != []) && (r.answer.value.Failed? ==> r.answer.value.errno > 0)
  }

  /** How an answer takes from the script: none at its end, a whole entry, or data from
      the front of one. */
  predicate Answered(before: seq<RecvEvent>, answer: Option<RecvEvent>, after: seq<RecvEvent>) {
    if before == [] then answer.None? && after == []
    else answer.Some? && (if before[0].Data? then answer.value.Data? else answer.value == before[0] && after == before[1..])
  }

  /** Answers on which the worker goes away without closing the session or queueing
      itself: nothing to read, or an EPIPE that the socket itself reports. */
  predicate GoesQuietly(r: Receive) {
    r.answer.None? || r.answer == Some(Failed(-EAGAIN)) || r.answer == Some(Failed(-EPIPE))
  }

  /** A framing error in the stream, with the version byte found there. */
  function Garbled(stream: seq<byte>): seq<Event> {
    var p := ParseStream(KernelParse, stream);
    if p.error.Some? then [ProtocolError(p.error.value)] else []
  }

  /** The same by the worker's result: zero is the close, an errno is negated. */
  function Raises(rc: int, stream: seq<byte>): seq<Event> {
    if rc == 0 then [PeerClosed]
    else if rc == -11 || rc == -32 then []
    else if rc < 0 && rc != -105 then [TlsFatalAlert(-rc)]
    else Garbled(stream)
  }

  /** What the session task is told of an answer, given all bytes received by then: the close,
      the type of a record that is not application data, the errno of a failure other than
      EAGAIN, EPIPE and ENOBUFS, or a framing error. */
  function Report(r: Receive, stream: seq<byte>): seq<Event> {
    match r.answer
    case None => []
    case Some(Closed) => [PeerClosed]
    case Some(NonAppData(rt)) => [TlsRekeyNeeded(rt)]
    case Some(Failed(e)) => if e == 11 || e == 32 || e == 105 then [] else [TlsFatalAlert(e)]
    case Some(Data(_)) => Garbled(stream)
  }

  /** The socket: a script of what arrives, one receive at a time; when it is
      exhausted a receive would block. */
  class Socket {
    var script: seq<RecvEvent>
    /** Every receive so far. */
    ghost var log: seq<Receive>

    constructor (script: seq<RecvEvent>)
      ensures this.script == script && log == []
    {
      this.script := script;
      log := [];
    }

    /** `kernel_recvmsg` with room for `room` bytes. */
    method RecvMsg(room: nat) returns (r: Option<RecvEvent>)
      requires WellFormed(script)
      modifies this
      ensures WellFormed(script) && log == old(log) + [Receive(room, r)]
      ensures r.None? <==> old(script) == []
      ensures r.None? ==> script == old(script)
      ensures r.Some? && !r.value.Data? ==> r.value == old(script)[0] && script == old(script)[1..]
      ensures r.Some? && r.value.Data? ==>
        && old(script)[0].Data?
        && |r.value.bytes| <= room
        && (r.value.bytes == [] <==> room == 0)
        && Pending(old(script)) == r.value.bytes + Pending(script)
    {
      if script == [] {
        log := log + [Receive(room, None)];
        return None;
      }
      var e := script[0];
      if !e.Data? || |e.bytes| <= room {
        script := script[1..];
        log := log + [Receive(room, Some(e))];
        return Some(e);
      }
      log := log + [Receive(room, Some(Data(e.bytes[..room])))];
      var later := script[1..];
      script := [Data(e.bytes[room..])] + later;
      assert script[1..] == later;
      assert e.bytes == e.bytes[..room] + e.bytes[room..];
      Assoc(e.bytes[..room], e.bytes[room..], Pending(later));
      return Some(Data(e.bytes[..room]));
    }
  }

  lemma SliceSlice<T>(s: seq<T>, a: nat, b: nat, c: nat)
    requires b <= c && a + c <= |s|
    ensures s[a..][b..c] == s[a + b..a + c]
  {
  }

  class RxSession {
    const rxBuf: array<byte>
    var rxLen: nat
    var closing: bool
    /** Frames handed on, in order: to `ppp_input` or to the control ring. */
    var delivered: seq<Frame>
    var emitted: seq<Event>
    /** Every byte ever received. */
    ghost var received: seq<byte>

    ghost predicate Valid()
      reads this
    {
      rxBuf.Length == RX_BUF_CAP && rxLen <= RX_BUF_CAP
    }

    function Buffered(): seq<byte>
      requires Valid()
      reads this, rxBuf
    {
      rxBuf[..rxLen]
    }

    /** Between two turns of the worker the session holds exactly what a one-shot
        parse of everything received would have produced. */
    ghost predicate Synced()
      reads this, rxBuf
    {
      && Valid()
      && var p := ParseStream(KernelParse, received);
      && delivered == p.packets
      && Buffered() == p.rest
      && (p.error.Some? ==> closing && ProtocolError(p.error.value) in emitted)
    }

    constructor ()
      ensures Synced() && fresh(rxBuf)
      ensures !closing && rxLen == 0 && delivered == [] && emitted == [] && received == []
    {
      rxBuf := new byte[RX_BUF_CAP];
      rxLen, closing, delivered, emitted, received := 0, false, [], [], [];
    }

    /** Append one receive to the buffer. */
    method Store(bytes: seq<byte>)
      requires Valid() && rxLen + |bytes| <= RX_BUF_CAP
      modifies this`rxLen, rxBuf
      ensures Valid() && Buffered() == old(Buffered()) + bytes
    {
      var n := rxLen;
      for i := 0 to |bytes|
        invariant rxBuf[..n] == old(rxBuf[..n])
        invariant rxBuf[n..n + i] == bytes[..i]
      {
        rxBuf[n + i] := bytes[i];
        assert rxBuf[n..n + i + 1] == rxBuf[n..n + i] + [bytes[i]];
      }
      rxLen := n + |bytes|;
      assert rxBuf[..rxLen] == rxBuf[..n] + rxBuf[n..rxLen];
    }

    /** `memmove` of the unparsed tail to the head of the buffer. */
    method Compact(consumed: nat)
      requires Valid() && consumed <= rxLen
      modifies this`rxLen, rxBuf
      ensures Valid() && Buffered() == old(Buffered())[consumed..]
    {
      var keep := rxLen - consumed;
      for i := 0 to keep
        invariant forall k :: 0 <= k < i ==> rxBuf[k] == old(rxBuf[consumed + k])
        invariant forall k :: i <= k < rxBuf.Length ==> rxBuf[k] == old(rxBuf[k])
      {
        rxBuf[i] := rxBuf[consumed + i];
      }
      rxLen := keep;
    }

    /** The header at `off`, read out of the buffer. */
    method FrameAt(off: nat) returns (v: Verdict<Frame>)
      requires Valid() && off + HEADER_LEN <= rxLen
      ensures v == KernelParse(Buffered()[off..])
    {
      var version, flags := rxBuf[off], rxBuf[off + 1];
      var length := FromBe16(rxBuf[off + 2], rxBuf[off + 3]) % 4096;
      assert Buffered()[off..][0] == version && Buffered()[off..][1] == flags;
      assert Buffered()[off..][2] == rxBuf[off + 2] && Buffered()[off..][3] == rxBuf[off + 3];
      if version != VERSION_1_0 || length < HEADER_LEN {
        return Fatal(version);
      }
      if length > rxLen - off {
        return NeedMore;
      }
      var frame := Frame(HasControlBit(flags), rxBuf[off + HEADER_LEN..off + length]);
      assert rxBuf[off + HEADER_LEN..off + length] == Buffered()[off + HEADER_LEN..off + length];
      SliceSlice(Buffered(), off, HEADER_LEN, length);
      return Got(frame, length);
    }

    /** One frame of the parse loop: deliver it, or stop; `base` is what had been
        delivered before this buffer. */
    method DemuxTurn(off: nat, ghost base: seq<Frame>, ghost done: seq<Frame>) returns (more: bool, next: nat, ghost now: seq<Frame>)
      requires Valid() && delivered == base + done && WalkedTo(KernelParse, Buffered(), off, done)
      modifies this`delivered, this`closing, this`emitted
      ensures delivered == base + now && off <= next <= rxLen
      ensures more ==> off < next && closing == old(closing) && emitted == old(emitted)
      ensures more ==> WalkedTo(KernelParse, Buffered(), next, now)
      ensures !more ==> var p := ParseStream(KernelParse, Buffered());
        && p.packets == now && p.rest == Buffered()[next..] && closing == (old(closing) || p.error.Some?)
        && emitted == old(emitted) + (if p.error.Some? then [ProtocolError(p.error.value)] else [])
    {
      ghost var all := Buffered();
      if rxLen - off < HEADER_LEN {
        WalkStop(KernelParse, all, off, done);
        return false, off, done;
      }
      var v := FrameAt(off);
      if !v.Got? {
        WalkStop(KernelParse, all, off, done);
        if v.Fatal? {
          emitted := emitted + [ProtocolError(v.code)];
          closing := true;
        }
        return false, off, done;
      }
      WalkTurn(KernelParse, all, off, done, v.packet, v.length);
      Assoc(base, done, [v.packet]);
      delivered := delivered + [v.packet];
      assert Buffered() == all;
      return true, off + v.length, done + [v.packet];
    }

    /** Parse as many complete frames as the buffer holds. */
    method DemuxParse() returns (off: nat)
      requires Valid()
      modifies this`delivered, this`closing, this`emitted
      ensures var p := ParseStream(KernelParse, old(Buffered()));
        && delivered == old(delivered) + p.packets
        && off <= rxLen && old(Buffered())[off..] == p.rest
        && closing == (old(closing) || p.error.Some?)
        && emitted == old(emitted) + (if p.error.Some? then [ProtocolError(p.error.value)] else [])
    {
      off := 0;
      ghost var done: seq<Frame> := [];
      WalkStart(KernelParse, Buffered());
      var more := true;
      while more
        invariant delivered == old(delivered) + done && off <= rxLen
        invariant more ==> WalkedTo(KernelParse, Buffered(), off, done) && closing == old(closing) && emitted == old(emitted)
        invariant !more ==> var p := ParseStream(KernelParse, Buffered());
          && p.packets == done && p.rest == Buffered()[off..] && closing == (old(closing) || p.error.Some?)
          && emitted == old(emitted) + (if p.error.Some? then [ProtocolError(p.error.value)] else [])
        decreases more, rxLen - off
      {
        more, off, done := DemuxTurn(off, old(delivered), done);
      }
    }

    /** Drain the socket once. With a full buffer no receive is made. */
    method RecvOnce(sock: Socket) returns (rc: int, ghost last: Receive, ghost chunk: seq<byte>)
      requires Valid() && WellFormed(sock.script)
      modifies this, rxBuf, sock
      ensures Valid() && WellFormed(sock.script) && delivered == old(delivered)
      ensures Buffered() == old(Buffered()) + chunk && received == old(received) + chunk
      ensures Pending(old(sock.script)) == chunk + Pending(sock.script)
      ensures (rc > 0 ==> rc == |chunk|) && (rc <= 0 ==> chunk == [])
      ensures old(rxLen) == RX_BUF_CAP ==> rc == ENOBUFS && sock.log == old(sock.log) && sock.script == old(sock.script)
      ensures old(rxLen) < RX_BUF_CAP ==>
        sock.log == old(sock.log) + [last] && last.room == RX_BUF_CAP - old(rxLen) && rc == Code(last)
      ensures old(rxLen) < RX_BUF_CAP ==> Answered(old(sock.script), last.answer, sock.script)
      ensures old(rxLen) < RX_BUF_CAP ==> closing == (old(closing) || Rekeys(last))
      ensures emitted == old(emitted) + Rekeying(last)
      ensures old(rxLen) < RX_BUF_CAP ==> Sensible(last)
    {
      chunk, last := [], Receive(0, None);
      assert Buffered() + [] == Buffered() && received + [] == received && [] + Pending(sock.script) == Pending(sock.script);
      if rxLen >= RX_BUF_CAP {
        return ENOBUFS, last, chunk;
      }
      var room := RX_BUF_CAP - rxLen;
      var e := sock.RecvMsg(room);
      last := Receive(room, e);
      if e.None? {
        return EAGAIN, last, chunk;
      }
      match e.value
      case NonAppData(rt) =>
        emitted := emitted + [TlsRekeyNeeded(rt)];
        closing := true;
        return EPIPE, last, chunk;
      case Closed =>
        return 0, last, chunk;
      case Failed(errno) =>
        return -errno, last, chunk;
      case Data(bytes) =>
        Store(bytes);
        received := received + bytes;
        return |bytes|, last, bytes;
    }

    /** Parse what a receive added and move the rest to the head of the buffer. */
    method ParseAndCompact(ghost stream: seq<byte>, ghost chunk: seq<byte>)
      requires Valid() && received == stream + chunk
      requires var p := ParseStream(KernelParse, stream);
        p.error.None? && delivered == p.packets && Buffered() == p.rest + chunk
      modifies this, rxBuf
      ensures Synced() && received == old(received) && emitted == old(emitted) + Garbled(received)
      ensures closing == (old(closing) || Garbled(received) != []) && (!closing ==> rxLen < MAX_PACKET_LEN)
    {
      Resumed(stream, chunk);
      var consumed := DemuxParse();
      if consumed > 0 {
        Compact(consumed);
      } else {
        assert Buffered()[0..] == Buffered();
      }
    }

    /** Between two turns of the worker's loop. */
    ghost predicate Between(sock: Socket)
      reads this, rxBuf, sock
    {
      Synced() && WellFormed(sock.script) && (!closing ==> rxLen < MAX_PACKET_LEN)
    }

    /** The session is closed exactly if there is something to report, and that is emitted. */
    predicate Tells(before: seq<Event>, report: seq<Event>)
      reads this
    {
      emitted == before + report && closing == (report != [])
    }

    /** What the worker does about the result of a receive, by its code. */
    method Act(rc: int, ghost stream: seq<byte>, ghost chunk: seq<byte>) returns (more: bool)
      requires Valid() && received == stream + chunk && (rc <= 0 ==> chunk == [])
      requires var p := ParseStream(KernelParse, stream);
        p.error.None? && delivered == p.packets && Buffered() == p.rest + chunk
      requires !closing ==> |Buffered()| - |chunk| < MAX_PACKET_LEN
      modifies this, rxBuf
      ensures Synced() && received == old(received) && (!closing ==> rxLen < MAX_PACKET_LEN)
      ensures more <==> rc > 0 || rc == ENOBUFS
      ensures emitted == old(emitted) + Raises(rc, received)
      ensures closing == (old(closing) || Raises(rc, received) != [])
    {
      assert stream + [] == stream && ParseStream(KernelParse, stream).rest + [] == ParseStream(KernelParse, stream).rest;
      if rc == 0 {
        emitted := emitted + [PeerClosed];
        closing := true;
        return false;
      }
      if rc < 0 && rc != ENOBUFS {
        if rc == EAGAIN || rc == EPIPE {
          return false;
        }
        emitted := emitted + [TlsFatalAlert(-rc)];
        closing := true;
        return false;
      }
      if rxLen > 0 {
        ParseAndCompact(stream, chunk);
      }
      return true;
    }

    /** One turn of the loop: a receive, and what the worker does about it. */
    method RxTurn(sock: Socket) returns (rc: int, more: bool, ghost last: Receive)
      requires Between(sock) && !closing
      modifies this, rxBuf, sock
      ensures Between(sock) && sock.log == old(sock.log) + [last] && rc == Code(last)
      ensures last.room > RX_BUF_CAP - MAX_PACKET_LEN
      ensures received + Pending(sock.script) == old(received) + Pending(old(sock.script))
      ensures Tells(old(emitted), Report(last, received))
      ensures !closing && !more <==> GoesQuietly(last)
      ensures Answered(old(sock.script), last.answer, sock.script)
    {
      ghost var stream := received;
      assert Garbled(stream) == [];
      ghost var chunk;
      rc, last, chunk := RecvOnce(sock);
      Assoc(stream, chunk, Pending(sock.script));
      more := Act(rc, stream, chunk);
      Reported(last, stream, chunk, old(emitted));
    }

    /** The receive worker. However the socket cuts the stream, the session stays in step
        with the one-shot parse, and no byte is lost. The buffer never fills: every receive
        offers more than 4097 bytes, so each result comes from the socket. The worker goes
        away with the session open and itself not queued exactly when the last answer was
        one of `GoesQuietly`. It closes the session exactly when there is something to report
        of the last answer, and reports exactly that. */
    method RxWorker(sock: Socket) returns (rcs: seq<int>, requeued: bool)
      requires Between(sock)
      modifies this, rxBuf, sock
      ensures Between(sock)
      ensures received + Pending(sock.script) == old(received) + Pending(old(sock.script))
      ensures Logged(old(sock.log), sock.log, rcs)
      ensures |rcs| <= RX_LOOPS && (requeued ==> |rcs| == RX_LOOPS)
      ensures old(closing) ==> rcs == [] && emitted == old(emitted)
      ensures !old(closing) ==> |rcs| > 0 && (!closing && !requeued <==> GoesQuietly(sock.log[|sock.log| - 1]))
      ensures !old(closing) ==> Tells(old(emitted), Report(sock.log[|sock.log| - 1], received))
      ensures !old(closing) && sock.log[|sock.log| - 1].answer.None? ==> sock.script == []
      ensures !old(closing) && Strands(old(sock.script)) ==>
        !closing && !requeued && Stranded(old(sock.script), rcs, sock.log[|sock.log| - 1], sock.script)
    {
      rcs, requeued := [], false;
      var more := true;
      ghost var last := Receive(0, None);
      while !closing && more && !requeued
        invariant Between(sock)
        invariant received + Pending(sock.script) == old(received) + Pending(old(sock.script))
        invariant Logged(old(sock.log), sock.log, rcs)
        invariant |rcs| <= RX_LOOPS && (requeued ==> |rcs| == RX_LOOPS && more) && (more && !requeued ==> |rcs| < RX_LOOPS)
        invariant rcs == [] ==> closing == old(closing) && more && sock.script == old(sock.script) && emitted == old(emitted)
        invariant rcs == [] ==> sock.log == old(sock.log)
        invariant rcs != [] ==> !old(closing) && last == sock.log[|sock.log| - 1]
        invariant rcs != [] ==> (!closing && !more <==> GoesQuietly(last)) && (last.answer.None? ==> sock.script == [])
        invariant !closing ==> emitted == old(emitted)
        invariant rcs != [] ==> Tells(old(emitted), Report(last, received))
        invariant rcs != [] && Strands(old(sock.script)) ==> Stranded(old(sock.script), rcs, last, sock.script)
        decreases RX_LOOPS - |rcs|
      {
        var rc;
        ghost var log := sock.log;
        rc, more, last := RxTurn(sock);
        assert !closing ==> old(emitted) + Report(last, received) == old(emitted);
        LoggedPush(old(sock.log), log, rcs, last);
        rcs := rcs + [rc];
        requeued := more && |rcs| >= RX_LOOPS;
      }
    }
  }

  /** Parsing what is left over with what came in is parsing it all. */
  lemma Resumed(stream: seq<byte>, chunk: seq<byte>)
    requires ParseStream(KernelParse, stream).error.None?
    ensures var p := ParseStream(KernelParse, stream);
      var rest, all := ParseStream(KernelParse, p.rest + chunk), ParseStream(KernelParse, stream + chunk);
      && all.packets == p.packets + rest.packets && all.rest == rest.rest && all.error == rest.error
      && (all.error.None? ==> |all.rest| < MAX_PACKET_LEN)
  {
    KernelParseIsStable();
    ParseAppend(KernelParse, stream, chunk);
    LeftoverBound(stream + chunk);
  }

  /** What a receive and the worker raise together is the report. */
  lemma Reported(r: Receive, stream: seq<byte>, chunk: seq<byte>, before: seq<Event>)
    requires Sensible(r) && Garbled(stream) == [] && (Code(r) <= 0 ==> chunk == [])
    ensures before + Rekeying(r) + Raises(Code(r), stream + chunk) == before + Report(r, stream + chunk)
    ensures (Rekeys(r) || Raises(Code(r), stream + chunk) != []) == (Report(r, stream + chunk) != [])
  {
    assert chunk == [] ==> stream + chunk == stream;
  }

  /** Every result of the worker is what the socket answered, with room to answer. */
  predicate Logged(before: seq<Receive>, log: seq<Receive>, rcs: seq<int>) {
    && |log| == |before| + |rcs| && before <= log
    && forall i :: |before| <= i < |log| ==>
      rcs[i - |before|] == Code(log[i]) && log[i].room > RX_BUF_CAP - MAX_PACKET_LEN
  }

  lemma LoggedPush(before: seq<Receive>, log: seq<Receive>, rcs: seq<int>, last: Receive)
    requires Logged(before, log, rcs) && last.room > RX_BUF_CAP - MAX_PACKET_LEN
    ensures Logged(before, log + [last], rcs + [Code(last)])
  {
  }

  predicate Stranded(before: seq<RecvEvent>, rcs: seq<int>, last: Receive, after: seq<RecvEvent>) {
    before != [] && last.answer == Some(Failed(32)) && rcs == [EPIPE] && after == before[1..]
  }

  /** The socket is about to report an EPIPE of its own. */
  predicate Strands(script: seq<RecvEvent>) {
    script != [] && script[0] == Failed(-EPIPE)
  }

  /** An EPIPE that the socket itself reports, with bytes behind it: the worker stops, the
      session stays open, no event is emitted, nothing is queued and the bytes stay where
      they are. */
  method StrandedByEpipe(bytes: seq<byte>) returns (s: RxSession, sock: Socket, requeued: bool)
    requires bytes != []
    ensures !s.closing && !requeued && s.emitted == [] && s.delivered == [] && s.received == []
    ensures sock.script == [Data(bytes)]
  {
    s := new RxSession();
    sock := new Socket([Failed(-EPIPE), Data(bytes)]);
    var rcs;
    rcs, requeued := s.RxWorker(sock);
  }
}
