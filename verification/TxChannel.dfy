/** The transmit entry points and the worker as the kernel module writes them
    (kmod/sstp_chan.c; SEND_CONTROL of kmod/sstp_event.c): a queue, a batch array, a
    header array and a socket. The worker is proved against a function of the queue and
    of what the socket answers, and that function is proved to be a run of the
    interleaving machine. */
module TxChannel {
  import opened Bytes
  import opened SstpFraming
  import opened TxMachine

  const EIO: int := -5
  const EAGAIN: int := -11
  const EPIPE: int := -32
  const EMSGSIZE: int := -90

  /** What `kernel_sendmsg` returns: a byte count or a negative errno. */
  datatype SendResult = Took(n: nat) | WouldBlock | Errno(e: nat)

  function OutcomeOf(r: SendResult, total: nat): Outcome {
    if r == Took(total) then Accepted else if r.WouldBlock? then Again else Failed
  }

  // ---------------------------------------------------------------------------
  // Bytes on the wire
  // ---------------------------------------------------------------------------

  function DataHeader(skb: Skb): (h: seq<byte>)
    ensures |h| == TX_HDR_STRIDE
  {
    Header(false, WireLen(skb)) + [0xff, 0x03]
  }

  lemma DataHeaderFrames(skb: Skb)
    ensures DataHeader(skb) + skb.data == Encode(SentFrame(Data(skb)))
  {
    Assoc(Header(false, WireLen(skb)), [0xff, 0x03], skb.data);
  }

  /** A data packet byte by byte: the header without the C bit, Address, Control, payload. */
  lemma DataByBytes(skb: Skb)
    requires 6 + |skb.data| < 4096
    ensures var n := 6 + |skb.data|;
      DataHeader(skb) == [0x10, 0, n / 256, n % 256, 0xff, 0x03] && WireLen(skb) == n
  {
  }

  lemma {:induction false} EncodeAllAppend(a: seq<Frame>, b: seq<Frame>)
    ensures EncodeAll(a + b) == EncodeAll(a) + EncodeAll(b)
  {
    if a == [] {
      assert a + b == b;
    } else {
      EncodeAllAppend(a[1..], b);
      assert (a + b)[1..] == a[1..] + b && (a + b)[0] == a[0];
      Assoc(Encode(a[0]), EncodeAll(a[1..]), EncodeAll(b));
    }
  }

  /** The bytes of a run of data packets. */
  function DataBytes(batch: seq<Skb>): seq<byte> {
    EncodeAll(Frames(AsData(batch)))
  }

  lemma DataBytesAppend(a: seq<Skb>, b: seq<Skb>)
    ensures DataBytes(a + b) == DataBytes(a) + DataBytes(b)
  {
    assert Frames(AsData(a + b)) == Frames(AsData(a)) + Frames(AsData(b));
    EncodeAllAppend(Frames(AsData(a)), Frames(AsData(b)));
  }

  lemma DataBytesPush(a: seq<Skb>, skb: Skb)
    ensures DataBytes(a + [skb]) == DataBytes(a) + (DataHeader(skb) + skb.data)
  {
    DataBytesAppend(a, [skb]);
    DataHeaderFrames(skb);
    var fs := Frames(AsData([skb]));
    assert fs == [SentFrame(Data(skb))];
    assert EncodeAll(fs) == Encode(fs[0]) + EncodeAll([]);
  }

  lemma SentSoFar(socket: seq<byte>, sent: seq<Skb>, batch: seq<Skb>)
    ensures (socket + DataBytes(sent)) + DataBytes(batch) == socket + DataBytes(sent + batch)
  {
    DataBytesAppend(sent, batch);
    Assoc(socket, DataBytes(sent), DataBytes(batch));
  }

  lemma {:induction false} DataBytesLength(batch: seq<Skb>)
    ensures |DataBytes(batch)| == BatchBytes(batch)
  {
    if batch != [] {
      var init, last := batch[..|batch| - 1], batch[|batch| - 1];
      DataBytesLength(init);
      DataBytesPush(init, last);
      assert init + [last] == batch;
    } else {
      assert Frames(AsData(batch)) == [];
    }
  }

  // ---------------------------------------------------------------------------
  // The worker as a function
  // ---------------------------------------------------------------------------

  datatype Batch = Batch(packets: seq<Skb>, total: nat, left: seq<Skb>)

  /** Packets move from the head of the queue into the batch until it is full, the
      next one would push it over the byte cap, or the queue is empty. */
  function TakeBatch(b: Batch): (r: Batch)
    requires |b.packets| <= TX_BATCH_MAX
    ensures b.packets <= r.packets && |r.packets| <= TX_BATCH_MAX
    ensures |r.packets| == 0 ==> |b.left| == 0
    decreases |b.left|
  {
    if |b.packets| == TX_BATCH_MAX || |b.left| == 0 then b
    else if |b.packets| > 0 && b.total + WireLen(b.left[0]) > TX_BATCH_BYTES_MAX then b
    else TakeBatch(Batch(b.packets + [b.left[0]], b.total + WireLen(b.left[0]), b.left[1..]))
  }

  /** The state in which the send loop is left. */
  datatype LoopEnd = LoopEnd(
    queue: seq<Skb>, sent: seq<Skb>, drained: bool,
    requeued: bool, owed: bool, aborted: Option<Batch>, alert: seq<nat>)

  /** The send loop, given what the socket answers to each batch; past the end of the
      script it would block. */
  function SendLoop(queue: seq<Skb>, script: seq<SendResult>, loops: nat, sent: seq<Skb>): LoopEnd
    requires loops < TX_LOOPS
    decreases TX_LOOPS - loops
  {
    var b := TakeBatch(Batch([], 0, queue));
    var drained := loops > 0;
    if |b.packets| == 0 then LoopEnd(queue, sent, drained, false, false, None, [])
    else
      match OutcomeOf(Answer(script), b.total)
      case Accepted =>
        if loops + 1 == TX_LOOPS then LoopEnd(b.left, sent + b.packets, true, true, false, None, [])
        else SendLoop(b.left, Later(script), loops + 1, sent + b.packets)
      case Again => LoopEnd(queue, sent, drained, false, true, None, [])
      case Failed => LoopEnd(b.left, sent, drained, false, false, Some(b), [AlertArg(Answer(script))])
  }

  /** The session task is told exactly when the loop aborts. */
  lemma {:induction false} AlertsOnAbort(queue: seq<Skb>, script: seq<SendResult>, loops: nat, sent: seq<Skb>)
    requires loops < TX_LOOPS
    ensures var end := SendLoop(queue, script, loops, sent); end.aborted.Some? <==> |end.alert| == 1
    ensures var end := SendLoop(queue, script, loops, sent); end.aborted.None? <==> end.alert == []
    decreases TX_LOOPS - loops
  {
    var b := TakeBatch(Batch([], 0, queue));
    if |b.packets| > 0 && OutcomeOf(Answer(script), b.total).Accepted? && loops + 1 < TX_LOOPS {
      AlertsOnAbort(b.left, Later(script), loops + 1, sent + b.packets);
    }
  }

  /** What the session task is told of a send that failed: the errno, or zero for a short
      write. */
  function AlertArg(ret: SendResult): nat {
    if ret.Errno? then ret.e else 0
  }

  /** Of a send that failed, what the socket took all the same. */
  function TakenOf(ret: SendResult, bytes: seq<byte>): seq<byte> {
    if ret.Took? && ret.n < |bytes| then bytes[..ret.n] else []
  }

  /** What the worker leaves behind agrees with the way the send loop ended. */
  predicate LeftAt(end: LoopEnd, txQ: seq<Skb>, sent: seq<Skb>, drained: bool, closing: bool) {
    && end.queue == txQ && end.sent == sent && end.drained == drained
    && end.aborted.Some? == closing
  }

  function Answer(script: seq<SendResult>): SendResult {
    if script == [] then WouldBlock else script[0]
  }

  function Later(script: seq<SendResult>): seq<SendResult> {
    if script == [] then [] else script[1..]
  }

  lemma {:induction false} TakeBatchSplits(b: Batch)
    requires |b.packets| <= TX_BATCH_MAX
    ensures var r := TakeBatch(b); r.packets + r.left == b.packets + b.left
    decreases |b.left|
  {
    if |b.packets| < TX_BATCH_MAX && |b.left| > 0 {
      Shift(b.packets, b.left);
      TakeBatchSplits(Batch(b.packets + [b.left[0]], b.total + WireLen(b.left[0]), b.left[1..]));
    }
  }

  /** The batch is the longest run of the queue with at most eight packets and, beyond the
      first, at most 14336 bytes. */
  lemma {:induction false} TakeBatchIsLongest(b: Batch)
    requires |b.packets| <= 8 && b.total == BatchBytes(b.packets) && (|b.packets| <= 1 || b.total <= 14336)
    ensures var r := TakeBatch(b);
      && |r.packets| <= 8 && (|r.packets| <= 1 || BatchBytes(r.packets) <= 14336)
      && (r.left != [] ==> |r.packets| == 8 || (|r.packets| > 0 && BatchBytes(r.packets) + WireLen(r.left[0]) > 14336))
    decreases |b.left|
  {
    if |b.packets| < 8 && |b.left| > 0 && !(|b.packets| > 0 && b.total + WireLen(b.left[0]) > 14336) {
      BatchBytesPush(b.packets, b.left[0]);
      TakeBatchIsLongest(Batch(b.packets + [b.left[0]], b.total + WireLen(b.left[0]), b.left[1..]));
    }
  }

  /** The running total is the byte count of the batch. */
  lemma {:induction false} TakeBatchWeighs(b: Batch)
    requires |b.packets| <= TX_BATCH_MAX && b.total == BatchBytes(b.packets)
    ensures var r := TakeBatch(b); r.total == BatchBytes(r.packets)
    decreases |b.left|
  {
    if |b.packets| < TX_BATCH_MAX && |b.left| > 0 {
      BatchBytesPush(b.packets, b.left[0]);
      TakeBatchWeighs(Batch(b.packets + [b.left[0]], b.total + WireLen(b.left[0]), b.left[1..]));
    }
  }

  class Channel {
    var txQ: seq<Skb>
    var closing: bool
    var workPending: bool
    /** Bytes the socket has taken. */
    var socket: seq<byte>
    var framesTx: nat
    var recordsTx: nat
    var malformed: nat
    var sendErrors: nat
    var wakeups: nat
    /** Arguments of the fatal alerts emitted. */
    var alerts: seq<nat>

    constructor ()
      ensures txQ == [] && !closing && !workPending && socket == [] && alerts == []
      ensures framesTx == 0 && recordsTx == 0 && malformed == 0 && sendErrors == 0 && wakeups == 0
    {
      txQ, closing, workPending, socket, alerts := [], false, false, [], [];
      framesTx, recordsTx, malformed, sendErrors, wakeups := 0, 0, 0, 0, 0;
    }

    /** `start_xmit`: 0 tells ppp_generic to hold the packet. */
    method StartXmit(skb: Buffer) returns (ret: int)
      modifies `txQ, `workPending, `malformed
      ensures ret == 0 || ret == 1
      ensures ret == 0 <==> !closing && Fits(skb) && |old(txQ)| >= 64
      ensures if !closing && Fits(skb) && ret == 1 then txQ == old(txQ) + [skb] && workPending
              else txQ == old(txQ) && workPending == old(workPending)
      ensures malformed == old(malformed) + (if !closing && 6 + |skb.data| > 4095 then 1 else 0)
    {
      if closing {
        return 1;
      }
      if TX_HDR_STRIDE + |skb.data| > MAX_PACKET_LEN {
        malformed := malformed + 1;
        return 1;
      }
      if |txQ| >= TX_Q_CAP {
        return 0;
      }
      txQ := txQ + [skb];
      workPending := true;
      return 1;
    }

    /** SEND_CONTROL: zero, or a negative errno. */
    method SendControl(body: seq<byte>, sendmsg: SendResult) returns (rc: int)
      requires sendmsg.Errno? ==> sendmsg.e > 0
      modifies `closing, `socket, `framesTx, `recordsTx, `sendErrors, `alerts
      ensures rc == 0 <==> !old(closing) && 0 < |body| <= 4092 && sendmsg == Took(4 + |body|)
      ensures old(closing) ==> rc == -32
      ensures !old(closing) && !(0 < |body| <= 4092) ==> rc == -90
      ensures !old(closing) && 0 < |body| <= 4092 && sendmsg.WouldBlock? ==> rc == -11
      ensures closing == (old(closing) || (0 < |body| <= 4092 && OutcomeOf(sendmsg, 4 + |body|).Failed?))
      ensures var failed := !old(closing) && closing;
        && (failed ==> rc == if sendmsg.Errno? then -(sendmsg.e as int) else -5)
        && alerts == old(alerts) + (if failed then [AlertArg(sendmsg)] else [])
        && sendErrors == old(sendErrors) + (if failed then 1 else 0)
        && socket == old(socket) + (if rc == 0 then Encode(Frame(true, body))
                                    else if failed then TakenOf(sendmsg, Encode(Frame(true, body))) else [])
      ensures var sent := if rc == 0 then 1 else 0;
        framesTx == old(framesTx) + sent && recordsTx == old(recordsTx) + sent
    {
      if closing {
        return EPIPE;
      }
      if |body| == 0 || |body| > CONTROL_MAX - HEADER_LEN {
        return EMSGSIZE;
      }
      var total := HEADER_LEN + |body|;
      var bytes := Header(true, total) + body;
      if sendmsg == Took(total) {
        socket := socket + bytes;
        framesTx, recordsTx := framesTx + 1, recordsTx + 1;
        return 0;
      }
      if sendmsg.WouldBlock? {
        return EAGAIN;
      }
      if sendmsg.Took? && sendmsg.n < total {
        socket := socket + bytes[..sendmsg.n];
      }
      sendErrors := sendErrors + 1;
      alerts := alerts + [AlertArg(sendmsg)];
      closing := true;
      return if sendmsg.Errno? then -(sendmsg.e as int) else EIO;
    }

    /** Fill `batch` and `hdrs` from the queue. */
    method BuildBatch(batch: array<Skb>, hdrs: array<byte>) returns (n: nat, total: nat)
      requires batch.Length == TX_BATCH_MAX && hdrs.Length == TX_BATCH_MAX * TX_HDR_STRIDE
      modifies this`txQ, batch, hdrs
      ensures n <= TX_BATCH_MAX
      ensures Batch(batch[..n], total, txQ) == TakeBatch(Batch([], 0, old(txQ)))
      ensures forall i :: 0 <= i < n ==> HeaderAt(hdrs[..], i, batch[i])
      ensures total == |DataBytes(batch[..n])|
    {
      n, total := FillBatch(batch, hdrs);
      TakeBatchWeighs(Batch([], 0, old(txQ)));
      DataBytesLength(batch[..n]);
    }

    method FillBatch(batch: array<Skb>, hdrs: array<byte>) returns (n: nat, total: nat)
      requires batch.Length == TX_BATCH_MAX && hdrs.Length == TX_BATCH_MAX * TX_HDR_STRIDE
      modifies this`txQ, batch, hdrs
      ensures n <= TX_BATCH_MAX
      ensures Batch(batch[..n], total, txQ) == TakeBatch(Batch([], 0, old(txQ)))
      ensures forall i :: 0 <= i < n ==> HeaderAt(hdrs[..], i, batch[i])
    {
      n, total := 0, 0;
      while n < TX_BATCH_MAX
        invariant n <= TX_BATCH_MAX
        invariant TakeBatch(Batch(batch[..n], total, txQ)) == TakeBatch(Batch([], 0, old(txQ)))
        invariant forall i :: 0 <= i < n ==> HeaderAt(hdrs[..], i, batch[i])
      {
        if |txQ| == 0 {
          return;
        }
        var skb := txQ[0];
        txQ := txQ[1..];
        var frame := TX_HDR_STRIDE + |skb.data|;
        if n > 0 && total + frame > TX_BATCH_BYTES_MAX {
          txQ := [skb] + txQ;
          return;
        }
        FillHeader(hdrs, n, skb);
        batch[n] := skb;
        assert batch[..n + 1] == batch[..n] + [skb];
        n, total := n + 1, total + frame;
      }
    }

    /** Hand one batch to the socket and act on its answer. */
    method Transmit(batch: array<Skb>, hdrs: array<byte>, n: nat, total: nat, ret: SendResult) returns (outcome: Outcome)
      requires n <= batch.Length && total == |DataBytes(batch[..n])|
      requires forall i :: 0 <= i < n ==> HeaderAt(hdrs[..], i, batch[i])
      modifies `txQ, `closing, `socket, `framesTx, `recordsTx, `sendErrors, `alerts
      ensures outcome == OutcomeOf(ret, total)
      ensures txQ == (if outcome.Again? then batch[..n] + old(txQ) else old(txQ))
      ensures var bytes := DataBytes(batch[..n]);
        socket == old(socket) + (if outcome.Accepted? then bytes else if outcome.Failed? then TakenOf(ret, bytes) else [])
      ensures closing == (old(closing) || outcome.Failed?)
      ensures framesTx == old(framesTx) + (if outcome.Accepted? then n else 0)
      ensures recordsTx == old(recordsTx) + (if outcome.Accepted? then 1 else 0)
      ensures sendErrors == old(sendErrors) + (if outcome.Failed? then 1 else 0)
      ensures alerts == old(alerts) + (if outcome.Failed? then [AlertArg(ret)] else [])
    {
      var bytes := Gather(batch, hdrs, n);
      if ret == Took(total) {
        socket := socket + bytes;
        framesTx, recordsTx := framesTx + n, recordsTx + 1;
        return Accepted;
      }
      if ret.WouldBlock? {
        ReHead(batch, n);
        return Again;
      }
      sendErrors := sendErrors + 1;
      alerts := alerts + [AlertArg(ret)];
      if ret.Took? && ret.n < total {
        socket := socket + bytes[..ret.n];
      }
      closing := true;
      return Failed;
    }

    /** One turn of the send loop: build a batch and transmit it. */
    method Turn(script: seq<SendResult>, loops: nat, batch: array<Skb>, hdrs: array<byte>,
                ghost base: seq<byte>, ghost sent: seq<Skb>)
      returns (more: bool, sentBatch: bool, ghost sentNow: seq<Skb>)
      requires loops < TX_LOOPS && !closing && socket == base + DataBytes(sent)
      requires batch.Length == TX_BATCH_MAX && hdrs.Length == TX_BATCH_MAX * TX_HDR_STRIDE
      modifies this, batch, hdrs
      ensures more ==> loops + 1 < TX_LOOPS && sentBatch && !closing && workPending == old(workPending)
      ensures more ==> SendLoop(old(txQ), script, loops, sent) == SendLoop(txQ, Later(script), loops + 1, sentNow)
      ensures !more ==> LeftAt(SendLoop(old(txQ), script, loops, sent), txQ, sentNow, loops > 0 || sentBatch, closing)
      ensures !more ==> workPending == (old(workPending) || SendLoop(old(txQ), script, loops, sent).requeued)
      ensures framesTx == old(framesTx) + |sentNow| - |sent| && wakeups == old(wakeups)
      ensures alerts == old(alerts) + (if more then [] else SendLoop(old(txQ), script, loops, sent).alert)
      ensures base + DataBytes(sentNow) <= socket
      ensures !closing ==> socket == base + DataBytes(sentNow)
    {
      ghost var queue := txQ;
      more, sentBatch, sentNow := false, false, sent;
      var n, total := BuildBatch(batch, hdrs);
      if n == 0 {
        return;
      }
      TakeBatchSplits(Batch([], 0, queue));
      assert [] + queue == queue;
      var outcome := Transmit(batch, hdrs, n, total, Answer(script));
      if !outcome.Accepted? {
        return;
      }
      SentSoFar(base, sent, batch[..n]);
      sentBatch, sentNow := true, sent + batch[..n];
      if loops + 1 >= TX_LOOPS {
        workPending := true;
      } else {
        more := true;
      }
    }

    /** The send loop: up to eight turns. */
    method SendBatches(script: seq<SendResult>, batch: array<Skb>, hdrs: array<byte>) returns (drained: bool, ghost sent: seq<Skb>)
      requires !closing && batch.Length == TX_BATCH_MAX && hdrs.Length == TX_BATCH_MAX * TX_HDR_STRIDE
      modifies this, batch, hdrs
      ensures var end := SendLoop(old(txQ), script, 0, []);
        LeftAt(end, txQ, sent, drained, closing) && workPending == (old(workPending) || end.requeued)
      ensures framesTx == old(framesTx) + |sent| && wakeups == old(wakeups)
      ensures alerts == old(alerts) + SendLoop(old(txQ), script, 0, []).alert
      ensures old(socket) + DataBytes(sent) <= socket
      ensures !closing ==> socket == old(socket) + DataBytes(sent)
    {
      ghost var end := SendLoop(txQ, script, 0, []);
      var left, loops, more := script, 0, true;
      drained, sent := false, [];
      assert DataBytes([]) == [] by { assert Frames(AsData([])) == []; }
      while more
        invariant more ==> !closing && loops < TX_LOOPS && drained == (loops > 0) && workPending == old(workPending)
        invariant more ==> SendLoop(txQ, left, loops, sent) == end
        invariant !more ==> LeftAt(end, txQ, sent, drained, closing) && workPending == (old(workPending) || end.requeued)
        invariant framesTx == old(framesTx) + |sent| && wakeups == old(wakeups)
        invariant alerts == old(alerts) + (if more then [] else end.alert)
        invariant old(socket) + DataBytes(sent) <= socket
        invariant !closing ==> socket == old(socket) + DataBytes(sent)
        decreases more, TX_LOOPS - loops
      {
        var accepted;
        more, accepted, sent := Turn(left, loops, batch, hdrs, old(socket), sent);
        drained := drained || accepted;
        left, loops := Later(left), loops + 1;
      }
    }

    /** One run of the transmit worker. `script` is what the socket answers, batch by
        batch. */
    method TxWorker(script: seq<SendResult>) returns (ghost end: LoopEnd)
      modifies this
      ensures old(closing) ==> txQ == old(txQ) && socket == old(socket) && closing && wakeups == old(wakeups) && alerts == old(alerts)
      ensures !old(closing) ==> alerts == old(alerts) + end.alert && (closing <==> end.alert != [])
      ensures !old(closing) ==> end == SendLoop(old(txQ), script, 0, []) && LeftAt(end, txQ, end.sent, end.drained, closing)
      ensures !old(closing) ==> workPending == (old(workPending) || end.requeued)
      ensures !old(closing) ==> framesTx == old(framesTx) + |end.sent|
      ensures !old(closing) ==> old(socket) + DataBytes(end.sent) <= socket
      ensures !closing ==> socket == old(socket) + DataBytes(end.sent)
      ensures !old(closing) ==> wakeups == old(wakeups) + (if end.drained && |end.queue| < 32 then 1 else 0)
    {
      end := SendLoop(txQ, script, 0, []);
      if closing {
        return;
      }
      AlertsOnAbort(txQ, script, 0, []);
      var batch := new Skb[TX_BATCH_MAX](_ => Buffer([]));
      var hdrs := new byte[TX_BATCH_MAX * TX_HDR_STRIDE](_ => 0);
      var drained, sent := SendBatches(script, batch, hdrs);
      if drained && |txQ| < TX_Q_CAP / 2 {
        wakeups := wakeups + 1;
      }
    }

    /** Put a refused batch back, last packet first. */
    method ReHead(batch: array<Skb>, n: nat)
      requires n <= batch.Length
      modifies this`txQ
      ensures txQ == batch[..n] + old(txQ)
    {
      var i: nat := n;
      while i > 0
        invariant i <= n && txQ == batch[i..n] + old(txQ)
      {
        txQ := [batch[i - 1]] + txQ;
        assert batch[i - 1..n] == [batch[i - 1]] + batch[i..n];
        i := i - 1;
      }
    }
  }

  predicate HeaderAt(hdrs: seq<byte>, i: nat, skb: Skb) {
    && (i + 1) * TX_HDR_STRIDE <= |hdrs|
    && hdrs[i * TX_HDR_STRIDE..(i + 1) * TX_HDR_STRIDE] == DataHeader(skb)
  }

  method FillHeader(hdrs: array<byte>, n: nat, skb: Skb)
    requires hdrs.Length == TX_BATCH_MAX * TX_HDR_STRIDE && n < TX_BATCH_MAX
    modifies hdrs
    ensures HeaderAt(hdrs[..], n, skb)
    ensures forall i: nat, other: Skb :: i < n && HeaderAt(old(hdrs[..]), i, other) ==> HeaderAt(hdrs[..], i, other)
  {
    var h, frame := n * TX_HDR_STRIDE, TX_HDR_STRIDE + |skb.data|;
    hdrs[h], hdrs[h + 1] := VERSION_1_0, 0;
    hdrs[h + 2], hdrs[h + 3] := (frame / 256) % 16, frame % 256;
    hdrs[h + 4], hdrs[h + 5] := 0xff, 0x03;
    assert hdrs[h..h + 6] == DataHeader(skb);
    forall i: nat, other: Skb | i < n && HeaderAt(old(hdrs[..]), i, other)
      ensures HeaderAt(hdrs[..], i, other)
    {
      assert hdrs[..][i * TX_HDR_STRIDE..(i + 1) * TX_HDR_STRIDE] == old(hdrs[..])[i * TX_HDR_STRIDE..(i + 1) * TX_HDR_STRIDE];
    }
  }

  /** The iovec, flattened: header and payload of each packet in turn. */
  method Gather(batch: array<Skb>, hdrs: array<byte>, n: nat) returns (bytes: seq<byte>)
    requires n <= batch.Length
    requires forall i :: 0 <= i < n ==> HeaderAt(hdrs[..], i, batch[i])
    ensures bytes == DataBytes(batch[..n])
  {
    bytes := [];
    assert DataBytes([]) == [] by { assert Frames(AsData([])) == []; }
    for i := 0 to n
      invariant bytes == DataBytes(batch[..i])
    {
      assert HeaderAt(hdrs[..], i, batch[i]);
      DataBytesPush(batch[..i], batch[i]);
      assert batch[..i + 1] == batch[..i] + [batch[i]];
      bytes := bytes + (hdrs[i * TX_HDR_STRIDE..(i + 1) * TX_HDR_STRIDE] + batch[i].data);
    }
  }
}
