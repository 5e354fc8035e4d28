/** The transmit path of one attached session (kmod/sstp_chan.c, with the echo
    responder and the write-space hook of kmod/sstp_demux.c and the SEND_CONTROL ioctl
    of kmod/sstp_event.c) as steps that interleave freely.

    A producer's look at the queue length and its append are two steps, as are the
    append and the `queue_work` after it. The worker dequeues, puts back and re-heads
    one packet per step. Assumed of the surroundings: `kernel_sendmsg` takes all,
    takes nothing and owes a write-space callback, or fails; `start_xmit` and the push
    inside `ppp_output_wakeup` run under the channel lock. */
module TxMachine {
  import opened Bytes
  import Reassembly
  import opened SstpFraming

  const TX_Q_CAP: nat := 64
  const TX_BATCH_MAX: nat := 8
  const TX_HDR_STRIDE: nat := HEADER_LEN + 2
  const TX_BATCH_BYTES_MAX: nat := 14 * 1024
  const TX_LOOPS: nat := 8
  const CONTROL_MAX: nat := 4096

  /** Longest PPP payload one inbound SSTP packet can carry, hence the longest echo
      reply the responder can build. */
  const MAX_PAYLOAD: nat := MAX_PACKET_LEN - HEADER_LEN

  /** A packet buffer. */
  datatype Buffer = Buffer(data: seq<byte>)

  /** A packet that can get into the transmit queue. */
  type Skb = b: Buffer | |b.data| <= MAX_PAYLOAD witness Buffer([])

  /** Size of a packet on the wire. */
  function WireLen(skb: Buffer): nat {
    TX_HDR_STRIDE + |skb.data|
  }

  /** `start_xmit` drops anything longer. */
  predicate Fits(skb: Buffer) {
    WireLen(skb) <= MAX_PACKET_LEN
  }

  function BatchBytes(batch: seq<Skb>): nat {
    if batch == [] then 0 else BatchBytes(batch[..|batch| - 1]) + WireLen(batch[|batch| - 1])
  }

  /** One frame written to the socket. */
  datatype Sent = Data(skb: Skb) | Ctrl(body: seq<byte>)

  function SentFrame(w: Sent): Frame {
    match w
    case Data(skb) => Frame(false, [0xff, 0x03] + skb.data)
    case Ctrl(body) => Frame(true, body)
  }

  /** The transmit worker. `drained` is set once a batch of this run was taken;
      `total` is the byte count of `batch`. */
  datatype Worker =
    | Idle
    | Top(loops: nat, drained: bool)
    | Build(batch: seq<Skb>, total: nat, loops: nat, drained: bool)
    | PutBack(batch: seq<Skb>, total: nat, skb: Skb, loops: nat, drained: bool)
    | Send(batch: seq<Skb>, total: nat, loops: nat, drained: bool)
    | Unwind(batch: seq<Skb>, drained: bool)
    | Abort(drained: bool)
    | Tail(drained: bool)
    | Wake
    | Push

  /** ppp_generic inside `start_xmit`. */
  datatype Xmit = XIdle | XPassed(skb: Skb) | XAppended | XRefused(skb: Skb)

  /** The receive worker inside the echo responder. */
  datatype Echo = EIdle | EPassed(skb: Skb) | EAppended

  /** SEND_CONTROL. */
  datatype Ctl = CIdle | CReady(body: seq<byte>) | CAbort

  datatype State = State(
    txQ: seq<Skb>,
    worker: Worker,
    xmit: Xmit,
    echo: Echo,
    ctl: Ctl,
    backlog: seq<Buffer>,   // packets ppp_generic still has
    blocked: bool,       // ppp_generic holds: `start_xmit` returned 0 and nobody retried
    pending: bool,       // tx_work is queued
    owed: bool,          // a write-space callback is owed
    closing: bool,
    broken: bool,        // a send failed; the stream is no longer framed
    wire: seq<Sent>,     // history: frames taken by the socket before that
    sent: seq<Skb>,      // history: the data packets among them
    appended: seq<Skb>)  // history: everything ever appended to tx_q

  datatype Outcome = Accepted | Again | Failed

  datatype PppStep = Offer(skb: Buffer) | Call | Append | Kick | Refuse | Retry
  datatype EchoStep = Request(reply: Skb) | Reply | KickReply
  datatype WorkStep =
    | Start | LoopTop | Dequeue | Return | Transmit(outcome: Outcome) | ReHead
    | SetClosing | Finish | Wakeup | Pushed
  datatype CtlStep = Ioctl(body: seq<byte>) | SendCtl(result: Outcome) | FailCtl

  datatype Step =
    | Ppp(ppp: PppStep)
    | Responder(responder: EchoStep)
    | Work(work: WorkStep)
    | Control(control: CtlStep)
    | WriteSpace
    | Close

  function Init(): State {
    State([], Idle, XIdle, EIdle, CIdle, [], false, false, false, false, false, [], [], [])
  }

  predicate PppEnabled(s: State, step: PppStep) {
    match step
    case Offer(_) => true
    case Call => s.xmit.XIdle? && !s.blocked && s.backlog != []
    case Append => s.xmit.XPassed?
    case Kick => s.xmit.XAppended?
    case Refuse => s.xmit.XRefused?
    case Retry => s.xmit.XIdle? && s.blocked
  }

  predicate EchoEnabled(s: State, step: EchoStep) {
    match step
    case Request(_) => s.echo.EIdle?
    case Reply => s.echo.EPassed?
    case KickReply => s.echo.EAppended?
  }

  predicate WorkEnabled(s: State, step: WorkStep) {
    match step
    case Start => s.worker.Idle? && s.pending
    case LoopTop => s.worker.Top?
    case Dequeue => s.worker.Build?
    case Return => s.worker.PutBack?
    case Transmit(_) => s.worker.Send?
    case ReHead => s.worker.Unwind?
    case SetClosing => s.worker.Abort?
    case Finish => s.worker.Tail?
    case Wakeup => s.worker.Wake? && s.xmit.XIdle?
    case Pushed => s.worker.Push? && s.xmit.XIdle? && (s.blocked || s.backlog == [])
  }

  predicate CtlEnabled(s: State, step: CtlStep) {
    match step
    case Ioctl(body) => s.ctl.CIdle? && !s.closing && 0 < |body| <= CONTROL_MAX - HEADER_LEN
    case SendCtl(_) => s.ctl.CReady?
    case FailCtl => s.ctl.CAbort?
  }

  predicate Enabled(s: State, step: Step) {
    match step
    case Ppp(p) => PppEnabled(s, p)
    case Responder(e) => EchoEnabled(s, e)
    case Work(w) => WorkEnabled(s, w)
    case Control(c) => CtlEnabled(s, c)
    case WriteSpace => true
    case Close => true
  }

  function Enqueue(s: State, skb: Skb): State {
    s.(txQ := s.txQ + [skb], appended := s.appended + [skb])
  }

  /** Frames are recorded only while the stream is still framed. */
  function Record(s: State, frames: seq<Sent>, batch: seq<Skb>): State {
    if s.broken then s else s.(wire := s.wire + frames, sent := s.sent + batch)
  }

  function AsData(batch: seq<Skb>): (r: seq<Sent>)
    ensures |r| == |batch|
  {
    seq(|batch|, i requires 0 <= i < |batch| => Data(batch[i]))
  }

  function CallNext(s: State): State
    requires PppEnabled(s, Call)
  {
    var skb, later := s.backlog[0], s.backlog[1..];
    if s.closing || !Fits(skb) then s.(backlog := later)
    else if |s.txQ| >= TX_Q_CAP then s.(backlog := later, xmit := XRefused(skb))
    else s.(backlog := later, xmit := XPassed(skb))
  }

  function PppNext(s: State, step: PppStep): State
    requires PppEnabled(s, step)
  {
    match step
    case Offer(skb) => s.(backlog := s.backlog + [skb])
    case Call => CallNext(s)
    case Append => Enqueue(s, s.xmit.skb).(xmit := XAppended)
    case Kick => s.(pending := true, xmit := XIdle)
    case Refuse => s.(backlog := [s.xmit.skb] + s.backlog, blocked := true, xmit := XIdle)
    case Retry => s.(blocked := false)
  }

  function EchoNext(s: State, step: EchoStep): State
    requires EchoEnabled(s, step)
  {
    match step
    case Request(reply) =>
      if s.closing || |s.txQ| >= TX_Q_CAP then s else s.(echo := EPassed(reply))
    case Reply => Enqueue(s, s.echo.skb).(echo := EAppended)
    case KickReply => s.(pending := true, echo := EIdle)
  }

  /** One packet into the batch, or into the hand if it does not fit. */
  function TakeNext(s: State): State
    requires s.worker.Build? && |s.txQ| > 0
  {
    var w, skb := s.worker, s.txQ[0];
    if |w.batch| > 0 && w.total + WireLen(skb) > TX_BATCH_BYTES_MAX then
      s.(txQ := s.txQ[1..], worker := PutBack(w.batch, w.total, skb, w.loops, w.drained))
    else
      s.(txQ := s.txQ[1..], worker := Build(w.batch + [skb], w.total + WireLen(skb), w.loops, w.drained))
  }

  function DequeueNext(s: State): State
    requires s.worker.Build?
  {
    var w := s.worker;
    if |w.batch| < TX_BATCH_MAX && |s.txQ| > 0 then TakeNext(s)
    else if |w.batch| > 0 then s.(worker := Send(w.batch, w.total, w.loops, w.drained))
    else s.(worker := Tail(w.drained))
  }

  function TransmitNext(s: State, outcome: Outcome): State
    requires s.worker.Send?
  {
    var w := s.worker;
    match outcome
    case Accepted =>
      var t := Record(s, AsData(w.batch), w.batch);
      if w.loops + 1 >= TX_LOOPS then t.(pending := true, worker := Tail(true))
      else t.(worker := Top(w.loops + 1, true))
    case Again => s.(owed := true, worker := Unwind(w.batch, w.drained))
    case Failed => s.(broken := true, worker := Abort(w.drained))
  }

  function ReHeadNext(s: State): State
    requires s.worker.Unwind?
  {
    var w := s.worker;
    var n := |w.batch|;
    if n == 0 then s.(worker := Tail(w.drained))
    else s.(txQ := [w.batch[n - 1]] + s.txQ, worker := Unwind(w.batch[..n - 1], w.drained))
  }

  function WorkNext(s: State, step: WorkStep): State
    requires WorkEnabled(s, step)
  {
    match step
    case Start => s.(pending := false, worker := Top(0, false))
    case LoopTop =>
      s.(worker := if s.closing then Tail(s.worker.drained) else Build([], 0, s.worker.loops, s.worker.drained))
    case Dequeue => DequeueNext(s)
    case Return =>
      s.(txQ := [s.worker.skb] + s.txQ, worker := Send(s.worker.batch, s.worker.total, s.worker.loops, s.worker.drained))
    case Transmit(outcome) => TransmitNext(s, outcome)
    case ReHead => ReHeadNext(s)
    case SetClosing => s.(closing := true, worker := Tail(s.worker.drained))
    case Finish => s.(worker := if s.worker.drained && |s.txQ| < TX_Q_CAP / 2 then Wake else Idle)
    case Wakeup => s.(blocked := false, worker := Push)
    case Pushed => s.(worker := Idle)
  }

  function CtlNext(s: State, step: CtlStep): State
    requires CtlEnabled(s, step)
  {
    match step
    case Ioctl(body) => s.(ctl := CReady(body))
    case SendCtl(Accepted) => Record(s, [Ctrl(s.ctl.body)], []).(ctl := CIdle)
    case SendCtl(Again) => s.(owed := true, ctl := CIdle)
    case SendCtl(Failed) => s.(broken := true, ctl := CAbort)
    case FailCtl => s.(closing := true, ctl := CIdle)
  }

  function Next(s: State, step: Step): State
    requires Enabled(s, step)
  {
    match step
    case Ppp(p) => PppNext(s, p)
    case Responder(e) => EchoNext(s, e)
    case Work(w) => WorkNext(s, w)
    case Control(c) => CtlNext(s, c)
    case WriteSpace => if s.closing then s.(owed := false) else s.(owed := false, pending := true)
    case Close => s.(closing := true)
  }

  /** `t` is reached from `s` by `steps`. */
  ghost predicate Run(s: State, steps: seq<Step>, t: State)
    decreases |steps|
  {
    if steps == [] then s == t
    else Enabled(s, steps[0]) && Run(Next(s, steps[0]), steps[1..], t)
  }

  // ---------------------------------------------------------------------------
  // Invariants
  // ---------------------------------------------------------------------------

  /** Packets in the worker's hands, in transmission order. */
  function Hand(w: Worker): seq<Skb> {
    if w.PutBack? then w.batch + [w.skb]
    else if HasBatch(w) then w.batch
    else []
  }

  predicate HasBatch(w: Worker) {
    w.Build? || w.Send? || w.Unwind?
  }

  /** Packets queued or in the worker's hands. */
  function Held(s: State): nat {
    |s.txQ| + (if s.worker.PutBack? then |s.worker.batch| + 1 else if HasBatch(s.worker) then |s.worker.batch| else 0)
  }

  function DataOf(wire: seq<Sent>): seq<Skb> {
    if wire == [] then []
    else DataOf(wire[..|wire| - 1]) + (if wire[|wire| - 1].Data? then [wire[|wire| - 1].skb] else [])
  }

  /** Packets leave in exactly the order in which they were appended. */
  ghost predicate InOrder(s: State) {
    if s.broken then s.sent <= s.appended
    else s.sent + (Hand(s.worker) + s.txQ) == s.appended
  }

  /** A batch is within the count and byte caps, and not empty when it is sent. */
  predicate BatchOk(w: Worker) {
    && (HasBatch(w) ==> |w.batch| <= TX_BATCH_MAX)
    && (w.PutBack? ==> |w.batch| < TX_BATCH_MAX)
    && (w.PutBack? || w.Send? ==> 0 < |w.batch|)
    && (w.Build? && |w.batch| == 0 ==> w.total == 0)
    && (w.Build? || w.PutBack? || w.Send? ==> w.total <= TX_BATCH_BYTES_MAX)
  }

  /** `total` is the byte count of the batch. */
  ghost predicate Weighed(w: Worker) {
    w.Build? || w.PutBack? || w.Send? ==> w.total == BatchBytes(w.batch)
  }

  /** Producers that have looked at the queue length and not appended yet. */
  function Committed(s: State): nat {
    (if s.xmit.XPassed? then 1 else 0) + (if s.echo.EPassed? then 1 else 0)
  }

  /** The cap of 64 is overshot by at most the batch put back and one racing
      producer. */
  predicate Bounded(s: State) {
    Held(s) + Committed(s) <= TX_Q_CAP + TX_BATCH_MAX + 1
  }

  /** Somebody other than a running worker will run the worker again. */
  predicate WillRun(s: State) {
    s.pending || s.owed || s.xmit.XAppended? || s.echo.EAppended?
  }

  /** The worker is in a part of its run that still ends at a look into the queue. */
  predicate Looping(w: Worker) {
    w.Top? || w.Build? || w.PutBack? || w.Send?
  }

  /** No packet waits in the queue or in hand without somebody to send it. */
  predicate Served(s: State) {
    && (!s.closing && Held(s) > 0 && !Looping(s.worker) && !s.worker.Abort? ==> WillRun(s))
    && (s.worker.Abort? || s.ctl.CAbort? ==> s.broken)
    && (s.blocked ==> s.xmit.XIdle?)
  }

  /** ppp_generic holds a packet, or is about to. */
  predicate Holding(s: State) {
    s.blocked || s.xmit.XRefused?
  }

  /** This run of the worker has made room, or failed, and has yet to act on it. */
  predicate Drained(w: Worker) {
    w.Abort? || w.Wake? || (!w.Idle? && !w.Push? && w.drained)
  }

  /** While ppp_generic holds and the worker owes it no wakeup, at least half the cap
      is queued or in hand. */
  predicate HalfFull(s: State) {
    !s.closing && Holding(s) && !Drained(s.worker) ==> Held(s) >= TX_Q_CAP / 2
  }

  ghost predicate Inv(s: State) {
    InOrder(s) && Recorded(s) && Weighed(s.worker) && Live(s)
  }

  // ---------------------------------------------------------------------------
  // Every step keeps them
  // ---------------------------------------------------------------------------

  lemma {:induction false} DataOfBatch(wire: seq<Sent>, batch: seq<Skb>)
    ensures DataOf(wire + AsData(batch)) == DataOf(wire) + batch
    decreases |batch|
  {
    if batch == [] {
      assert wire + AsData(batch) == wire;
      assert DataOf(wire) + batch == DataOf(wire);
    } else {
      var init, last := batch[..|batch| - 1], batch[|batch| - 1];
      var all := wire + AsData(batch);
      assert all[..|all| - 1] == wire + AsData(init);
      assert all[|all| - 1] == Data(last);
      DataOfBatch(wire, init);
      Assoc(DataOf(wire), init, [last]);
      assert init + [last] == batch;
    }
  }

  /** The record of data packets is the data on the wire. */
  ghost predicate Recorded(s: State) {
    DataOf(s.wire) == s.sent
  }

  lemma TransmitKeepsRecord(s: State, outcome: Outcome)
    requires Recorded(s) && s.worker.Send?
    ensures Recorded(TransmitNext(s, outcome))
  {
    DataOfBatch(s.wire, s.worker.batch);
  }

  lemma WorkLeavesWire(s: State, step: WorkStep)
    requires WorkEnabled(s, step) && !step.Transmit?
    ensures var t := WorkNext(s, step); t.wire == s.wire && t.sent == s.sent
  {
    match step
    case Start => case LoopTop => case Dequeue => case Return => case ReHead =>
    case SetClosing => case Finish => case Wakeup => case Pushed =>
  }

  lemma WorkKeepsRecord(s: State, step: WorkStep)
    requires Recorded(s) && WorkEnabled(s, step)
    ensures Recorded(WorkNext(s, step))
  {
    if step.Transmit? {
      TransmitKeepsRecord(s, step.outcome);
    } else {
      WorkLeavesWire(s, step);
    }
  }

  lemma CtlKeepsRecord(s: State, step: CtlStep)
    requires Recorded(s) && CtlEnabled(s, step)
    ensures Recorded(CtlNext(s, step))
  {
    if step == SendCtl(Accepted) {
      DataOfControl(s.wire, s.ctl.body);
      assert s.sent + [] == s.sent;
    }
  }

  lemma DataOfControl(wire: seq<Sent>, body: seq<byte>)
    ensures DataOf(wire + [Ctrl(body)]) == DataOf(wire)
  {
    assert (wire + [Ctrl(body)])[..|wire|] == wire;
    assert DataOf(wire) + [] == DataOf(wire);
  }

  lemma EnqueueKeepsOrder(s: State, skb: Skb)
    requires InOrder(s)
    ensures InOrder(Enqueue(s, skb))
  {
    Assoc(Hand(s.worker), s.txQ, [skb]);
    Assoc(s.sent, Hand(s.worker) + s.txQ, [skb]);
  }

  /** Moving packets between the hand and the queue. */
  lemma MoveKeepsOrder(s: State, t: State)
    requires InOrder(s)
    requires t.broken == s.broken && t.sent == s.sent && t.appended == s.appended
    requires Hand(t.worker) + t.txQ == Hand(s.worker) + s.txQ
    ensures InOrder(t)
  {
  }

  lemma Shift<T>(a: seq<T>, q: seq<T>)
    requires |q| > 0
    ensures (a + [q[0]]) + q[1..] == a + q
  {
  }

  lemma TakeKeepsOrder(s: State)
    requires InOrder(s) && s.worker.Build? && |s.txQ| > 0
    ensures InOrder(TakeNext(s))
  {
    Shift(s.worker.batch, s.txQ);
    MoveKeepsOrder(s, TakeNext(s));
  }

  lemma DequeueKeepsOrder(s: State)
    requires InOrder(s) && s.worker.Build?
    ensures InOrder(DequeueNext(s))
  {
    if |s.worker.batch| < TX_BATCH_MAX && |s.txQ| > 0 {
      TakeKeepsOrder(s);
    } else {
      var t := DequeueNext(s);
      assert t.txQ == s.txQ && t.sent == s.sent && Hand(t.worker) == s.worker.batch;
      MoveKeepsOrder(s, t);
    }
  }

  lemma ReHeadKeepsOrder(s: State)
    requires InOrder(s) && s.worker.Unwind?
    ensures InOrder(ReHeadNext(s))
  {
    var batch := s.worker.batch;
    if batch != [] {
      var init, last := batch[..|batch| - 1], batch[|batch| - 1];
      assert batch == init + [last];
      Assoc(init, [last], s.txQ);
    }
    MoveKeepsOrder(s, ReHeadNext(s));
  }

  lemma AcceptedKeepsOrder(s: State)
    requires InOrder(s) && s.worker.Send? && !s.broken
    ensures InOrder(TransmitNext(s, Accepted))
  {
    Assoc(s.sent, s.worker.batch, s.txQ);
    assert [] + s.txQ == s.txQ;
  }

  lemma TransmitKeepsOrder(s: State, outcome: Outcome)
    requires InOrder(s) && s.worker.Send?
    ensures InOrder(TransmitNext(s, outcome))
  {
    match outcome
    case Accepted =>
      if !s.broken {
        AcceptedKeepsOrder(s);
      }
    case Again => MoveKeepsOrder(s, TransmitNext(s, Again));
    case Failed => PrefixOfOrder(s);
  }

  lemma PrefixOfOrder(s: State)
    requires InOrder(s)
    ensures s.sent <= s.appended
  {
  }

  lemma WorkKeepsOrder(s: State, step: WorkStep)
    requires InOrder(s) && WorkEnabled(s, step)
    ensures InOrder(WorkNext(s, step))
  {
    match step
    case Dequeue => DequeueKeepsOrder(s);
    case Return =>
      Assoc(s.worker.batch, [s.worker.skb], s.txQ);
      MoveKeepsOrder(s, WorkNext(s, step));
    case Transmit(outcome) => TransmitKeepsOrder(s, outcome);
    case ReHead => ReHeadKeepsOrder(s);
    case _ =>
      assert Hand(WorkNext(s, step).worker) == [] == Hand(s.worker);
      MoveKeepsOrder(s, WorkNext(s, step));
  }

  lemma PppKeepsOrder(s: State, step: PppStep)
    requires InOrder(s) && PppEnabled(s, step)
    ensures InOrder(PppNext(s, step))
  {
    if step.Append? {
      EnqueueKeepsOrder(s, s.xmit.skb);
    } else {
      MoveKeepsOrder(s, PppNext(s, step));
    }
  }

  lemma EchoKeepsOrder(s: State, step: EchoStep)
    requires InOrder(s) && EchoEnabled(s, step)
    ensures InOrder(EchoNext(s, step))
  {
    if step.Reply? {
      EnqueueKeepsOrder(s, s.echo.skb);
    } else {
      MoveKeepsOrder(s, EchoNext(s, step));
    }
  }

  lemma CtlKeepsOrder(s: State, step: CtlStep)
    requires InOrder(s) && CtlEnabled(s, step)
    ensures InOrder(CtlNext(s, step))
  {
    match step
    case SendCtl(Accepted) => assert s.sent + [] == s.sent;
    case SendCtl(Failed) => PrefixOfOrder(s);
    case _ => MoveKeepsOrder(s, CtlNext(s, step));
  }

  lemma BatchBytesPush(batch: seq<Skb>, skb: Skb)
    ensures BatchBytes(batch + [skb]) == BatchBytes(batch) + WireLen(skb)
  {
    assert (batch + [skb])[..|batch|] == batch;
  }

  /** Batch caps, occupancy and who runs next. */
  ghost predicate Live(s: State) {
    BatchOk(s.worker) && Bounded(s) && Served(s) && HalfFull(s)
  }

  lemma PppKeepsLive(s: State, step: PppStep)
    requires Live(s) && PppEnabled(s, step)
    ensures Live(PppNext(s, step))
  {
    match step
    case Offer(_) =>
    case Call =>
    case Append =>
    case Kick =>
    case Refuse =>
    case Retry =>
  }

  lemma EchoKeepsLive(s: State, step: EchoStep)
    requires Live(s) && EchoEnabled(s, step)
    ensures Live(EchoNext(s, step))
  {
    match step
    case Request(_) =>
    case Reply =>
    case KickReply =>
  }

  /** Steps that touch neither the queue nor the worker nor a producer, and take no
      promise back. */
  lemma BystanderKeepsLive(s: State, t: State)
    requires Live(s)
    requires t.txQ == s.txQ && t.worker == s.worker && t.xmit == s.xmit && t.echo == s.echo && t.blocked == s.blocked
    requires WillRun(s) && !t.closing ==> WillRun(t)
    requires s.closing ==> t.closing
    requires s.broken || t.ctl.CAbort? ==> t.broken
    ensures Live(t)
  {
  }

  lemma CtlKeepsLive(s: State, step: CtlStep)
    requires Live(s) && CtlEnabled(s, step)
    ensures Live(CtlNext(s, step))
  {
    BystanderKeepsLive(s, CtlNext(s, step));
  }

  lemma TakeKeepsWeight(s: State)
    requires s.worker.Build? && Weighed(s.worker) && |s.txQ| > 0
    ensures Weighed(TakeNext(s).worker)
  {
    BatchBytesPush(s.worker.batch, s.txQ[0]);
  }

  lemma WorkKeepsWeight(s: State, step: WorkStep)
    requires Weighed(s.worker) && WorkEnabled(s, step)
    ensures Weighed(WorkNext(s, step).worker)
  {
    if step.Dequeue? && |s.worker.batch| < TX_BATCH_MAX && |s.txQ| > 0 {
      TakeKeepsWeight(s);
    }
  }

  /** Taking one packet from the queue into the hand changes none of the counts. */
  lemma TakeKeepsCounts(s: State)
    requires s.worker.Build? && |s.txQ| > 0
    ensures var t := TakeNext(s);
      && Held(t) == Held(s) && Looping(t.worker) && Drained(t.worker) == Drained(s.worker)
      && t == s.(txQ := t.txQ, worker := t.worker)
  {
  }

  /** The worker moves on with the counts as they are: into the loop, or towards a
      write-space callback, or on outside the loop. */
  lemma SameCountsLive(s: State, t: State)
    requires Live(s) && BatchOk(t.worker) && !t.worker.Abort?
    requires Held(t) == Held(s) && Drained(t.worker) == Drained(s.worker)
    requires Looping(t.worker) || t.owed || (!Looping(s.worker) && !s.worker.Abort?)
    requires t == s.(txQ := t.txQ, worker := t.worker, owed := t.owed) && (s.owed ==> t.owed)
    ensures Live(t)
  {
  }

  lemma TakeKeepsLive(s: State)
    requires Live(s) && s.worker.Build? && |s.worker.batch| < TX_BATCH_MAX && |s.txQ| > 0
    ensures Live(TakeNext(s))
  {
    TakeKeepsCounts(s);
    SameCountsLive(s, TakeNext(s));
  }

  lemma DequeueKeepsLive(s: State)
    requires Live(s) && s.worker.Build?
    ensures Live(DequeueNext(s))
  {
    if |s.worker.batch| < TX_BATCH_MAX && |s.txQ| > 0 {
      TakeKeepsLive(s);
    }
  }

  lemma TransmitKeepsLive(s: State, outcome: Outcome)
    requires Live(s) && s.worker.Send?
    ensures Live(TransmitNext(s, outcome))
  {
    match outcome
    case Accepted => AcceptedKeepsLive(s);
    case Again => SameCountsLive(s, TransmitNext(s, Again));
    case Failed =>
  }

  lemma AcceptedKeepsLive(s: State)
    requires Live(s) && s.worker.Send?
    ensures Live(TransmitNext(s, Accepted))
  {
    var t := TransmitNext(s, Accepted);
    assert Held(t) <= Held(s) && Drained(t.worker);
  }

  lemma ReHeadKeepsLive(s: State)
    requires Live(s) && s.worker.Unwind?
    ensures Live(ReHeadNext(s))
  {
    var t := ReHeadNext(s);
    assert Held(t) == Held(s) && BatchOk(t.worker);
    SameCountsLive(s, t);
  }

  /** Steps outside the send loop, and the top of it: the hand is empty. */
  lemma EmptyHandedKeepsLive(s: State, step: WorkStep)
    requires Live(s) && WorkEnabled(s, step)
    requires step.Start? || step.LoopTop? || step.SetClosing? || step.Finish? || step.Wakeup? || step.Pushed?
    ensures Live(WorkNext(s, step))
  {
    match step
    case Start =>
    case LoopTop =>
    case SetClosing =>
    case Finish =>
    case Wakeup =>
    case Pushed =>
  }

  lemma ReturnKeepsLive(s: State)
    requires Live(s) && s.worker.PutBack?
    ensures Live(WorkNext(s, Return))
  {
    SameCountsLive(s, WorkNext(s, Return));
  }

  lemma WorkKeepsLive(s: State, step: WorkStep)
    requires Live(s) && WorkEnabled(s, step)
    ensures Live(WorkNext(s, step))
  {
    match step
    case Dequeue => DequeueKeepsLive(s);
    case Transmit(outcome) => TransmitKeepsLive(s, outcome);
    case ReHead => ReHeadKeepsLive(s);
    case Return => ReturnKeepsLive(s);
    case _ => EmptyHandedKeepsLive(s, step);
  }

  lemma EnvironmentKeepsInv(s: State, step: Step)
    requires Inv(s) && (step.WriteSpace? || step.Close?)
    ensures Inv(Next(s, step))
  {
    MoveKeepsOrder(s, Next(s, step));
    BystanderKeepsLive(s, Next(s, step));
  }

  lemma PppKeepsInv(s: State, step: PppStep)
    requires Inv(s) && PppEnabled(s, step)
    ensures Inv(PppNext(s, step))
  {
    PppKeepsOrder(s, step);
    PppKeepsLive(s, step);
    assert PppNext(s, step).worker == s.worker && PppNext(s, step).wire == s.wire && PppNext(s, step).sent == s.sent;
  }

  lemma EchoKeepsInv(s: State, step: EchoStep)
    requires Inv(s) && EchoEnabled(s, step)
    ensures Inv(EchoNext(s, step))
  {
    EchoKeepsOrder(s, step);
    EchoKeepsLive(s, step);
    assert EchoNext(s, step).worker == s.worker && EchoNext(s, step).wire == s.wire && EchoNext(s, step).sent == s.sent;
  }

  lemma WorkKeepsInv(s: State, step: WorkStep)
    requires Inv(s) && WorkEnabled(s, step)
    ensures Inv(WorkNext(s, step))
  {
    WorkKeepsOrder(s, step);
    WorkKeepsRecord(s, step);
    WorkKeepsWeight(s, step);
    WorkKeepsLive(s, step);
  }

  lemma CtlKeepsInv(s: State, step: CtlStep)
    requires Inv(s) && CtlEnabled(s, step)
    ensures Inv(CtlNext(s, step))
  {
    CtlKeepsOrder(s, step);
    CtlKeepsRecord(s, step);
    CtlKeepsLive(s, step);
    assert CtlNext(s, step).worker == s.worker;
  }

  lemma InvKept(s: State, step: Step)
    requires Inv(s) && Enabled(s, step)
    ensures Inv(Next(s, step))
  {
    match step
    case Ppp(p) => PppKeepsInv(s, p);
    case Responder(e) => EchoKeepsInv(s, e);
    case Work(w) => WorkKeepsInv(s, w);
    case Control(c) => CtlKeepsInv(s, c);
    case _ => EnvironmentKeepsInv(s, step);
  }

  lemma {:induction false} InvAlongRun(s: State, steps: seq<Step>, t: State)
    requires Inv(s) && Run(s, steps, t)
    ensures Inv(t)
    decreases |steps|
  {
    if steps != [] {
      InvKept(s, steps[0]);
      InvAlongRun(Next(s, steps[0]), steps[1..], t);
    }
  }

  lemma InvHolds(steps: seq<Step>, t: State)
    requires Run(Init(), steps, t)
    ensures Inv(t)
  {
    InvAlongRun(Init(), steps, t);
  }

  // ---------------------------------------------------------------------------
  // Main results: every reachable state
  // ---------------------------------------------------------------------------

  /** No stalled sender. While the session is open, if a packet waits in the queue or
      ppp_generic holds one, then the worker is running, or is about to be run; past its
      last look into the queue only the latter will do. And when the worker is idle with
      a packet held, half the cap is queued. */
  lemma NoStalledSender(steps: seq<Step>, s: State)
    requires Run(Init(), steps, s) && !s.closing
    ensures s.txQ != [] || Holding(s) ==> !s.worker.Idle? || WillRun(s)
    ensures s.txQ != [] && !Looping(s.worker) && !s.worker.Abort? ==> WillRun(s)
    ensures s.worker.Idle? && Holding(s) ==> |s.txQ| >= TX_Q_CAP / 2
  {
    InvHolds(steps, s);
  }

  /** Occupancy: the queue and the batch together never exceed 64 + 8 + 1, and a batch
      handed to the socket has one to eight frames and at most 14336 bytes. */
  lemma OccupancyBound(steps: seq<Step>, s: State)
    requires Run(Init(), steps, s)
    ensures |s.txQ| + |Hand(s.worker)| <= 73
    ensures s.worker.Send? ==>
      0 < |s.worker.batch| <= 8 && BatchBytes(s.worker.batch) == s.worker.total <= 14336
  {
    InvHolds(steps, s);
  }

  /** The frames on the wire, as framed by their senders. */
  function Frames(wire: seq<Sent>): (r: seq<Frame>)
    ensures |r| == |wire|
  {
    seq(|wire|, i requires 0 <= i < |wire| => SentFrame(wire[i]))
  }

  /** Order and round trip. Up to the first failed send the data frames on the wire are
      a prefix of the append order (all of it but what is queued or in hand), and the
      receiver's demultiplexer gives the frames back if and only if each of them fits
      the 12-bit length field. */
  lemma WireInOrderAndReadable(steps: seq<Step>, s: State)
    requires Run(Init(), steps, s)
    ensures DataOf(s.wire) <= s.appended
    ensures !s.broken ==> DataOf(s.wire) + (Hand(s.worker) + s.txQ) == s.appended
    ensures var fs := Frames(s.wire);
      (Reassembly.ParseStream(KernelParse, EncodeAll(fs)) == Reassembly.Parsed(fs, [], None))
      <==> forall i :: 0 <= i < |fs| ==> FrameLen(fs[i]) <= MAX_PACKET_LEN
  {
    InvHolds(steps, s);
    PrefixOfOrder(s);
    EncodedStreamParses(Frames(s.wire));
  }
}
