/** The transmit path never wedges: from every reachable open state, if the socket
    takes what it is given and owed callbacks arrive, the steps already under way carry
    every packet to the wire, in whatever order they are taken. */
module TxProgress {
  import opened Bytes
  import opened SstpFraming
  import opened TxMachine

  /** Nothing is left to send and nobody is in the middle of anything. */
  predicate Quiet(s: State) {
    && |s.txQ| == 0 && |s.backlog| == 0 && !Holding(s)
    && s.worker.Idle? && s.xmit.XIdle? && s.echo.EIdle? && s.ctl.CIdle?
  }

  /** Steps that bring in nothing new and in which no send is refused or fails. */
  predicate Ordinary(step: Step) {
    match step
    case Ppp(p) => !p.Offer? && !p.Retry?
    case Responder(e) => !e.Request?
    case Work(w) => w.Transmit? ==> w.outcome.Accepted?
    case Control(c) => c == SendCtl(Accepted)
    case WriteSpace => true
    case Close => false
  }

  /** The next step of whoever is furthest along. */
  function Pick(s: State): Step {
    match s.xmit
    case XPassed(_) => Ppp(Append)
    case XAppended => Ppp(Kick)
    case XRefused(_) => Ppp(Refuse)
    case XIdle =>
      if s.echo.EPassed? then Responder(Reply)
      else if s.echo.EAppended? then Responder(KickReply)
      else if s.ctl.CReady? then Control(SendCtl(Accepted))
      else if !s.worker.Idle? then PickWork(s)
      else if s.pending then Work(Start)
      else if s.owed then WriteSpace
      else Ppp(Call)
  }

  function PickWork(s: State): Step {
    match s.worker
    case Top(_, _) => Work(LoopTop)
    case Build(_, _, _, _) => Work(Dequeue)
    case PutBack(_, _, _, _, _) => Work(Return)
    case Send(_, _, _, _) => Work(Transmit(Accepted))
    case Unwind(_, _) => Work(ReHead)
    case Abort(_) => Work(SetClosing)
    case Tail(_) => Work(Finish)
    case Wake => Work(Wakeup)
    case Push => if !s.blocked && |s.backlog| > 0 then Ppp(Call) else Work(Pushed)
    case Idle => Work(Start)
  }

  // ---------------------------------------------------------------------------
  // What gets smaller
  // ---------------------------------------------------------------------------

  /** Packets that are not on the wire. */
  function Unsent(s: State): nat {
    |s.backlog| + Held(s) + (if s.xmit.XPassed? || s.xmit.XRefused? then 1 else 0) + (if s.echo.EPassed? then 1 else 0)
  }

  /** A wakeup is still to come in this run of the worker. */
  function WakeupAhead(s: State): nat {
    if Drained(s.worker) then 1 else 0
  }

  function XmitWork(s: State): nat {
    4 * |s.backlog| + (if s.blocked then 0 else 10) +
    match s.xmit
    case XPassed(_) => 3
    case XRefused(_) => 3
    case XAppended => 2
    case XIdle => 0
  }

  function OtherWork(s: State): nat {
    (if s.echo.EPassed? then 2 else if s.echo.EAppended? then 1 else 0) + (if s.ctl.CReady? then 1 else 0)
  }

  function Wakeups(s: State): nat {
    (if s.owed then 2 else 0) + (if s.pending then 1 else 0)
  }

  function WorkerRank(w: Worker): nat {
    match w
    case Top(_, _) => 40
    case Build(batch, _, _, _) => if |batch| <= 8 then 30 - |batch| else 0
    case PutBack(_, _, _, _, _) => 21
    case Send(_, _, _, _) => 20
    case Unwind(batch, _) => 10 + |batch|
    case Abort(_) => 4
    case Tail(_) => 3
    case Wake => 2
    case Push => 1
    case Idle => 0
  }

  /** Lexicographic order on the six measures. */
  predicate Smaller(t: State, s: State) {
    || Unsent(t) < Unsent(s)
    || (Unsent(t) == Unsent(s) &&
        (|| WakeupAhead(t) < WakeupAhead(s)
         || (WakeupAhead(t) == WakeupAhead(s) &&
             (|| XmitWork(t) < XmitWork(s)
              || (XmitWork(t) == XmitWork(s) &&
                  (|| OtherWork(t) < OtherWork(s)
                   || (OtherWork(t) == OtherWork(s) &&
                       (|| Wakeups(t) < Wakeups(s)
                        || (Wakeups(t) == Wakeups(s) && WorkerRank(t.worker) < WorkerRank(s.worker))))))))))
  }

  predicate Open(s: State) {
    !s.closing && !s.broken
  }

  /** The picked step can be taken, is ordinary, keeps the session open and gets
      closer to quiet. */
  ghost predicate Advances(s: State, step: Step) {
    Enabled(s, step) && Ordinary(step) && Open(Next(s, step)) && Smaller(Next(s, step), s)
  }

  lemma XmitAdvances(s: State)
    requires Live(s) && Open(s) && !s.xmit.XIdle?
    ensures Advances(s, Pick(s))
  {
  }

  lemma CallAdvances(s: State)
    requires Live(s) && Open(s) && s.xmit.XIdle? && !s.blocked && |s.backlog| > 0
    ensures Advances(s, Ppp(Call))
  {
    var t := CallNext(s);
    assert t.worker == s.worker && t.txQ == s.txQ && t.echo == s.echo && |t.backlog| == |s.backlog| - 1;
    assert Held(t) == Held(s) && XmitWork(t) < XmitWork(s);
    assert Unsent(t) <= Unsent(s);
  }

  /** The worker moves on and nothing else changes but where the packets lie. */
  lemma RankDown(s: State, t: State)
    requires t == s.(txQ := t.txQ, worker := t.worker)
    requires Held(t) == Held(s) && Drained(t.worker) == Drained(s.worker)
    requires WorkerRank(t.worker) < WorkerRank(s.worker)
    ensures Smaller(t, s)
  {
  }

  lemma DequeueAdvances(s: State)
    requires Live(s) && Open(s) && s.worker.Build?
    ensures Advances(s, Work(Dequeue))
  {
    var t := DequeueNext(s);
    if |s.worker.batch| < TX_BATCH_MAX && |s.txQ| > 0 {
      TakeKeepsCounts(s);
    }
    assert Held(t) == Held(s) && Drained(t.worker) == Drained(s.worker) && WorkerRank(t.worker) < WorkerRank(s.worker);
    RankDown(s, t);
  }

  lemma SendAdvances(s: State)
    requires Live(s) && Open(s) && s.worker.Send?
    ensures Advances(s, Work(Transmit(Accepted)))
  {
  }

  lemma BackToQueueAdvances(s: State)
    requires Live(s) && Open(s) && (s.worker.PutBack? || s.worker.Unwind?)
    ensures Advances(s, PickWork(s))
  {
    if s.worker.PutBack? {
      RankDown(s, WorkNext(s, Return));
    } else {
      RankDown(s, ReHeadNext(s));
    }
  }

  lemma RestartAdvances(s: State)
    requires Live(s) && Open(s) && s.worker.Idle?
    ensures s.pending ==> Advances(s, Work(Start))
    ensures !s.pending && s.owed ==> Advances(s, WriteSpace)
  {
  }

  // ---------------------------------------------------------------------------
  // Nothing is lost on the way
  // ---------------------------------------------------------------------------

  /** A packet handed over by ppp_generic that is still its own, is being appended, or
      has been appended. */
  ghost predicate Tracked(s: State, skb: Buffer) {
    || skb in s.backlog
    || ((s.xmit.XPassed? || s.xmit.XRefused?) && s.xmit.skb == skb)
    || skb in s.appended
  }

  lemma PppKeepsTrack(s: State, step: PppStep, skb: Buffer)
    requires PppEnabled(s, step) && Open(s) && Fits(skb) && Tracked(s, skb)
    ensures Tracked(PppNext(s, step), skb)
  {
    match step
    case Call =>
      assert s.backlog == [s.backlog[0]] + s.backlog[1..];
    case _ =>
  }

  lemma TransmitLeavesPpp(s: State, outcome: Outcome)
    requires s.worker.Send?
    ensures var t := TransmitNext(s, outcome);
      t.appended == s.appended && t.backlog == s.backlog && t.xmit == s.xmit
  {
    match outcome
    case Accepted => case Again => case Failed =>
  }

  lemma WorkLeavesPpp(s: State, step: WorkStep)
    requires WorkEnabled(s, step)
    ensures var t := WorkNext(s, step);
      t.appended == s.appended && t.backlog == s.backlog && t.xmit == s.xmit
  {
    match step
    case Start =>
    case LoopTop =>
    case Dequeue =>
    case Return =>
    case Transmit(outcome) => TransmitLeavesPpp(s, outcome);
    case ReHead =>
    case SetClosing =>
    case Finish =>
    case Wakeup =>
    case Pushed =>
  }

  lemma EchoLeavesPpp(s: State, step: EchoStep)
    requires EchoEnabled(s, step)
    ensures var t := EchoNext(s, step);
      s.appended <= t.appended && t.backlog == s.backlog && t.xmit == s.xmit
  {
  }

  lemma StepKeepsTrack(s: State, step: Step, skb: Buffer)
    requires Enabled(s, step) && Open(s) && Fits(skb) && Tracked(s, skb)
    ensures Tracked(Next(s, step), skb)
  {
    match step
    case Ppp(p) => PppKeepsTrack(s, p, skb);
    case Work(w) => WorkLeavesPpp(s, w);
    case Responder(e) => EchoLeavesPpp(s, e);
    case _ =>
  }

  // ---------------------------------------------------------------------------
  // Every ordinary step advances
  // ---------------------------------------------------------------------------

  /** An ordinary step that can be taken; a write-space callback only if one is owed. */
  predicate Busy(s: State, step: Step) {
    Enabled(s, step) && Ordinary(step) && (step.WriteSpace? ==> s.owed)
  }

  lemma PppAdvances(s: State, step: PppStep)
    requires Live(s) && Open(s) && PppEnabled(s, step) && Ordinary(Ppp(step))
    ensures Advances(s, Ppp(step))
  {
    match step
    case Call => CallAdvances(s);
    case Append => XmitAdvances(s);
    case Kick => XmitAdvances(s);
    case Refuse => XmitAdvances(s);
  }

  lemma EchoAdvances(s: State, step: EchoStep)
    requires Live(s) && Open(s) && EchoEnabled(s, step) && !step.Request?
    ensures Advances(s, Responder(step))
  {
    var t := EchoNext(s, step);
    assert t.worker == s.worker && t.xmit == s.xmit && t.backlog == s.backlog && t.blocked == s.blocked;
    assert Unsent(t) == Unsent(s) && OtherWork(t) < OtherWork(s);
  }

  lemma ControlAdvances(s: State)
    requires Live(s) && Open(s) && s.ctl.CReady?
    ensures Advances(s, Control(SendCtl(Accepted)))
  {
    var t := CtlNext(s, SendCtl(Accepted));
    assert t == s.(wire := t.wire, sent := t.sent, ctl := CIdle);
  }

  lemma WorkAdvances(s: State, step: WorkStep)
    requires Live(s) && Open(s) && WorkEnabled(s, step) && Ordinary(Work(step))
    ensures Advances(s, Work(step))
  {
    match step
    case Start => RestartAdvances(s);
    case LoopTop => TopAdvances(s);
    case Dequeue => DequeueAdvances(s);
    case Return => BackToQueueAdvances(s);
    case Transmit(_) => SendAdvances(s);
    case ReHead => BackToQueueAdvances(s);
    case SetClosing => assert false;
    case Finish => EndAdvances(s, step);
    case Wakeup => EndAdvances(s, step);
    case Pushed => EndAdvances(s, step);
  }

  lemma TopAdvances(s: State)
    requires Live(s) && Open(s) && s.worker.Top?
    ensures Advances(s, Work(LoopTop))
  {
    RankDown(s, WorkNext(s, LoopTop));
  }

  lemma EndAdvances(s: State, step: WorkStep)
    requires Live(s) && Open(s) && WorkEnabled(s, step) && (step.Finish? || step.Wakeup? || step.Pushed?)
    ensures Advances(s, Work(step))
  {
    match step
    case Finish => case Wakeup => case Pushed =>
  }

  /** Whichever ordinary step is taken, the session stays open and gets closer to quiet. */
  lemma BusyAdvances(s: State, step: Step)
    requires Live(s) && Open(s) && Busy(s, step)
    ensures Advances(s, step)
  {
    match step
    case Ppp(p) => PppAdvances(s, p);
    case Responder(e) => EchoAdvances(s, e);
    case Work(w) => WorkAdvances(s, w);
    case Control(c) => ControlAdvances(s);
    case WriteSpace =>
      var t := Next(s, WriteSpace);
      assert t == s.(owed := false, pending := true);
  }

  // ---------------------------------------------------------------------------
  // Every schedule
  // ---------------------------------------------------------------------------

  /** The state after `n` choices; a choice that cannot be taken changes nothing. */
  ghost function At(s: State, choose: nat -> Step, n: nat): State {
    if n == 0 then s else Taken(At(s, choose, n - 1), choose(n - 1))
  }

  function Taken(t: State, step: Step): State {
    if Busy(t, step) then Next(t, step) else t
  }

  /** The schedule takes some ordinary step as long as the state is not quiet. */
  ghost predicate KeepsGoing(s: State, choose: nat -> Step) {
    forall n: nat :: Quiet(At(s, choose, n)) || Busy(At(s, choose, n), choose(n))
  }

  lemma {:induction false} GetsQuiet(s: State, choose: nat -> Step, n: nat, skb: Buffer) returns (m: nat)
    requires KeepsGoing(s, choose)
    requires Inv(At(s, choose, n)) && Open(At(s, choose, n))
    ensures var t := At(s, choose, m); Quiet(t) && Inv(t) && Open(t)
    ensures Fits(skb) && Tracked(At(s, choose, n), skb) ==> Tracked(At(s, choose, m), skb)
    decreases Unsent(At(s, choose, n)), WakeupAhead(At(s, choose, n)), XmitWork(At(s, choose, n)),
      OtherWork(At(s, choose, n)), Wakeups(At(s, choose, n)), WorkerRank(At(s, choose, n).worker)
  {
    var t, step := At(s, choose, n), choose(n);
    if Quiet(t) {
      return n;
    }
    BusyAdvances(t, step);
    InvKept(t, step);
    if Fits(skb) && Tracked(t, skb) {
      StepKeepsTrack(t, step, skb);
    }
    assert At(s, choose, n + 1) == Next(t, step);
    m := GetsQuiet(s, choose, n + 1, skb);
  }

  /** Progress. From every reachable open state, every schedule that keeps taking ordinary
      steps, in any order, gets to a quiet state in which everything ever appended is on
      the wire, in order; and a packet that ppp_generic had, if it fits a frame, is among
      it. */
  lemma EveryPacketGetsOut(history: seq<Step>, s: State, choose: nat -> Step, skb: Buffer)
    requires Run(Init(), history, s) && Open(s) && KeepsGoing(s, choose)
    ensures exists n :: var t := At(s, choose, n);
      Quiet(t) && DataOf(t.wire) == t.appended && (Fits(skb) && Tracked(s, skb) ==> skb in DataOf(t.wire))
  {
    InvHolds(history, s);
    assert At(s, choose, 0) == s;
    var n := GetsQuiet(s, choose, 0, skb);
    var t := At(s, choose, n);
    assert t.sent + (Hand(t.worker) + t.txQ) == t.sent;
  }

  /** A schedule can always go on: in an open state that is not quiet some ordinary step can
      be taken. This is where the absence of stalled states is used. */
  lemma SomebodyCanMove(s: State)
    requires Live(s) && Open(s) && !Quiet(s)
    ensures Busy(s, Pick(s))
  {
  }
}
