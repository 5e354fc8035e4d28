/** Control frames and the events that announce them, across the kernel and the
    session task. The receive worker queues a frame and only then emits its event;
    three parties can emit a terminal event; the session reads the event ring dry and
    then fetches one frame per control event. All of these interleave. */
module ControlPairing {
  import opened Bytes
  import opened Rings

  /** Who can fail the session: the receive worker, the transmit worker and the
      SEND_CONTROL ioctl. Each looks at `closing` first, and after a failure emits
      its event before it sets `closing`. */
  datatype Party = Rx | Tx | Ioctl

  datatype Pc = Outside | Inside | Emitted

  datatype State = State(
    ctrlQ: seq<Skb>,
    ring: seq<Event>,
    dropped: nat,
    unannounced: Option<nat>,   // receive worker: frame queued, event still to be emitted
    pc: map<Party, Pc>,
    closing: bool,
    batch: seq<Event>,          // read by the session, not handled yet
    reading: bool,              // the session is draining the ring
    ended: bool,                // the session task has returned
    failed: set<Party>,         // history: who has emitted a terminal event
    queued: seq<Skb>,           // history: frames accepted into the control queue
    handled: seq<(nat, Option<Skb>)>)  // history: event argument and frame taken off the queue for it

  datatype Step =
    | Enter(party: Party)
    | Leave(party: Party)
    | Fail(party: Party, event: Event)
    | SetClosing(party: Party)
    | Detach
    | QueueFrame(skb: Skb, gotSkb: bool)
    | Announce
    | ReadEvent
    | ReadDone
    | HandleEvent
    | NextRound

  function Init(): State {
    State([], [], 0, None, map[Rx := Outside, Tx := Outside, Ioctl := Outside], false, [], true, false, {}, [], [])
  }

  predicate Enabled(s: State, step: Step) {
    match step
    case Enter(p) => p in s.pc && s.pc[p].Outside? && !s.closing
    case Leave(p) => p in s.pc && s.pc[p].Inside? && (p.Rx? ==> s.unannounced.None?)
    case Fail(p, e) => p in s.pc && s.pc[p].Inside? && (p.Rx? ==> s.unannounced.None?) && !e.kind.ControlPacket?
    case SetClosing(p) => p in s.pc && s.pc[p].Emitted?
    case Detach => true
    case QueueFrame(_, _) => Rx in s.pc && s.pc[Rx].Inside? && s.unannounced.None?
    case Announce => s.unannounced.Some?
    case ReadEvent => !s.ended && s.reading && s.ring != []
    case ReadDone => !s.ended && s.reading && s.ring == []
    case HandleEvent => !s.ended && !s.reading && s.batch != []
    case NextRound => !s.ended && !s.reading && s.batch == []
  }

  function Emit(s: State, e: Event): State {
    s.(ring := EmitTo(s.ring, e), dropped := s.dropped + (if EventsFull(s.ring) then 1 else 0))
  }

  function Next(s: State, step: Step): State
    requires Enabled(s, step)
  {
    match step
    case Enter(p) => s.(pc := s.pc[p := Inside])
    case Leave(p) => s.(pc := s.pc[p := Outside])
    case Fail(p, e) => Emit(s, e).(pc := s.pc[p := Emitted], failed := s.failed + {p})
    case SetClosing(p) => s.(closing := true, pc := s.pc[p := Outside])
    case Detach => s.(closing := true)
    case QueueFrame(skb, gotSkb) =>
      if gotSkb && |s.ctrlQ| < CTRL_Q_CAP - 1 then
        s.(ctrlQ := EnqueueTo(s.ctrlQ, skb), unannounced := Some(|skb.data|), queued := s.queued + [skb])
      else
        s
    case Announce => Emit(s, Event(ControlPacket, s.unannounced.value)).(unannounced := None)
    case ReadEvent => s.(batch := s.batch + [s.ring[0]], ring := s.ring[1..])
    case ReadDone => s.(reading := false)
    case HandleEvent =>
      var e := s.batch[0];
      if !e.kind.ControlPacket? then
        s.(ended := true)
      else if s.ctrlQ == [] then
        s.(batch := s.batch[1..], handled := s.handled + [(e.arg, None)])
      else
        s.(batch := s.batch[1..], ctrlQ := s.ctrlQ[1..], handled := s.handled + [(e.arg, Some(s.ctrlQ[0]))])
    case NextRound => s.(reading := true)
  }

  /** What the session gets for the frame that RECV_CONTROL took off the queue: a length
      of zero means no frame to it, so an empty body is taken and passed over. */
  function Shown(taken: Option<Skb>): Option<Skb> {
    if taken.Some? && |taken.value.data| == 0 then None else taken
  }

  ghost predicate Reachable(s: State, steps: seq<Step>)
    decreases |steps|
  {
    if steps == [] then s == Init()
    else
      var last := steps[|steps| - 1];
      exists prev :: Reachable(prev, steps[..|steps| - 1]) && Enabled(prev, last) && s == Next(prev, last)
  }

  // ---------------------------------------------------------------------------
  // Invariant
  // ---------------------------------------------------------------------------

  /** Arguments of the control events, in order. */
  function Args(es: seq<Event>): (r: seq<nat>)
    ensures |r| <= |es|
  {
    if es == [] then []
    else Arg(es[0]) + Args(es[1..])
  }

  function Arg(e: Event): (r: seq<nat>)
    ensures |r| <= 1
  {
    if e.kind.ControlPacket? then [e.arg] else []
  }

  function Lengths(q: seq<Skb>): (r: seq<nat>)
    ensures |r| == |q|
  {
    seq(|q|, i requires 0 <= i < |q| => |q[i].data|)
  }

  function Unannounced(s: State): seq<nat> {
    if s.unannounced.Some? then [s.unannounced.value] else []
  }

  function Fetched(handled: seq<(nat, Option<Skb>)>): seq<Skb>
    requires forall i :: 0 <= i < |handled| ==> handled[i].1.Some?
  {
    seq(|handled|, i requires 0 <= i < |handled| => handled[i].1.value)
  }

  /** Every frame in the control queue is announced, in order, by one event that the
      session still has to handle; the last may be about to be announced. */
  ghost predicate Paired(s: State) {
    Lengths(s.ctrlQ) == Args(s.batch) + (Args(s.ring) + Unannounced(s))
  }

  /** A party fails at most once: after that `closing` keeps it out. */
  ghost predicate FailsOnce(s: State) {
    && s.pc.Keys == {Rx, Tx, Ioctl}
    && (forall p :: p in s.pc && s.pc[p].Inside? ==> p !in s.failed)
    && (forall p :: p in s.failed ==> p in s.pc && (s.pc[p].Emitted? || s.closing))
    && |s.ring| <= |Args(s.ring)| + |s.failed|
  }

  ghost predicate History(s: State) {
    && (forall i :: 0 <= i < |s.handled| ==> s.handled[i].1.Some? && |s.handled[i].1.value.data| == s.handled[i].0)
    && Fetched(s.handled) + s.ctrlQ == s.queued
  }

  ghost predicate Inv(s: State) {
    && |s.ctrlQ| < CTRL_Q_CAP
    && s.dropped == 0
    && Paired(s) && FailsOnce(s) && History(s)
  }

  lemma {:induction false} ArgsAppend(a: seq<Event>, b: seq<Event>)
    ensures Args(a + b) == Args(a) + Args(b)
  {
    if a == [] {
      assert a + b == b;
    } else {
      ArgsAppend(a[1..], b);
      assert (a + b)[1..] == a[1..] + b && (a + b)[0] == a[0];
      Assoc(Arg(a[0]), Args(a[1..]), Args(b));
    }
  }

  lemma FailedBound(s: State)
    requires FailsOnce(s)
    ensures |s.failed| <= 3
  {
    var all := {Rx, Tx, Ioctl};
    assert s.failed <= all;
    SubsetSize(s.failed, all);
  }

  lemma {:induction false} SubsetSize<T>(a: set<T>, b: set<T>)
    requires a <= b
    ensures |a| <= |b|
  {
    if a != {} {
      var x :| x in a;
      SubsetSize(a - {x}, b - {x});
    }
  }

  /** The ring never holds more than the seven control events there are frames for
      and one terminal event per party. */
  lemma RingHasRoom(s: State)
    requires Inv(s)
    ensures |s.ring| <= (CTRL_Q_CAP - 1) + 3 && !EventsFull(s.ring)
  {
    FailedBound(s);
    assert |Lengths(s.ctrlQ)| == |Args(s.batch) + (Args(s.ring) + Unannounced(s))|;
  }

  lemma EmitAppends(s: State, e: Event)
    requires Inv(s)
    ensures Emit(s, e) == s.(ring := s.ring + [e])
    ensures Args(s.ring + [e]) == Args(s.ring) + Arg(e)
  {
    RingHasRoom(s);
    ArgsAppend(s.ring, [e]);
    assert Args([e]) == Arg(e) + Args([]) == Arg(e);
  }

  lemma StepFail(s: State, p: Party, e: Event)
    requires Inv(s) && Enabled(s, Fail(p, e))
    ensures Inv(Next(s, Fail(p, e)))
  {
    EmitAppends(s, e);
    var t := Next(s, Fail(p, e));
    assert Args(s.ring) + [] == Args(s.ring);
    assert |t.failed| == |s.failed| + 1;
  }

  lemma StepAnnounce(s: State)
    requires Inv(s) && Enabled(s, Announce)
    ensures Inv(Next(s, Announce))
  {
    var n := s.unannounced.value;
    EmitAppends(s, Event(ControlPacket, n));
    assert (Args(s.ring) + [n]) + [] == Args(s.ring) + [n];
  }

  lemma StepQueue(s: State, skb: Skb, gotSkb: bool)
    requires Inv(s) && Enabled(s, QueueFrame(skb, gotSkb))
    ensures Inv(Next(s, QueueFrame(skb, gotSkb)))
  {
    if gotSkb && |s.ctrlQ| < CTRL_Q_CAP - 1 {
      assert Lengths(s.ctrlQ + [skb]) == Lengths(s.ctrlQ) + [|skb.data|];
      assert Args(s.ring) + [] == Args(s.ring);
      Assoc(Args(s.batch), Args(s.ring), [|skb.data|]);
      Assoc(Fetched(s.handled), s.ctrlQ, [skb]);
    }
  }

  lemma StepRead(s: State)
    requires Inv(s) && Enabled(s, ReadEvent)
    ensures Inv(Next(s, ReadEvent))
  {
    var e := s.ring[0];
    var one := Arg(e);
    ArgsAppend(s.batch, [e]);
    assert Args([e]) == one + Args([]) == one;
    assert Args(s.ring) == one + Args(s.ring[1..]);
    Assoc(one, Args(s.ring[1..]), Unannounced(s));
    Assoc(Args(s.batch), one, Args(s.ring[1..]) + Unannounced(s));
  }

  lemma HeadOf(all: seq<nat>, first: nat, rest: seq<nat>)
    requires all == [first] + rest
    ensures |all| > 0 && all[0] == first && all[1..] == rest
  {
  }

  /** The control event at the head of the batch announces the frame at the head of
      the queue. */
  lemma HeadMatches(s: State)
    requires Paired(s) && s.batch != [] && s.batch[0].kind.ControlPacket?
    ensures s.ctrlQ != [] && |s.ctrlQ[0].data| == s.batch[0].arg
    ensures Lengths(s.ctrlQ[1..]) == Args(s.batch[1..]) + (Args(s.ring) + Unannounced(s))
  {
    var arg, later := s.batch[0].arg, Args(s.ring) + Unannounced(s);
    Assoc([arg], Args(s.batch[1..]), later);
    HeadOf(Lengths(s.ctrlQ), arg, Args(s.batch[1..]) + later);
    assert Lengths(s.ctrlQ[1..]) == Lengths(s.ctrlQ)[1..];
  }

  lemma FetchNext(s: State)
    requires History(s) && s.batch != [] && s.ctrlQ != [] && |s.ctrlQ[0].data| == s.batch[0].arg
    ensures History(s.(ctrlQ := s.ctrlQ[1..], handled := s.handled + [(s.batch[0].arg, Some(s.ctrlQ[0]))]))
  {
    var handled := s.handled + [(s.batch[0].arg, Some(s.ctrlQ[0]))];
    assert Fetched(handled) == Fetched(s.handled) + [s.ctrlQ[0]];
    assert s.ctrlQ == [s.ctrlQ[0]] + s.ctrlQ[1..];
    Assoc(Fetched(s.handled), [s.ctrlQ[0]], s.ctrlQ[1..]);
  }

  lemma StepHandle(s: State)
    requires Inv(s) && Enabled(s, HandleEvent)
    ensures Inv(Next(s, HandleEvent))
  {
    if s.batch[0].kind.ControlPacket? {
      HeadMatches(s);
      FetchNext(s);
    }
  }

  lemma InvPreserved(s: State, step: Step)
    requires Inv(s) && Enabled(s, step)
    ensures Inv(Next(s, step))
  {
    match step
    case Fail(p, e) => StepFail(s, p, e);
    case Announce => StepAnnounce(s);
    case QueueFrame(skb, gotSkb) => StepQueue(s, skb, gotSkb);
    case ReadEvent => StepRead(s);
    case HandleEvent => StepHandle(s);
    case _ =>
  }

  lemma {:induction false} InvHolds(s: State, steps: seq<Step>)
    requires Reachable(s, steps)
    ensures Inv(s)
    decreases |steps|
  {
    if steps != [] {
      var last := steps[|steps| - 1];
      var prev :| Reachable(prev, steps[..|steps| - 1]) && Enabled(prev, last) && s == Next(prev, last);
      InvHolds(prev, steps[..|steps| - 1]);
      InvPreserved(prev, last);
    }
  }

  /** In every run: no event is ever dropped, the ring always has room, the frames
      fetched are the frames queued, in order, none missing, and the i-th control
      event handled carries the length of the i-th frame, which the session is shown unless
      it is empty. */
  lemma EventsAndFramesStayPaired(s: State, steps: seq<Step>)
    requires Reachable(s, steps)
    ensures s.dropped == 0 && |s.ring| <= 10
    ensures |s.handled| <= |s.queued|
    ensures forall i :: 0 <= i < |s.handled| ==> s.handled[i] == (|s.queued[i].data|, Some(s.queued[i]))
    ensures forall i :: 0 <= i < |s.handled| ==> (Shown(s.handled[i].1).None? <==> s.handled[i].0 == 0)
    ensures |s.ctrlQ| == |Args(s.batch)| + |Args(s.ring)| + (if s.unannounced.Some? then 1 else 0)
  {
    InvHolds(s, steps);
    RingHasRoom(s);
    assert |Lengths(s.ctrlQ)| == |Args(s.batch) + (Args(s.ring) + Unannounced(s))|;
    forall i | 0 <= i < |s.handled|
      ensures s.handled[i] == (|s.queued[i].data|, Some(s.queued[i]))
    {
      assert s.queued[i] == Fetched(s.handled)[i];
    }
  }
}
