/** Whole runs of the automaton: what Opened means, when the layer goes up and down,
    giving up, and when the restart timer covers a negotiation. */
module FsmRuns {
  import opened Bytes
  import opened Fsm

  /** The automaton with the history of one run. */
  datatype Trace = Trace(
    fsm: Fsm,
    acked: bool,       // the last Configure-Ack, Nak or Reject sent was an Ack
    confirmed: bool,   // a Configure-Ack came in after the last Configure-Request sent
    armed: bool,       // the restart timer is running
    covered: bool,     // it was running in every negotiating state so far
    ups: nat,
    downs: nat)

  function Fresh(): Trace {
    Trace(New(), false, false, false, true, 0, 0)
  }

  function AckedAfter(before: bool, out: StepOut): bool {
    if Emits(out, ConfigureAck) then true else if Emits(out, ConfigureNak) then false else before
  }

  function ConfirmedAfter(before: bool, event: Event, out: StepOut): bool {
    if Emits(out, ConfigureRequest) then false else before || event.RcvConfigAck?
  }

  function ArmedAfter(before: bool, event: Event, out: StepOut): bool {
    match out.timer
    case Some(Start) => true
    case Some(Stop) => false
    case None => before && !event.RestartTimeout?
  }

  /** The restart timer fires only while it runs. */
  predicate CanHappen(t: Trace, event: Event) {
    event.RestartTimeout? ==> t.armed
  }

  function Advance(t: Trace, event: Event): Trace {
    var (f, out) := Step(t.fsm, event);
    var armed := ArmedAfter(t.armed, event, out);
    Trace(f, AckedAfter(t.acked, out), ConfirmedAfter(t.confirmed, event, out), armed,
          t.covered && (Negotiating(f.state) ==> armed),
          t.ups + (if out.notify.up then 1 else 0), t.downs + (if out.notify.down then 1 else 0))
  }

  /** `t` is reached by a run over `events`. */
  ghost predicate Reaches(s: Trace, events: seq<Event>, t: Trace)
    decreases |events|
  {
    if events == [] then s == t
    else CanHappen(s, events[0]) && Reaches(Advance(s, events[0]), events[1..], t)
  }

  /** Opened and the half-open states mean what they say, and the layer is up exactly in
      Opened. */
  predicate Sound(t: Trace) {
    && (t.fsm.state.AckSent? || t.fsm.state.Opened? ==> t.acked)
    && (t.fsm.state.AckRcvd? || t.fsm.state.Opened? ==> t.confirmed)
    && t.ups == t.downs + (if t.fsm.state.Opened? then 1 else 0)
    && t.fsm.restart <= MAX_CONFIGURE
  }

  lemma RequestKeepsSound(t: Trace, good: bool)
    requires Sound(t)
    ensures Sound(Advance(t, if good then RcvConfigReqGood else RcvConfigReqBad))
  {
    match t.fsm.state
    case Initial => case Starting => case Closed => case Stopped => case Closing =>
    case Stopping => case ReqSent => case AckRcvd => case AckSent => case Opened =>
  }

  lemma ReplyKeepsSound(t: Trace, ack: bool)
    requires Sound(t)
    ensures Sound(Advance(t, if ack then RcvConfigAck else RcvConfigNak))
  {
    match t.fsm.state
    case Initial => case Starting => case Closed => case Stopped => case Closing =>
    case Stopping => case ReqSent => case AckRcvd => case AckSent => case Opened =>
  }

  lemma TimeoutKeepsSound(t: Trace)
    requires Sound(t)
    ensures Sound(Advance(t, RestartTimeout))
  {
    match t.fsm.state
    case Initial => case Starting => case Closed => case Stopped => case Closing =>
    case Stopping => case ReqSent => case AckRcvd => case AckSent => case Opened =>
  }

  lemma AdminKeepsSound(t: Trace, event: Event)
    requires Sound(t) && (event.Up? || event.Down? || event.Open? || event.Close?)
    ensures Sound(Advance(t, event))
  {
    match t.fsm.state
    case Initial => case Starting => case Closed => case Stopped => case Closing =>
    case Stopping => case ReqSent => case AckRcvd => case AckSent => case Opened =>
  }

  lemma TerminateKeepsSound(t: Trace, event: Event)
    requires Sound(t) && (event.RcvTerminateReq? || event.RcvTerminateAck?)
    ensures Sound(Advance(t, event))
  {
    match t.fsm.state
    case Initial => case Starting => case Closed => case Stopped => case Closing =>
    case Stopping => case ReqSent => case AckRcvd => case AckSent => case Opened =>
  }

  lemma OtherKeepsSound(t: Trace, event: Event)
    requires Sound(t)
    requires event.RcvCodeRejPermitted? || event.RcvCodeRejCatastrophic? || event.RcvUnknownCode? || event.RcvEcho?
    ensures Sound(Advance(t, event))
  {
    match t.fsm.state
    case Initial => case Starting => case Closed => case Stopped => case Closing =>
    case Stopping => case ReqSent => case AckRcvd => case AckSent => case Opened =>
  }

  lemma SoundKept(t: Trace, event: Event)
    requires Sound(t)
    ensures Sound(Advance(t, event))
  {
    if event.RcvConfigReqGood? || event.RcvConfigReqBad? {
      RequestKeepsSound(t, event.RcvConfigReqGood?);
    } else if event.RcvConfigAck? || event.RcvConfigNak? {
      ReplyKeepsSound(t, event.RcvConfigAck?);
    } else if event.RestartTimeout? {
      TimeoutKeepsSound(t);
    } else if event.Up? || event.Down? || event.Open? || event.Close? {
      AdminKeepsSound(t, event);
    } else if event.RcvTerminateReq? || event.RcvTerminateAck? {
      TerminateKeepsSound(t, event);
    } else {
      OtherKeepsSound(t, event);
    }
  }

  lemma {:induction false} SoundAlong(s: Trace, events: seq<Event>, t: Trace)
    requires Sound(s) && Reaches(s, events, t)
    ensures Sound(t)
    decreases |events|
  {
    if events != [] {
      SoundKept(s, events[0]);
      SoundAlong(Advance(s, events[0]), events[1..], t);
    }
  }

  /** In every run, a layer that is Opened last answered the peer's options with an Ack
      and has had its own latest request acknowledged; up and down notifications
      alternate, starting with up. */
  lemma OpenedMeansAgreed(events: seq<Event>, t: Trace)
    requires Reaches(Fresh(), events, t)
    ensures t.fsm.state.Opened? ==> t.acked && t.confirmed
    ensures t.ups == t.downs + (if t.fsm.state.Opened? then 1 else 0)
  {
    SoundAlong(Fresh(), events, t);
  }

  // ---------------------------------------------------------------------------
  // Giving up
  // ---------------------------------------------------------------------------

  function AfterTimeouts(f: Fsm, n: nat): Fsm {
    if n == 0 then f else Step(AfterTimeouts(f, n - 1), RestartTimeout).0
  }

  lemma {:induction false} Retransmitting(f: Fsm, n: nat)
    requires Negotiating(f.state) && n <= f.restart
    ensures Negotiating(AfterTimeouts(f, n).state) && AfterTimeouts(f, n).restart == f.restart - n
  {
    if n > 0 {
      Retransmitting(f, n - 1);
    }
  }

  /** With no packet coming in, a negotiating layer retransmits on exactly as many
      timeouts as the counter holds, re-arming each time; the next one finishes it. */
  lemma GivesUp(f: Fsm, n: nat)
    requires Negotiating(f.state) && n <= f.restart
    ensures var out := Step(AfterTimeouts(f, n), RestartTimeout).1;
      && out.notify.finished == (n == f.restart)
      && (n < f.restart ==> (Emits(out, ConfigureRequest) || Emits(out, TerminateReq)) && out.timer == Some(Start))
      && (n == f.restart ==> out.send.None? && (out.newState.Closed? || out.newState.Stopped?))
  {
    Retransmitting(f, n);
  }

  // ---------------------------------------------------------------------------
  // The restart timer
  // ---------------------------------------------------------------------------

  /** Steps after which a negotiation goes on with no timer running. */
  predicate Uncovers(s: State, event: Event) {
    || (s.ReqSent? && event.RcvConfigAck?)
    || (s.Opened? && (event.RcvConfigAck? || event.RcvConfigNak? || event.RcvTerminateAck?))
  }

  /** Some step of the run does. */
  ghost predicate HasUncovering(s: Trace, events: seq<Event>)
    decreases |events|
  {
    events != [] && (Uncovers(s.fsm.state, events[0]) || HasUncovering(Advance(s, events[0]), events[1..]))
  }

  /** While nothing has uncovered a negotiation. */
  predicate Timed(t: Trace) {
    && t.covered && !t.fsm.state.AckRcvd?
    && (Negotiating(t.fsm.state) ==> t.armed)
    && (t.fsm.state.Opened? ==> !t.armed)
  }

  lemma TimedKeptInNegotiation(t: Trace, event: Event)
    requires Timed(t) && CanHappen(t, event) && Negotiating(t.fsm.state)
    ensures if Uncovers(t.fsm.state, event) then !Advance(t, event).covered else Timed(Advance(t, event))
  {
    match t.fsm.state
    case Closing => case Stopping => case ReqSent => case AckSent =>
  }

  lemma TimedKeptInOpened(t: Trace, event: Event)
    requires Timed(t) && CanHappen(t, event) && t.fsm.state.Opened?
    ensures if Uncovers(t.fsm.state, event) then !Advance(t, event).covered else Timed(Advance(t, event))
  {
  }

  lemma TimedKept(t: Trace, event: Event)
    requires Timed(t) && CanHappen(t, event)
    ensures if Uncovers(t.fsm.state, event) then !Advance(t, event).covered else Timed(Advance(t, event))
  {
    if Negotiating(t.fsm.state) {
      TimedKeptInNegotiation(t, event);
    } else if t.fsm.state.Opened? {
      TimedKeptInOpened(t, event);
    } else {
      match t.fsm.state
      case Initial => case Starting => case Closed => case Stopped =>
    }
  }

  lemma {:induction false} StaysUncovered(s: Trace, events: seq<Event>, t: Trace)
    requires !s.covered && Reaches(s, events, t)
    ensures !t.covered
    decreases |events|
  {
    if events != [] {
      StaysUncovered(Advance(s, events[0]), events[1..], t);
    }
  }

  lemma {:induction false} TimerAlong(s: Trace, events: seq<Event>, t: Trace)
    requires Timed(s) && Reaches(s, events, t)
    ensures t.covered <==> !HasUncovering(s, events)
    decreases |events|
  {
    if events != [] {
      TimedKept(s, events[0]);
      var u := Advance(s, events[0]);
      if Uncovers(s.fsm.state, events[0]) {
        StaysUncovered(u, events[1..], t);
      } else {
        TimerAlong(u, events[1..], t);
      }
    }
  }

  /** The restart timer runs in every negotiating state of a run if and only if the run
      takes none of the uncovering steps. */
  lemma TimerCoversNegotiation(events: seq<Event>, t: Trace)
    requires Reaches(Fresh(), events, t)
    ensures t.covered <==> !HasUncovering(Fresh(), events)
  {
    TimerAlong(Fresh(), events, t);
  }

  /** A peer that acknowledges first and then stays silent: Ack-Rcvd with no timer, so
      the layer neither retransmits nor gives up. */
  lemma SilentAfterAck(t: Trace)
    requires Reaches(Fresh(), [Open, Up, RcvConfigAck], t)
    ensures t.fsm.state.AckRcvd? && !t.armed && !t.covered
  {
    var e0: seq<Event> := [Open, Up, RcvConfigAck];
    var e1: seq<Event> := [Up, RcvConfigAck];
    var e2: seq<Event> := [RcvConfigAck];
    assert e0[1..] == e1 && e1[1..] == e2 && e2[1..] == [];
    var t1 := Advance(Fresh(), Open);
    assert Reaches(t1, e1, t);
    var t2 := Advance(t1, Up);
    assert t2.fsm.state.ReqSent? && Reaches(t2, e2, t);
    var t3 := Advance(t2, RcvConfigAck);
    assert Reaches(t3, [], t);
  }
}
