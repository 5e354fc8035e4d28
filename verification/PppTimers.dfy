/** The session's one PPP timer slot (src/session.rs), shared by LCP and IPCP: a start takes
    it for its layer whoever had it, a stop clears only its own layer's timer. Runs of the
    driver with its own automaton. */
module PppTimers {
  import opened Bytes
  import opened Fsm
  import FsmRuns
  import opened PppCodec
  import opened PppModel
  import opened PppRuns
  import opened PppSaid
  import opened IpcpVerdict
  import opened PppOptions
  import opened PppPeer
  import PppHandshake
  import PppFrames
  import LcpVerdict

  /** The driver, whose timer is running, whether every negotiating layer had it at every
      point so far, and whether the session has ended. */
  datatype World = World(p: Link, slot: Option<Owner>, covered: bool, over: bool)

  function AfterStops(slot: Option<Owner>, stops: seq<Owner>): Option<Owner> {
    if slot.Some? && slot.value in stops then None else slot
  }

  function AfterStarts(slot: Option<Owner>, starts: seq<Owner>): Option<Owner> {
    if starts == [] then slot else Some(starts[|starts| - 1])
  }

  /** A timer that fires leaves the slot empty. */
  function Fired(slot: Option<Owner>, input: Input): Option<Owner> {
    if input.Timeout? then None else slot
  }

  function Slot(slot: Option<Owner>, input: Input, r: Reply): Option<Owner> {
    AfterStarts(AfterStops(Fired(slot, input), r.stops), r.starts)
  }

  predicate LcpNegotiates(p: Link) {
    Negotiating(p.lcp.fsm.state)
  }

  predicate IpcpNegotiates(p: Link) {
    p.ipcp.Some? && Negotiating(p.ipcp.value.fsm.state)
  }

  /** Each negotiating layer owns the running timer. */
  predicate Covers(p: Link, slot: Option<Owner>) {
    (LcpNegotiates(p) ==> slot == Some(LcpTimer)) && (IpcpNegotiates(p) ==> slot == Some(IpcpTimer))
  }

  /** The link is opened once, a timer fires only while it runs, and nothing follows the end. */
  predicate Enabled(w: World, input: Input) {
    && !w.over
    && (input.OpenLink? ==> w.p.lcp.fsm.state.Initial?)
    && (input.Timeout? ==> w.slot == Some(input.owner))
  }

  /** The session lives through writing the answer. */
  ghost predicate Survives(p: Link, input: Input) {
    Fit(Respond(Step, p, input).1.packets)
  }

  /** A call that aborts the process is no step of a run: nothing comes after it. */
  ghost predicate CanHappen(w: World, input: Input) {
    Enabled(w, input) && Survives(w.p, input)
  }

  function Advance(w: World, input: Input): World {
    var (q, r) := Respond(Step, w.p, input);
    var slot := Slot(w.slot, input, r);
    World(q, slot, w.covered && Covers(q, slot), r.finished)
  }

  ghost predicate Reaches(w: World, inputs: seq<Input>, v: World)
    decreases |inputs|
  {
    if inputs == [] then w == v else CanHappen(w, inputs[0]) && Reaches(Advance(w, inputs[0]), inputs[1..], v)
  }

  function Fresh(p: Link): World {
    World(p, None, true, false)
  }

  // ---------------------------------------------------------------------------
  // What uncovers a negotiation
  // ---------------------------------------------------------------------------

  /** The packet of `protocol` in an inbound frame. */
  function PacketIn(input: Input, protocol: nat): Option<LcpPacket> {
    if !input.Frame? || DecodeFrame(input.payload).None? || DecodeFrame(input.payload).value.protocol != protocol then None
    else DecodePacket(DecodeFrame(input.payload).value.info)
  }

  /** What a call tells LCP's automaton. */
  function LcpHears(p: Link, input: Input): Option<Event> {
    if PacketIn(input, LCP).Some? then Some(LcpReceives(p.lcp, PacketIn(input, LCP).value).1)
    else if input.Timeout? && input.owner.LcpTimer? then Some(RestartTimeout)
    else if Awaited(p, input) && input.verdict.Reject? then Some(Close)
    else None
  }

  function IpcpHears(p: Link, input: Input): Option<Event> {
    if p.ipcp.None? then None
    else if p.phase.Network? && PacketIn(input, IPCP).Some? then Some(IpcpReceives(p.ipcp.value, PacketIn(input, IPCP).value).1)
    else if input.Timeout? && input.owner.IpcpTimer? then Some(RestartTimeout)
    else None
  }

  /** A layer's own step leaves its negotiation without a timer. */
  predicate StepUncovers(p: Link, input: Input) {
    || (LcpHears(p, input).Some? && FsmRuns.Uncovers(p.lcp.fsm.state, LcpHears(p, input).value))
    || (IpcpHears(p, input).Some? && FsmRuns.Uncovers(p.ipcp.value.fsm.state, IpcpHears(p, input).value))
  }

  /** The cells that start the restart timer. */
  predicate Rearms(f: Fsm, event: Event) {
    match event
    case RestartTimeout => Negotiating(f.state) && f.restart > 0
    case RcvConfigReqGood => f.state.Opened? || f.state.Stopped?
    case RcvConfigReqBad => f.state.Opened? || f.state.Stopped?
    case RcvTerminateReq => f.state.Opened?
    case RcvCodeRejCatastrophic => f.state.Opened?
    case Close => f.state.ReqSent? || f.state.AckRcvd? || f.state.AckSent? || f.state.Opened?
    case Up => f.state.Starting?
    case Open => f.state.Closed?
    case _ => false
  }

  /** One layer is about to start the timer while the other is negotiating: by what it
      hears, by an Accept that brings up a new IPCP, or by the opening of the link. */
  predicate TakesOver(p: Link, input: Input) {
    || (LcpHears(p, input).Some? && Rearms(p.lcp.fsm, LcpHears(p, input).value) && IpcpNegotiates(p))
    || (IpcpHears(p, input).Some? && Rearms(p.ipcp.value.fsm, IpcpHears(p, input).value) && LcpNegotiates(p))
    || (Awaited(p, input) && input.verdict.Accept? && LcpNegotiates(p))
    || (input.OpenLink? && IpcpNegotiates(p))
  }

  predicate Uncovers(p: Link, input: Input) {
    StepUncovers(p, input) || TakesOver(p, input)
  }

  ghost predicate HasUncovering(w: World, inputs: seq<Input>)
    decreases |inputs|
  {
    inputs != [] && (Uncovers(w.p, inputs[0]) || HasUncovering(Advance(w, inputs[0]), inputs[1..]))
  }

  // ---------------------------------------------------------------------------
  // One layer
  // ---------------------------------------------------------------------------

  /** The layer in this state has the timer exactly as its negotiation needs it. */
  predicate Timed(state: State, owner: Owner, slot: Option<Owner>) {
    && !state.AckRcvd?
    && (Negotiating(state) ==> slot == Some(owner))
    && (state.Opened? ==> slot != Some(owner))
  }

  ghost predicate AllTimed(p: Link, slot: Option<Owner>) {
    && Timed(p.lcp.fsm.state, LcpTimer, slot)
    && (p.ipcp.Some? ==> Timed(p.ipcp.value.fsm.state, IpcpTimer, slot))
    && (p.ipcp.None? ==> slot != Some(IpcpTimer))
  }

  /** The slot after one automaton step of `owner`. */
  function SlotAfter(slot: Option<Owner>, owner: Owner, event: Event, out: StepOut): Option<Owner> {
    var fired := if event.RestartTimeout? then None else slot;
    AfterStarts(AfterStops(fired, Stops(out.timer, owner)), Starts(out.timer, owner))
  }

  lemma RearmsStarts(f: Fsm, event: Event, owner: Owner)
    ensures Rearms(f, event) <==> Starts(Step(f, event).1.timer, owner) != []
  {
  }

  /** The layer's own side of a step: the timer it would have with a slot of its own. */
  lemma OwnStep(f: Fsm, event: Event, owner: Owner, slot: Option<Owner>)
    requires Timed(f.state, owner, slot) && (event.RestartTimeout? ==> slot == Some(owner))
    ensures var (g, out) := Step(f, event);
      var after := SlotAfter(slot, owner, event, out);
      && (FsmRuns.Uncovers(f.state, event) ==> Negotiating(g.state) && after != Some(owner))
      && (!FsmRuns.Uncovers(f.state, event) ==> Timed(g.state, owner, after))
  {
    FsmRuns.TimedKept(FsmRuns.Trace(f, false, false, slot == Some(owner), true, 0, 0), event);
  }

  /** The other layer's side: it keeps the slot unless a start takes it. */
  lemma OtherSide(owner: Owner, other: Owner, slot: Option<Owner>, event: Event, out: StepOut, state: State)
    requires owner != other && Timed(state, other, slot) && (event.RestartTimeout? ==> slot == Some(owner))
    ensures var after := SlotAfter(slot, owner, event, out);
      if Starts(out.timer, owner) != [] && Negotiating(state) then after != Some(other) else Timed(state, other, after)
  {
  }

  // ---------------------------------------------------------------------------
  // One call
  // ---------------------------------------------------------------------------

  /** What is to be shown of a call. */
  ghost predicate Decides(w: World, input: Input) {
    var v := Advance(w, input);
    if Uncovers(w.p, input) then !v.covered else v.covered && AllTimed(v.p, v.slot)
  }

  lemma RenderedLcp(p: Link, out: StepOut, nonce: Nonce)
    ensures var (q, r) := RenderLcp(p, out, nonce);
      && q.lcp.fsm.state == p.lcp.fsm.state && q.ipcp == p.ipcp
      && r.starts == Starts(out.timer, LcpTimer) && r.stops == Stops(out.timer, LcpTimer)
  {
    SendKeepsState(p.lcp, out.send);
    SendKeepsState(RenderLcpSend(p.lcp, out.send).0, out.extra);
  }

  lemma RenderedIpcp(p: Link, out: StepOut)
    requires p.ipcp.Some?
    ensures var (q, r) := RenderIpcp(p, out);
      && q.ipcp.Some? && q.ipcp.value.fsm.state == p.ipcp.value.fsm.state && q.lcp == p.lcp
      && r.starts == Starts(out.timer, IpcpTimer) && r.stops == Stops(out.timer, IpcpTimer)
  {
  }

  /** LCP steps: what becomes of the slot, and of both layers' claims to it. */
  lemma LcpSteps(p: Link, q: Link, slot: Option<Owner>, event: Event, out: StepOut)
    requires AllTimed(p, slot) && (event.RestartTimeout? ==> slot == Some(LcpTimer))
    requires var (g, o) := Step(p.lcp.fsm, event); o == out && q.lcp.fsm.state == g.state && q.ipcp == p.ipcp
    ensures var after := SlotAfter(slot, LcpTimer, event, out);
      if FsmRuns.Uncovers(p.lcp.fsm.state, event) || (Rearms(p.lcp.fsm, event) && IpcpNegotiates(p)) then !Covers(q, after)
      else AllTimed(q, after) && Covers(q, after)
  {
    RearmsStarts(p.lcp.fsm, event, LcpTimer);
    OwnStep(p.lcp.fsm, event, LcpTimer, slot);
    if p.ipcp.Some? {
      OtherSide(LcpTimer, IpcpTimer, slot, event, out, p.ipcp.value.fsm.state);
    }
  }

  lemma IpcpSteps(p: Link, q: Link, slot: Option<Owner>, event: Event, out: StepOut)
    requires p.ipcp.Some? && q.ipcp.Some? && AllTimed(p, slot) && (event.RestartTimeout? ==> slot == Some(IpcpTimer))
    requires var (g, o) := Step(p.ipcp.value.fsm, event); o == out && q.ipcp.value.fsm.state == g.state && q.lcp == p.lcp
    ensures var after := SlotAfter(slot, IpcpTimer, event, out);
      if FsmRuns.Uncovers(p.ipcp.value.fsm.state, event) || (Rearms(p.ipcp.value.fsm, event) && LcpNegotiates(p))
      then !Covers(q, after)
      else AllTimed(q, after) && Covers(q, after)
  {
    RearmsStarts(p.ipcp.value.fsm, event, IpcpTimer);
    OwnStep(p.ipcp.value.fsm, event, IpcpTimer, slot);
    OtherSide(IpcpTimer, LcpTimer, slot, event, out, p.lcp.fsm.state);
  }

  lemma LcpUncovers(p: Link, input: Input, event: Event) returns (bad: bool)
    requires LcpHears(p, input) == Some(event) && IpcpHears(p, input).None?
    ensures bad == Uncovers(p, input)
    ensures bad == (FsmRuns.Uncovers(p.lcp.fsm.state, event) || (Rearms(p.lcp.fsm, event) && IpcpNegotiates(p)))
  {
    bad := Uncovers(p, input);
  }

  lemma IpcpUncovers(p: Link, input: Input, event: Event) returns (bad: bool)
    requires IpcpHears(p, input) == Some(event) && LcpHears(p, input).None?
    ensures bad == Uncovers(p, input)
    ensures bad == (FsmRuns.Uncovers(p.ipcp.value.fsm.state, event) || (Rearms(p.ipcp.value.fsm, event) && LcpNegotiates(p)))
  {
    bad := Uncovers(p, input);
  }

  lemma SlotMoves(slot: Option<Owner>, input: Input, owner: Owner, event: Event, out: StepOut, r: Reply)
    requires input.Timeout? == event.RestartTimeout? && r.starts == Starts(out.timer, owner) && r.stops == Stops(out.timer, owner)
    ensures Slot(slot, input, r) == SlotAfter(slot, owner, event, out)
  {
  }

  lemma DecidesBy(w: World, input: Input, q: Link, r: Reply, bad: bool)
    requires Respond(Step, w.p, input) == (q, r) && bad == Uncovers(w.p, input) && w.covered
    requires var slot := Slot(w.slot, input, r); if bad then !Covers(q, slot) else AllTimed(q, slot) && Covers(q, slot)
    ensures Decides(w, input)
  {
  }

  /** A call that drives LCP by one event. */
  lemma LcpDriven(w: World, input: Input, event: Event, q: Link, r: Reply)
    requires w.covered && AllTimed(w.p, w.slot)
    requires input.Timeout? == event.RestartTimeout? && (event.RestartTimeout? ==> w.slot == Some(LcpTimer))
    requires Respond(Step, w.p, input) == (q, r)
    requires var (g, out) := Step(w.p.lcp.fsm, event);
      && q.lcp.fsm.state == g.state && q.ipcp == w.p.ipcp
      && r.starts == Starts(out.timer, LcpTimer) && r.stops == Stops(out.timer, LcpTimer)
    requires LcpHears(w.p, input) == Some(event) && IpcpHears(w.p, input).None?
    ensures Decides(w, input)
  {
    var bad := LcpUncovers(w.p, input, event);
    SlotMoves(w.slot, input, LcpTimer, event, Step(w.p.lcp.fsm, event).1, r);
    LcpSteps(w.p, q, w.slot, event, Step(w.p.lcp.fsm, event).1);
    DecidesBy(w, input, q, r, bad);
  }

  lemma IpcpDriven(w: World, input: Input, event: Event, q: Link, r: Reply)
    requires w.covered && AllTimed(w.p, w.slot) && w.p.ipcp.Some?
    requires input.Timeout? == event.RestartTimeout? && (event.RestartTimeout? ==> w.slot == Some(IpcpTimer))
    requires Respond(Step, w.p, input) == (q, r)
    requires var (g, out) := Step(w.p.ipcp.value.fsm, event);
      && q.lcp == w.p.lcp && q.ipcp.Some? && q.ipcp.value.fsm.state == g.state
      && r.starts == Starts(out.timer, IpcpTimer) && r.stops == Stops(out.timer, IpcpTimer)
    requires IpcpHears(w.p, input) == Some(event) && LcpHears(w.p, input).None?
    ensures Decides(w, input)
  {
    var bad := IpcpUncovers(w.p, input, event);
    SlotMoves(w.slot, input, IpcpTimer, event, Step(w.p.ipcp.value.fsm, event).1, r);
    IpcpSteps(w.p, q, w.slot, event, Step(w.p.ipcp.value.fsm, event).1);
    DecidesBy(w, input, q, r, bad);
  }

  /** A call that touches neither automaton nor timer. */
  lemma Untouched(w: World, input: Input)
    requires w.covered && AllTimed(w.p, w.slot) && !input.Timeout?
    requires var (q, r) := Respond(Step, w.p, input);
      q.lcp == w.p.lcp && q.ipcp == w.p.ipcp && r.starts == [] && r.stops == []
    requires LcpHears(w.p, input).None? && IpcpHears(w.p, input).None? && !input.OpenLink? && !Awaited(w.p, input)
    ensures Decides(w, input)
  {
  }

  lemma LcpHearsNoTimeout(lcp: Lcp, pkt: LcpPacket)
    ensures !LcpReceives(lcp, pkt).1.RestartTimeout? && LcpReceives(lcp, pkt).0.fsm == lcp.fsm
  {
  }

  lemma IpcpHearsNoTimeout(ipcp: Ipcp, pkt: LcpPacket)
    ensures !IpcpReceives(ipcp, pkt).1.RestartTimeout? && IpcpReceives(ipcp, pkt).0.fsm == ipcp.fsm
  {
  }

  /** `LcpEvent` after the automaton's step, whoever calls it. */
  lemma LcpEventDone(p: Link, event: Event, nonce: Nonce)
    ensures var (q, r) := LcpEvent(Step, p, event, nonce);
      var (g, out) := Step(p.lcp.fsm, event);
      && q.lcp.fsm.state == g.state && q.ipcp == p.ipcp
      && r.starts == Starts(out.timer, LcpTimer) && r.stops == Stops(out.timer, LcpTimer)
  {
    var (g, out) := Step(p.lcp.fsm, event);
    RenderedLcp(p.(lcp := p.lcp.(fsm := g)), out, nonce);
  }

  lemma IpcpEventDone(p: Link, event: Event)
    requires p.ipcp.Some?
    ensures var (q, r) := IpcpEvent(Step, p, event);
      var (g, out) := Step(p.ipcp.value.fsm, event);
      && q.lcp == p.lcp && q.ipcp.Some? && q.ipcp.value.fsm.state == g.state
      && r.starts == Starts(out.timer, IpcpTimer) && r.stops == Stops(out.timer, IpcpTimer)
  {
    var (g, out) := Step(p.ipcp.value.fsm, event);
    RenderedIpcp(p.(ipcp := Some(p.ipcp.value.(fsm := g))), out);
  }

  lemma LcpFrame(w: World, input: Input)
    requires w.covered && AllTimed(w.p, w.slot) && PacketIn(input, LCP).Some?
    ensures Decides(w, input)
  {
    var pkt := PacketIn(input, LCP).value;
    LcpHearsNoTimeout(w.p.lcp, pkt);
    var p := w.p.(lcp := LcpReceives(w.p.lcp, pkt).0);
    var event := LcpReceives(w.p.lcp, pkt).1;
    LcpEventDone(p, event, input.nonce);
    var (q, r) := LcpEvent(Step, p, event, input.nonce);
    LcpDriven(w, input, event, q, r);
  }

  lemma IpcpFrame(w: World, input: Input)
    requires w.covered && AllTimed(w.p, w.slot) && w.p.ipcp.Some? && w.p.phase.Network? && PacketIn(input, IPCP).Some?
    ensures Decides(w, input)
  {
    var pkt := PacketIn(input, IPCP).value;
    IpcpHearsNoTimeout(w.p.ipcp.value, pkt);
    var p := w.p.(ipcp := Some(IpcpReceives(w.p.ipcp.value, pkt).0));
    var event := IpcpReceives(w.p.ipcp.value, pkt).1;
    IpcpEventDone(p, event);
    var (q, r) := IpcpEvent(Step, p, event);
    IpcpDriven(w, input, event, q, r);
  }

  lemma OtherFrame(w: World, input: Input)
    requires w.covered && AllTimed(w.p, w.slot) && input.Frame?
    requires PacketIn(input, LCP).None? && !(w.p.ipcp.Some? && w.p.phase.Network? && PacketIn(input, IPCP).Some?)
    ensures Decides(w, input)
  {
    Untouched(w, input);
  }

  lemma Fires(w: World, input: Input)
    requires w.covered && AllTimed(w.p, w.slot) && input.Timeout? && w.slot == Some(input.owner)
    ensures Decides(w, input)
  {
    if input.owner.LcpTimer? {
      LcpEventDone(w.p, RestartTimeout, input.nonce);
      var (q, r) := LcpEvent(Step, w.p, RestartTimeout, input.nonce);
      LcpDriven(w, input, RestartTimeout, q, r);
    } else {
      IpcpEventDone(w.p, RestartTimeout);
      var (q, r) := IpcpEvent(Step, w.p, RestartTimeout);
      IpcpDriven(w, input, RestartTimeout, q, r);
    }
  }

  lemma Opens(w: World, input: Input)
    requires w.covered && AllTimed(w.p, w.slot) && input.OpenLink? && w.p.lcp.fsm.state.Initial?
    ensures Decides(w, input)
  {
    var f := Step(w.p.lcp.fsm, Open).0;
    var p := w.p.(lcp := w.p.lcp.(fsm := f));
    LcpEventDone(p, Up, input.nonce);
  }

  lemma Accepts(w: World, input: Input, addrs: Addrs)
    requires w.covered && AllTimed(w.p, w.slot) && Awaited(w.p, input) && input.verdict == Accept(addrs)
    ensures Decides(w, input)
  {
    var merged := MergeMtu(addrs, w.p.lcp.peerMru);
    var (ipcp, out) := NewIpcp(Step, merged, w.p.localIp);
    RenderedIpcp(w.p.(pendingAddrs := Some(merged), phase := Network, ipcp := Some(ipcp)), out);
    var (q, r) := Respond(Step, w.p, input);
    assert q.lcp == w.p.lcp && q.ipcp.Some? && q.ipcp.value.fsm.state.ReqSent?;
    assert r.starts == [IpcpTimer] && r.stops == [];
  }

  lemma Rejects(w: World, input: Input)
    requires w.covered && AllTimed(w.p, w.slot) && Awaited(w.p, input) && input.verdict.Reject?
    ensures Decides(w, input)
  {
    LcpEventDone(w.p, Close, input.nonce);
    var (q, r) := Respond(Step, w.p, input);
    var (q1, r1) := LcpEvent(Step, w.p, Close, input.nonce);
    assert q.lcp == q1.lcp && q.ipcp == q1.ipcp && r.starts == r1.starts && r.stops == r1.stops;
    LcpDriven(w, input, Close, q, r);
  }

  lemma CallDecides(w: World, input: Input)
    requires w.covered && AllTimed(w.p, w.slot) && Enabled(w, input)
    ensures Decides(w, input)
  {
    if input.OpenLink? {
      Opens(w, input);
    } else if input.Timeout? {
      Fires(w, input);
    } else if input.Frame? {
      if PacketIn(input, LCP).Some? {
        LcpFrame(w, input);
      } else if w.p.ipcp.Some? && w.p.phase.Network? && PacketIn(input, IPCP).Some? {
        IpcpFrame(w, input);
      } else {
        OtherFrame(w, input);
      }
    } else if !Awaited(w.p, input) {
      Untouched(w, input);
    } else if input.verdict.Reject? {
      Rejects(w, input);
    } else {
      Accepts(w, input, input.verdict.addrs);
    }
  }

  // ---------------------------------------------------------------------------
  // Runs
  // ---------------------------------------------------------------------------

  lemma {:induction false} StaysUncovered(w: World, inputs: seq<Input>, v: World)
    requires !w.covered && Reaches(w, inputs, v)
    ensures !v.covered
    decreases |inputs|
  {
    if inputs != [] {
      StaysUncovered(Advance(w, inputs[0]), inputs[1..], v);
    }
  }

  lemma {:induction false} CoveredAlong(w: World, inputs: seq<Input>, v: World)
    requires w.covered && AllTimed(w.p, w.slot) && Reaches(w, inputs, v)
    ensures v.covered <==> !HasUncovering(w, inputs)
    ensures v.covered ==> AllTimed(v.p, v.slot)
    decreases |inputs|
  {
    if inputs != [] {
      CallDecides(w, inputs[0]);
      var u := Advance(w, inputs[0]);
      if Uncovers(w.p, inputs[0]) {
        StaysUncovered(u, inputs[1..], v);
      } else {
        CoveredAlong(u, inputs[1..], v);
      }
    }
  }

  /** Every negotiating layer owns the running timer at every point of a session if and only
      if no call of it makes a layer's own uncovering step or takes the slot from a layer
      that is negotiating. */
  lemma OneSlotCoversIff(localIp: Ipv4, authMethod: AuthMethod, inputs: seq<Input>, v: World)
    requires Reaches(Fresh(NewLink(localIp, authMethod)), inputs, v)
    ensures v.covered <==> !HasUncovering(Fresh(NewLink(localIp, authMethod)), inputs)
    ensures v.covered ==> AllTimed(v.p, v.slot)
  {
    CoveredAlong(Fresh(NewLink(localIp, authMethod)), inputs, v);
  }

  /** What an LCP call takes the slot with. */
  lemma LcpTakes(p: Link, input: Input, event: Event, q: Link, r: Reply)
    requires LcpHears(p, input) == Some(event) && IpcpHears(p, input).None?
    requires q.ipcp == p.ipcp && r.starts == Starts(Step(p.lcp.fsm, event).1.timer, LcpTimer)
    ensures TakesOver(p, input) <==> Takes(q, r)
  {
    RearmsStarts(p.lcp.fsm, event, LcpTimer);
  }

  lemma IpcpTakes(p: Link, input: Input, event: Event, q: Link, r: Reply)
    requires IpcpHears(p, input) == Some(event) && LcpHears(p, input).None?
    requires q.lcp == p.lcp && r.starts == Starts(Step(p.ipcp.value.fsm, event).1.timer, IpcpTimer)
    ensures TakesOver(p, input) <==> Takes(q, r)
  {
    RearmsStarts(p.ipcp.value.fsm, event, IpcpTimer);
  }

  /** A layer has started the timer while the other was negotiating. */
  predicate Takes(q: Link, r: Reply) {
    (LcpTimer in r.starts && IpcpNegotiates(q)) || (IpcpTimer in r.starts && LcpNegotiates(q))
  }

  lemma FrameTakes(p: Link, input: Input)
    requires input.Frame?
    ensures var (q, r) := Respond(Step, p, input); TakesOver(p, input) <==> Takes(q, r)
  {
    var (q, r) := Respond(Step, p, input);
    if PacketIn(input, LCP).Some? {
      var pkt := PacketIn(input, LCP).value;
      LcpHearsNoTimeout(p.lcp, pkt);
      var (l, event) := LcpReceives(p.lcp, pkt);
      LcpEventDone(p.(lcp := l), event, input.nonce);
      LcpTakes(p, input, event, q, r);
    } else if p.ipcp.Some? && p.phase.Network? && PacketIn(input, IPCP).Some? {
      var pkt := PacketIn(input, IPCP).value;
      IpcpHearsNoTimeout(p.ipcp.value, pkt);
      var (i, event) := IpcpReceives(p.ipcp.value, pkt);
      IpcpEventDone(p.(ipcp := Some(i)), event);
      IpcpTakes(p, input, event, q, r);
    }
  }

  lemma VerdictTakes(p: Link, input: Input)
    requires IsVerdict(input)
    ensures var (q, r) := Respond(Step, p, input); TakesOver(p, input) <==> Takes(q, r)
  {
    var (q, r) := Respond(Step, p, input);
    if !Awaited(p, input) {
      VerdictIsSaid(Step, p, input);
    } else if input.verdict.Reject? {
      LcpEventDone(p, Close, input.nonce);
      LcpTakes(p, input, Close, q, r);
    } else {
      PppHandshake.Advanced(p, input.verdict.addrs);
    }
  }

  /** The guard is exact: it holds before a call if and only if the call does start one
      layer's timer while the other is negotiating. */
  lemma TakesOverIff(p: Link, input: Input)
    requires input.OpenLink? ==> p.lcp.fsm.state.Initial?
    ensures var (q, r) := Respond(Step, p, input); TakesOver(p, input) <==> Takes(q, r)
  {
    var (q, r) := Respond(Step, p, input);
    match input
    case OpenLink(n) =>
      LcpEventDone(p.(lcp := p.lcp.(fsm := Step(p.lcp.fsm, Open).0)), Up, n);
    case Frame(_, _) => FrameTakes(p, input);
    case Timeout(owner, n) =>
      if owner.LcpTimer? {
        LcpEventDone(p, RestartTimeout, n);
        LcpTakes(p, input, RestartTimeout, q, r);
      } else if p.ipcp.Some? {
        IpcpEventDone(p, RestartTimeout);
        IpcpTakes(p, input, RestartTimeout, q, r);
      }
    case AuthResult(_, _) => VerdictTakes(p, input);
    case MsChapResult(_, _, _, _) => VerdictTakes(p, input);
  }

  lemma RequestStarts(p: Link, input: Input)
    requires PacketIn(input, LCP).Some? && PacketIn(input, LCP).value.code == 1 && p.lcp.fsm.state.Opened?
    ensures var (q, r) := Respond(Step, p, input); q.ipcp == p.ipcp && r.starts == [LcpTimer] && TakesOver(p, input) == IpcpNegotiates(p)
  {
    var pkt := PacketIn(input, LCP).value;
    LcpReceivesAsk(p.lcp, pkt.id, pkt.data);
    var (l, event) := LcpReceives(p.lcp, pkt);
    LcpEventDone(p.(lcp := l), event, input.nonce);
    RearmsStarts(p.lcp.fsm, event, LcpTimer);
  }

  /** A Configure-Request on open LCP takes the slot from an IPCP that is negotiating, which
      goes on negotiating without a timer. */
  lemma RequestTakesTheSlot(w: World, input: Input)
    requires PacketIn(input, LCP).Some? && PacketIn(input, LCP).value.code == 1
    requires w.p.lcp.fsm.state.Opened? && IpcpNegotiates(w.p)
    ensures TakesOver(w.p, input)
    ensures var v := Advance(w, input);
      v.slot == Some(LcpTimer) && v.p.ipcp == w.p.ipcp && IpcpNegotiates(v.p) && !v.covered
  {
    RequestStarts(w.p, input);
  }

  // ---------------------------------------------------------------------------
  // The takeover is reached
  // ---------------------------------------------------------------------------

  lemma {:induction false} ReachesPush(w: World, inputs: seq<Input>, v: World, input: Input)
    requires Reaches(w, inputs, v) && CanHappen(v, input)
    ensures Reaches(w, inputs + [input], Advance(v, input))
    decreases |inputs|
  {
    if inputs == [] {
      assert [input][1..] == [];
    } else {
      ReachesPush(Advance(w, inputs[0]), inputs[1..], v, input);
      assert (inputs + [input])[1..] == inputs[1..] + [input];
    }
  }

  predicate LcpAt(w: World, state: State, slot: Option<Owner>) {
    && w.p.lcp.fsm.state == state && w.p.lcp.isOpen == state.Opened? && w.p.lcp.authMethod.UsePap?
    && w.p.phase == (if state.Opened? then AuthPending else Establish) && w.p.ipcp.None?
    && w.slot == slot && w.covered && !w.over
  }

  lemma Opened(localIp: Ipv4, nonce: Nonce)
    ensures var w := Fresh(NewLink(localIp, UsePap));
      CanHappen(w, OpenLink(nonce)) && LcpAt(Advance(w, OpenLink(nonce)), ReqSent, Some(LcpTimer))
  {
    OpenUp();
    var p := NewLink(localIp, UsePap);
    var (g, out) := Step(Step(New(), Event.Open).0, Up);
    LcpRendered(p.(lcp := p.lcp.(fsm := g)), out, false, nonce);
    LcpEventDone(p.(lcp := p.lcp.(fsm := Step(New(), Event.Open).0)), Up, nonce);
    var r := Respond(Step, p, OpenLink(nonce)).1;
    FitsIff(r.packets[0]);
  }

  lemma Ticked(w: World, nonce: Nonce)
    requires LcpAt(w, ReqSent, Some(LcpTimer)) && w.p.lcp.fsm.restart > 0
    ensures CanHappen(w, Timeout(LcpTimer, nonce)) && LcpAt(Advance(w, Timeout(LcpTimer, nonce)), ReqSent, Some(LcpTimer))
  {
    LcpTicks(w.p, false, nonce);
    LcpEventDone(w.p, RestartTimeout, nonce);
    var r := Respond(Step, w.p, Timeout(LcpTimer, nonce)).1;
    FitsIff(r.packets[0]);
  }

  lemma Requested(w: World, nonce: Nonce)
    requires LcpAt(w, ReqSent, Some(LcpTimer))
    ensures var input := Says(Packet(LCP, 1, 1, []), nonce);
      CanHappen(w, input) && LcpAt(Advance(w, input), AckSent, Some(LcpTimer))
  {
    LcpAnswers(w.p, false, true, 1, [], true, nonce);
    LcpFrameKeepsIpcp(w.p, Packet(LCP, 1, 1, []), nonce);
    FitsIff(Packet(LCP, 2, 1, []));
  }

  lemma Confirmed(w: World, id: byte, nonce: Nonce)
    requires LcpAt(w, AckSent, Some(LcpTimer))
    ensures var input := Says(Packet(LCP, 2, id, []), nonce);
      CanHappen(w, input) && LcpAt(Advance(w, input), State.Opened, None)
  {
    LcpConfirms(w.p, true, id, [], nonce);
    LcpFrameKeepsIpcp(w.p, Packet(LCP, 2, id, []), nonce);
  }

  lemma LcpFrameKeepsIpcp(p: Link, x: Packet, nonce: Nonce)
    requires x.protocol == LCP && PacketLen(x) < U16_LIMIT
    ensures Respond(Step, p, Says(x, nonce)).0.ipcp == p.ipcp
  {
    LcpReads(p, x, nonce);
    var (l, event) := LcpReceives(p.lcp, LcpPacket(x.code, x.id, x.body));
    LcpEventDone(p.(lcp := l), event, nonce);
  }

  /** LCP open and IPCP in `state`. */
  predicate IpcpAt(w: World, state: State, slot: Option<Owner>) {
    && w.p.lcp.fsm.state.Opened? && w.p.phase.Network? && w.p.pendingAddrs.Some?
    && w.p.ipcp.Some? && w.p.ipcp.value.fsm.state == state && w.p.ipcp.value.isOpen == state.Opened?
    && w.slot == slot && w.covered && !w.over
  }

  /** Where a session is once accepted: IPCP negotiates with the timer. */
  predicate AtIpcp(w: World) {
    IpcpAt(w, ReqSent, Some(IpcpTimer))
  }

  lemma Presented(w: World, r: PapRequest, nonce: Nonce)
    requires LcpAt(w, State.Opened, None) && |r.peerId| < 256 && |r.password| < 256
    ensures var input := Says(PapRequestPacket(r), nonce);
      && CanHappen(w, input) && Advance(w, input) == w.(p := w.p.(phase := Advance(w, input).p.phase))
      && PppHandshake.InFlightFor(Advance(w, input).p.phase, UsePap)
  {
    PppHandshake.PapAsks(w.p, r, nonce);
  }

  lemma Accepted(w: World, addrs: Addrs, nonce: Nonce)
    requires w.p.lcp.fsm.state.Opened? && PppHandshake.InFlightFor(w.p.phase, UsePap) && w.covered && !w.over
    ensures var input := AuthResult(Accept(addrs), nonce);
      CanHappen(w, input) && AtIpcp(Advance(w, input)) && Advance(w, input).p.ipcp.value.fsm.restart > 0
  {
    PppHandshake.Accepted(w.p, UsePap, addrs, None, None, nonce);
    var r := Respond(Step, w.p, AuthResult(Accept(addrs), nonce)).1;
    FitsIff(r.packets[0]);
    FitsIff(r.packets[1]);
  }

  /** One more call. */
  lemma Then(w0: World, inputs: seq<Input>, w: World, input: Input) returns (more: seq<Input>, v: World)
    requires Reaches(w0, inputs, w) && CanHappen(w, input)
    ensures v == Advance(w, input) && more == inputs + [input] && Reaches(w0, more, v)
  {
    ReachesPush(w0, inputs, w, input);
    more, v := inputs + [input], Advance(w, input);
  }

  /** A fresh session, after one timeout or none. */
  lemma Starting(localIp: Ipv4, twice: bool, nonce: Nonce) returns (inputs: seq<Input>, w: World)
    ensures Reaches(Fresh(NewLink(localIp, UsePap)), inputs, w) && LcpAt(w, ReqSent, Some(LcpTimer))
    ensures inputs == [OpenLink(nonce)] + if twice then [Timeout(LcpTimer, nonce)] else []
  {
    var w0 := Fresh(NewLink(localIp, UsePap));
    Opened(localIp, nonce);
    inputs, w := Then(w0, [], w0, OpenLink(nonce));
    if twice {
      RestartsLeft(localIp, nonce);
      Ticked(w, nonce);
      inputs, w := Then(w0, inputs, w, Timeout(LcpTimer, nonce));
    }
  }

  /** LCP then opened by the peer's request and its Ack of identifier `id`. */
  lemma LcpSession(localIp: Ipv4, twice: bool, id: byte, nonce: Nonce) returns (inputs: seq<Input>, w: World)
    ensures Reaches(Fresh(NewLink(localIp, UsePap)), inputs, w) && LcpAt(w, State.Opened, None)
    ensures inputs == [OpenLink(nonce)] + (if twice then [Timeout(LcpTimer, nonce)] else [])
      + [Says(Packet(LCP, 1, 1, []), nonce), Says(Packet(LCP, 2, id, []), nonce)]
  {
    var w0 := Fresh(NewLink(localIp, UsePap));
    inputs, w := Starting(localIp, twice, nonce);
    Requested(w, nonce);
    inputs, w := Then(w0, inputs, w, Says(Packet(LCP, 1, 1, []), nonce));
    Confirmed(w, id, nonce);
    inputs, w := Then(w0, inputs, w, Says(Packet(LCP, 2, id, []), nonce));
  }

  lemma RestartsLeft(localIp: Ipv4, nonce: Nonce)
    ensures Respond(Step, NewLink(localIp, UsePap), OpenLink(nonce)).0.lcp.fsm.restart == MAX_CONFIGURE - 1
  {
  }

  lemma PapSession(localIp: Ipv4, r: PapRequest, addrs: Addrs, nonce: Nonce) returns (inputs: seq<Input>, w: World)
    requires |r.peerId| < 256 && |r.password| < 256
    ensures Reaches(Fresh(NewLink(localIp, UsePap)), inputs, w) && AtIpcp(w) && w.p.ipcp.value.fsm.restart > 0
  {
    inputs, w := LcpSession(localIp, false, 1, nonce);
    var w0 := Fresh(NewLink(localIp, UsePap));
    Presented(w, r, nonce);
    inputs, w := Then(w0, inputs, w, Says(PapRequestPacket(r), nonce));
    Accepted(w, addrs, nonce);
    inputs, w := Then(w0, inputs, w, AuthResult(Accept(addrs), nonce));
  }

  lemma SaysPacket(x: Packet, nonce: Nonce)
    requires x.protocol == LCP && PacketLen(x) < U16_LIMIT
    ensures PacketIn(Says(x, nonce), LCP) == Some(LcpPacket(x.code, x.id, x.body))
  {
    WireReadsBack(x);
  }

  lemma RenegotiationStep(f: Fsm, good: bool)
    requires f.state.Opened?
    ensures var out := Step(f, if good then RcvConfigReqGood else RcvConfigReqBad).1;
      && out.send == Some(ConfigureRequest) && out.extra == Some(if good then ConfigureAck else ConfigureNak) && out.notify == DOWN
  {
  }

  lemma RenegotiationSends(p: Link, out: StepOut, nonce: Nonce)
    requires out.send == Some(ConfigureRequest) && (out.extra == Some(ConfigureAck) || out.extra == Some(ConfigureNak)) && out.notify == DOWN
    requires |p.lcp.lastCrOptions| <= PppFrames.MAX_BODY && |p.lcp.pendingNak| <= PppFrames.MAX_BODY
    ensures Fit(RenderLcp(p, out, nonce).1.packets)
  {
    var (l1, f1) := RenderLcpSend(p.lcp, out.send);
    var f2 := RenderLcpSend(l1, out.extra).1;
    FitsIff(f1[0]);
    FitsIff(f2[0]);
    assert RenderLcp(p, out, nonce).1.packets == f1 + f2;
  }

  /** A renegotiation sends the server's request and the answer, which fit. */
  lemma RenegotiationFits(p: Link, x: Packet, nonce: Nonce)
    requires p.lcp.fsm.state.Opened? && x.protocol == LCP && x.code == 1 && |x.body| <= PppFrames.MAX_BODY
    ensures Survives(p, Says(x, nonce))
  {
    LcpReads(p, x, nonce);
    LcpReceivesAsk(p.lcp, x.id, x.body);
    LcpVerdict.RejectBound(x.body, p.lcp.peerMru);
    var (l, event) := LcpReceives(p.lcp, LcpPacket(1, x.id, x.body));
    RenegotiationStep(l.fsm, event.RcvConfigReqGood?);
    var (f, out) := Step(l.fsm, event);
    RenegotiationSends(p.(lcp := l.(fsm := f)), out, nonce);
  }

  /** Whatever the credentials and addresses, a PAP session reaches a point where any
      Configure-Request on LCP takes the slot from IPCP. */
  lemma TakeoverIsReached(localIp: Ipv4, r: PapRequest, addrs: Addrs, x: Packet, nonce: Nonce) returns (inputs: seq<Input>, w: World)
    requires |r.peerId| < 256 && |r.password| < 256
    requires x.protocol == LCP && x.code == 1 && |x.body| <= PppFrames.MAX_BODY
    ensures Reaches(Fresh(NewLink(localIp, UsePap)), inputs, w) && AtIpcp(w) && CanHappen(w, Says(x, nonce))
    ensures var v := Advance(w, Says(x, nonce));
      TakesOver(w.p, Says(x, nonce)) && v.slot == Some(LcpTimer) && IpcpNegotiates(v.p) && !v.covered
  {
    inputs, w := PapSession(localIp, r, addrs, nonce);
    RenegotiationFits(w.p, x, nonce);
    SaysPacket(x, nonce);
    RequestTakesTheSlot(w, Says(x, nonce));
  }

  // ---------------------------------------------------------------------------
  // A second Ack is reached
  // ---------------------------------------------------------------------------

  /** The first timeout sends the request again under a new identifier. */
  lemma TwoCopies(localIp: Ipv4, nonce: Nonce)
    ensures var (p, r) := Respond(Step, NewLink(localIp, UsePap), OpenLink(nonce));
      && r.packets == [Packet(LCP, 1, 1, OwnOptions(UsePap))]
      && Respond(Step, p, Timeout(LcpTimer, nonce)).1.packets == [Packet(LCP, 1, 2, OwnOptions(UsePap))]
  {
  }

  lemma ReAcked(w: World, id: byte, nonce: Nonce)
    requires LcpAt(w, State.Opened, None)
    ensures var again := Says(Packet(LCP, 2, id, []), nonce);
      var v := Advance(w, again);
      CanHappen(w, again) && v.p.lcp.fsm.state.ReqSent? && !v.p.lcp.isOpen && v.slot.None? && !v.covered
  {
    LcpRepeats(w.p, id, [], nonce);
    var r := Respond(Step, w.p, Says(Packet(LCP, 2, id, []), nonce)).1;
    FitsIff(r.packets[0]);
  }

  /** Open, first timeout, the peer's request, and an Ack of each copy of the server's: LCP
      goes up with the first and down with the second, and no timer runs. */
  lemma SecondAckTakesItDown(localIp: Ipv4, nonce: Nonce) returns (inputs: seq<Input>, w: World)
    ensures Reaches(Fresh(NewLink(localIp, UsePap)), inputs, w) && LcpAt(w, State.Opened, None)
    ensures inputs == [OpenLink(nonce), Timeout(LcpTimer, nonce), Says(Packet(LCP, 1, 1, []), nonce), Says(Packet(LCP, 2, 1, []), nonce)]
    ensures var again := Says(Packet(LCP, 2, 2, []), nonce);
      var v := Advance(w, again);
      CanHappen(w, again) && v.p.lcp.fsm.state.ReqSent? && !v.p.lcp.isOpen && v.slot.None? && !v.covered
  {
    inputs, w := LcpSession(localIp, true, 1, nonce);
    ReAcked(w, 2, nonce);
  }

  lemma IpcpTicked(w: World, nonce: Nonce)
    requires AtIpcp(w) && w.p.ipcp.value.fsm.restart > 0
    ensures CanHappen(w, Timeout(IpcpTimer, nonce)) && AtIpcp(Advance(w, Timeout(IpcpTimer, nonce)))
  {
    IpcpTicks(w.p, false, nonce);
    var r := Respond(Step, w.p, Timeout(IpcpTimer, nonce)).1;
    FitsIff(r.packets[0]);
  }

  lemma IpcpRequested(w: World, nonce: Nonce)
    requires AtIpcp(w)
    ensures var input := Says(Packet(IPCP, 1, 1, []), nonce);
      CanHappen(w, input) && IpcpAt(Advance(w, input), AckSent, Some(IpcpTimer))
  {
    IpcpAnswers(w.p, false, true, 1, [], IpcpVerdict.Judge(w.p.ipcp.value.addrs, []), nonce);
    FitsIff(Packet(IPCP, 2, 1, []));
  }

  lemma IpcpConfirmed(w: World, id: byte, nonce: Nonce)
    requires IpcpAt(w, AckSent, Some(IpcpTimer))
    ensures var input := Says(Packet(IPCP, 2, id, []), nonce);
      CanHappen(w, input) && IpcpAt(Advance(w, input), State.Opened, None)
  {
    IpcpConfirms(w.p, true, id, [], nonce);
  }

  lemma IpcpReAcked(w: World, id: byte, nonce: Nonce)
    requires IpcpAt(w, State.Opened, None)
    ensures var again := Says(Packet(IPCP, 2, id, []), nonce);
      var v := Advance(w, again);
      CanHappen(w, again) && v.p.ipcp.Some? && v.p.ipcp.value.fsm.state.ReqSent? && v.slot.None? && !v.covered
  {
    IpcpRepeats(w.p, id, [], nonce);
    var r := Respond(Step, w.p, Says(Packet(IPCP, 2, id, []), nonce)).1;
    FitsIff(r.packets[0]);
  }

  /** A PAP session with the network up, after one timeout of IPCP. */
  lemma IpcpSession(localIp: Ipv4, r: PapRequest, addrs: Addrs, nonce: Nonce) returns (inputs: seq<Input>, w: World)
    requires |r.peerId| < 256 && |r.password| < 256
    ensures Reaches(Fresh(NewLink(localIp, UsePap)), inputs, w) && IpcpAt(w, State.Opened, None)
  {
    var w0 := Fresh(NewLink(localIp, UsePap));
    inputs, w := PapSession(localIp, r, addrs, nonce);
    IpcpTicked(w, nonce);
    inputs, w := Then(w0, inputs, w, Timeout(IpcpTimer, nonce));
    IpcpRequested(w, nonce);
    inputs, w := Then(w0, inputs, w, Says(Packet(IPCP, 1, 1, []), nonce));
    IpcpConfirmed(w, 1, nonce);
    inputs, w := Then(w0, inputs, w, Says(Packet(IPCP, 2, 1, []), nonce));
  }

  /** The same in IPCP, whatever the credentials and addresses. */
  lemma SecondIpcpAckTakesItDown(localIp: Ipv4, r: PapRequest, addrs: Addrs, nonce: Nonce) returns (inputs: seq<Input>, w: World)
    requires |r.peerId| < 256 && |r.password| < 256
    ensures Reaches(Fresh(NewLink(localIp, UsePap)), inputs, w) && IpcpAt(w, State.Opened, None)
    ensures var again := Says(Packet(IPCP, 2, 2, []), nonce);
      var v := Advance(w, again);
      CanHappen(w, again) && v.p.ipcp.Some? && v.p.ipcp.value.fsm.state.ReqSent? && v.slot.None? && !v.covered
  {
    inputs, w := IpcpSession(localIp, r, addrs, nonce);
    IpcpReAcked(w, 2, nonce);
  }
}
