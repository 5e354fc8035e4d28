/** Driver and automaton together against RFC 1661: what a packet code does to a layer and
    which packet codes come back, in every state, by the table of its section 4.1. */
module PppTable {
  import opened Bytes
  import opened Fsm
  import opened PppCodec
  import opened PppOptions
  import LcpVerdict
  import opened IpcpVerdict
  import opened PppModel
  import opened PppPeer
  import opened PppSaid

  /** The event an LCP code stands for (section 5 of RFC 1661): Configure-Request, Ack, Nak
      and Reject, Terminate-Request and Ack, Code- and Protocol-Reject, the two echoes and
      Discard-Request. */
  function Means(code: byte, good: bool): Event {
    if code == 1 then if good then RcvConfigReqGood else RcvConfigReqBad
    else if code == 2 then RcvConfigAck
    else if code == 3 || code == 4 then RcvConfigNak
    else if code == 5 then RcvTerminateReq
    else if code == 6 then RcvTerminateAck
    else if code == 7 || code == 8 then RcvCodeRejPermitted
    else if 9 <= code <= 11 then RcvEcho
    else RcvUnknownCode
  }

  /** The same for IPCP, which has the first seven (section 2 of RFC 1332). */
  function IpcpMeans(code: byte, good: bool): Event {
    if code <= 7 then Means(code, good) else RcvUnknownCode
  }

  /** The packet code an action sends; `refusal` is Nak or Reject. No Code-Reject is sent. */
  predicate Sends(a: Action, code: byte, refusal: byte) {
    match a
    case Scr => code == 1
    case Sca => code == 2
    case Scn => code == refusal
    case Str => code == 5
    case Sta => code == 6
    case _ => false
  }

  ghost predicate SaysCode(ps: seq<Packet>, protocol: nat, code: byte) {
    exists x <- ps :: x.protocol == protocol && x.code == code
  }

  function ActionsOf(entry: Entry): set<Action> {
    if entry.Dash? then {} else entry.actions
  }

  function NextOf(entry: Entry, from: State): State {
    if entry.Dash? then from else entry.next
  }

  /** No two packets of the protocol have the same code. */
  ghost predicate Distinct(ps: seq<Packet>, protocol: nat) {
    forall i, j :: 0 <= i < j < |ps| && ps[i].protocol == protocol && ps[j].protocol == protocol ==> ps[i].code != ps[j].code
  }

  /** The actions send the code; an echo is answered if it was a request. */
  ghost predicate Called(actions: set<Action>, code: byte, refusal: byte, echo: bool) {
    (exists a <- actions :: Sends(a, code, refusal)) || (code == 10 && echo && Ser in actions)
  }

  /** The packets are those of the actions, one each. */
  ghost predicate Spoken(ps: seq<Packet>, protocol: nat, actions: set<Action>, refusal: byte, echo: bool) {
    && (forall code: byte :: SaysCode(ps, protocol, code) <==> Called(actions, code, refusal, echo))
    && Distinct(ps, protocol)
  }

  // ---------------------------------------------------------------------------
  // Rendering
  // ---------------------------------------------------------------------------

  /** The code a send is rendered with, if it is. */
  function CodeOf(send: Option<Send>, refusal: byte, echo: bool): Option<byte> {
    match send
    case None => None
    case Some(ConfigureRequest) => Some(1)
    case Some(ConfigureAck) => Some(2)
    case Some(ConfigureNak) => Some(refusal)
    case Some(TerminateReq) => Some(5)
    case Some(TerminateAck) => Some(6)
    case Some(EchoReply) => if echo then Some(10) else None
    case Some(CodeReject) => None
  }

  ghost predicate OneOrNone(ps: seq<Packet>, protocol: nat, code: Option<byte>) {
    if code.None? then ps == [] else |ps| == 1 && ps[0].protocol == protocol && ps[0].code == code.value
  }

  lemma LcpRenders(lcp: Lcp, send: Option<Send>)
    ensures var (l, ps) := RenderLcpSend(lcp, send);
      && OneOrNone(ps, LCP, CodeOf(send, if lcp.nakIsReject then 4 else 3, lcp.lastRxrCode == 9))
      && l == lcp.(fsm := l.fsm) && l.fsm.state == lcp.fsm.state
  {
  }

  lemma IpcpRenders(ipcp: Ipcp, send: Option<Send>)
    ensures var (i, ps) := RenderIpcpSend(ipcp, send);
      && OneOrNone(ps, IPCP, CodeOf(send, if ipcp.nakIsReject then 4 else 3, false))
      && i == ipcp.(fsm := i.fsm) && i.fsm.state == ipcp.fsm.state
  {
  }

  /** One send in the table's terms. */
  lemma CodeOfAction(send: Option<Send>, refusal: byte, echo: bool, code: byte)
    requires refusal == 3 || refusal == 4
    ensures CodeOf(send, refusal, echo) == Some(code) <==> Called(SendAction(send), code, refusal, echo)
  {
    match send
    case None =>
    case Some(ConfigureRequest) => assert Scr in SendAction(send) && Sends(Scr, 1, refusal);
    case Some(ConfigureAck) => assert Sca in SendAction(send) && Sends(Sca, 2, refusal);
    case Some(ConfigureNak) => assert Scn in SendAction(send) && Sends(Scn, refusal, refusal);
    case Some(TerminateReq) => assert Str in SendAction(send) && Sends(Str, 5, refusal);
    case Some(TerminateAck) => assert Sta in SendAction(send) && Sends(Sta, 6, refusal);
    case Some(EchoReply) =>
    case Some(CodeReject) =>
  }

  /** No cell sends the same thing twice. */
  lemma TwoSendsDiffer(f: Fsm, event: Event)
    ensures var out := Cell(f, event).0; out.extra.Some? ==> out.send == Some(ConfigureRequest) && out.extra != out.send
  {
  }

  lemma CalledEither(cell: (StepOut, Counter), code: byte, refusal: byte, echo: bool)
    ensures Called(Actions(cell), code, refusal, echo)
      <==> Called(SendAction(cell.0.send), code, refusal, echo) || Called(SendAction(cell.0.extra), code, refusal, echo)
  {
    ActionMembers(cell);
    var all, one, two := Actions(cell), SendAction(cell.0.send), SendAction(cell.0.extra);
    if a :| a in all && Sends(a, code, refusal) {
      assert a in one || a in two;
    }
    if a :| a in one && Sends(a, code, refusal) {
      assert a in all;
    }
    if a :| a in two && Sends(a, code, refusal) {
      assert a in all;
    }
  }

  lemma OneSays(ps: seq<Packet>, protocol: nat, code: Option<byte>, c: byte)
    requires OneOrNone(ps, protocol, code)
    ensures SaysCode(ps, protocol, c) <==> code == Some(c)
  {
    if code == Some(c) {
      assert ps[0] in ps;
    }
  }

  lemma SpokenCode(cell: (StepOut, Counter), f1: seq<Packet>, f2: seq<Packet>, rest: seq<Packet>, protocol: nat, refusal: byte, echo: bool, code: byte)
    requires refusal == 3 || refusal == 4
    requires OneOrNone(f1, protocol, CodeOf(cell.0.send, refusal, echo)) && OneOrNone(f2, protocol, CodeOf(cell.0.extra, refusal, echo))
    requires forall x <- rest :: x.protocol != protocol
    ensures SaysCode(f1 + f2 + rest, protocol, code) <==> Called(Actions(cell), code, refusal, echo)
  {
    CodeOfAction(cell.0.send, refusal, echo, code);
    CodeOfAction(cell.0.extra, refusal, echo, code);
    OneSays(f1, protocol, CodeOf(cell.0.send, refusal, echo), code);
    OneSays(f2, protocol, CodeOf(cell.0.extra, refusal, echo), code);
    SaysEither(f1, f2, rest, protocol, code);
    CalledEither(cell, code, refusal, echo);
  }

  lemma CodesDiffer(cell: (StepOut, Counter), f1: seq<Packet>, f2: seq<Packet>, rest: seq<Packet>, protocol: nat, refusal: byte, echo: bool)
    requires refusal == 3 || refusal == 4
    requires OneOrNone(f1, protocol, CodeOf(cell.0.send, refusal, echo)) && OneOrNone(f2, protocol, CodeOf(cell.0.extra, refusal, echo))
    requires cell.0.extra.Some? ==> cell.0.send == Some(ConfigureRequest) && cell.0.extra != cell.0.send
    requires forall x <- rest :: x.protocol != protocol
    ensures Distinct(f1 + f2 + rest, protocol)
  {
  }

  /** Both sends of a step in the table's terms. */
  lemma SpokenBy(cell: (StepOut, Counter), f1: seq<Packet>, f2: seq<Packet>, rest: seq<Packet>, protocol: nat, refusal: byte, echo: bool)
    requires refusal == 3 || refusal == 4
    requires OneOrNone(f1, protocol, CodeOf(cell.0.send, refusal, echo)) && OneOrNone(f2, protocol, CodeOf(cell.0.extra, refusal, echo))
    requires cell.0.extra.Some? ==> cell.0.send == Some(ConfigureRequest) && cell.0.extra != cell.0.send
    requires forall x <- rest :: x.protocol != protocol
    ensures Spoken(f1 + f2 + rest, protocol, Actions(cell), refusal, echo)
  {
    CodesDiffer(cell, f1, f2, rest, protocol, refusal, echo);
    forall code: byte
      ensures SaysCode(f1 + f2 + rest, protocol, code) <==> Called(Actions(cell), code, refusal, echo)
    {
      SpokenCode(cell, f1, f2, rest, protocol, refusal, echo, code);
    }
  }

  lemma SaysEither(f1: seq<Packet>, f2: seq<Packet>, rest: seq<Packet>, protocol: nat, code: byte)
    requires forall x <- rest :: x.protocol != protocol
    ensures SaysCode(f1 + f2 + rest, protocol, code) <==> SaysCode(f1, protocol, code) || SaysCode(f2, protocol, code)
  {
    var ps := f1 + f2 + rest;
    if SaysCode(f1, protocol, code) {
      var x :| x in f1 && x.protocol == protocol && x.code == code;
      assert x in ps;
    }
    if SaysCode(f2, protocol, code) {
      var x :| x in f2 && x.protocol == protocol && x.code == code;
      assert x in ps;
    }
  }

  // ---------------------------------------------------------------------------
  // One step
  // ---------------------------------------------------------------------------

  /** A step of LCP as the table has it, or, in the cells that depart from it, no step. */
  ghost predicate LcpByTable(f: Fsm, isOpen: bool, event: Event, echo: bool, q: Link, r: Reply) {
    if Departs(f.state, event) then q.lcp.fsm.state == f.state && q.lcp.isOpen == isOpen && r.packets == [] && !r.finished
    else
      var entry := Published(f.state, event, f.restart > 0);
      && q.lcp.fsm.state == NextOf(entry, f.state) && Spoken(r.packets, LCP, ActionsOf(entry), 4, echo)
      && q.lcp.isOpen == ((isOpen || Tlu in ActionsOf(entry)) && Tld !in ActionsOf(entry))
      && r.finished == (Tlf in ActionsOf(entry))
  }

  ghost predicate IpcpByTable(f: Fsm, event: Event, refusal: byte, q: Link, r: Reply) {
    && q.ipcp.Some?
    && if Departs(f.state, event) then q.ipcp.value.fsm.state == f.state && r.packets == [] && !r.finished
       else
         var entry := Published(f.state, event, f.restart > 0);
         && q.ipcp.value.fsm.state == NextOf(entry, f.state) && Spoken(r.packets, IPCP, ActionsOf(entry), refusal, false)
         && r.finished == (Tlf in ActionsOf(entry))
  }

  /** What a send is rendered with does not depend on what it does not use. */
  lemma SameCode(f: Fsm, event: Event, refusal: byte, other: byte, echo: bool, was: bool)
    requires (event.RcvConfigReqBad? ==> refusal == other) && (event.RcvEcho? ==> echo == was)
    ensures var out := Cell(f, event).0;
      CodeOf(out.send, refusal, echo) == CodeOf(out.send, other, was) && CodeOf(out.extra, refusal, echo) == CodeOf(out.extra, other, was)
  {
    TableIsLawful();
    assert Step(f, event).1 == Cell(f, event).0;
    assert Emits(Step(f, event).1, ConfigureNak) ==> event.RcvConfigReqBad?;
    assert Emits(Step(f, event).1, EchoReply) ==> event.RcvEcho?;
  }

  lemma NotifiedActions(cell: (StepOut, Counter))
    ensures
      && (Tlu in Actions(cell) <==> cell.0.notify.up) && (Tld in Actions(cell) <==> cell.0.notify.down)
      && (Tlf in Actions(cell) <==> cell.0.notify.finished)
  {
    ActionMembers(cell);
  }

  lemma DepartsQuietly(f: Fsm, event: Event)
    requires Departs(f.state, event) && (!event.Open? || !f.state.Closing?)
    ensures var out := Cell(f, event).0;
      && out.newState == f.state && (out.send.None? || out.send == Some(CodeReject)) && out.extra.None? && out.notify == QUIET
  {
  }

  lemma LcpSendsSpoken(lcp: Lcp, f: Fsm, event: Event, echo: bool, rest: seq<Packet>)
    requires event.RcvConfigReqBad? ==> lcp.nakIsReject
    requires event.RcvEcho? ==> echo == (lcp.lastRxrCode == 9)
    requires forall x <- rest :: x.protocol != LCP
    ensures var (l, ps) := SendsOf(lcp, Cell(f, event).0);
      l == lcp.(fsm := l.fsm) && l.fsm.state == lcp.fsm.state && Spoken(ps + rest, LCP, Actions(Cell(f, event)), 4, echo)
  {
    var out := Cell(f, event).0;
    LcpRenders(lcp, out.send);
    var (l1, f1) := RenderLcpSend(lcp, out.send);
    LcpRenders(l1, out.extra);
    var f2 := RenderLcpSend(l1, out.extra).1;
    SameCode(f, event, if lcp.nakIsReject then 4 else 3, 4, lcp.lastRxrCode == 9, echo);
    TwoSendsDiffer(f, event);
    SpokenBy(Cell(f, event), f1, f2, rest, LCP, 4, echo);
  }

  lemma LcpShown(p: Link, out: StepOut, nonce: Nonce)
    ensures var (q, r) := RenderLcp(p, out, nonce);
      && q.lcp.fsm.state == SendsOf(p.lcp, out).0.fsm.state
      && q.lcp.isOpen == ((SendsOf(p.lcp, out).0.isOpen || out.notify.up) && !out.notify.down)
      && r.packets == SendsOf(p.lcp, out).1 + Challenge(p, Raised(out, p.lcp.isOpen), nonce) && r.finished == out.notify.finished
  {
  }

  /** The cell in the table's terms. */
  lemma TableSays(f: Fsm, event: Event)
    requires !Departs(f.state, event)
    ensures var cell, entry := Cell(f, event), Published(f.state, event, f.restart > 0);
      && Actions(cell) == ActionsOf(entry) && cell.0.newState == NextOf(entry, f.state)
      && (Tlu in ActionsOf(entry) <==> cell.0.notify.up) && (Tld in ActionsOf(entry) <==> cell.0.notify.down)
      && (Tlf in ActionsOf(entry) <==> cell.0.notify.finished)
  {
    TableAgreement(f, event);
    NotifiedActions(Cell(f, event));
  }

  lemma LcpStepsAt(p: Link, event: Event, echo: bool, nonce: Nonce, out: StepOut, p1: Link)
    requires out == Cell(p.lcp.fsm, event).0 && !event.Open?
    requires p1.lcp.fsm.state == out.newState && p1.lcp.isOpen == p.lcp.isOpen
    requires event.RcvConfigReqBad? ==> p1.lcp.nakIsReject
    requires event.RcvEcho? ==> echo == (p1.lcp.lastRxrCode == 9)
    ensures var (q, r) := RenderLcp(p1, out, nonce); LcpByTable(p.lcp.fsm, p.lcp.isOpen, event, echo, q, r)
  {
    var f := p.lcp.fsm;
    LcpShown(p1, out, nonce);
    LcpSendsSpoken(p1.lcp, f, event, echo, Challenge(p1, Raised(out, p1.lcp.isOpen), nonce));
    if Departs(f.state, event) {
      DepartsQuietly(f, event);
    } else {
      TableSays(f, event);
    }
  }

  lemma LcpSteps(p: Link, event: Event, echo: bool, nonce: Nonce)
    requires event.RcvConfigReqBad? ==> p.lcp.nakIsReject
    requires event.RcvEcho? ==> echo == (p.lcp.lastRxrCode == 9)
    requires !event.Open?
    ensures var (q, r) := LcpEvent(Step, p, event, nonce); LcpByTable(p.lcp.fsm, p.lcp.isOpen, event, echo, q, r)
  {
    var (g, out) := Step(p.lcp.fsm, event);
    LcpStepsAt(p, event, echo, nonce, out, p.(lcp := p.lcp.(fsm := g)));
  }

  lemma IpcpSendsSpoken(p: Link, f: Fsm, event: Event, refusal: byte)
    requires p.ipcp.Some? && (refusal == 3 || refusal == 4)
    requires event.RcvConfigReqBad? ==> refusal == (if p.ipcp.value.nakIsReject then 4 else 3)
    ensures var (q, r) := RenderIpcp(p, Cell(f, event).0);
      && q.ipcp.Some? && q.ipcp.value.fsm.state == p.ipcp.value.fsm.state && r.finished == Cell(f, event).0.notify.finished
      && Spoken(r.packets, IPCP, Actions(Cell(f, event)), refusal, false)
  {
    var i0, out := p.ipcp.value, Cell(f, event).0;
    IpcpRenders(i0, out.send);
    var (i1, f1) := RenderIpcpSend(i0, out.send);
    IpcpRenders(i1, out.extra);
    var f2 := RenderIpcpSend(i1, out.extra).1;
    SameCode(f, event, if i0.nakIsReject then 4 else 3, refusal, false, false);
    TwoSendsDiffer(f, event);
    SpokenBy(Cell(f, event), f1, f2, [], IPCP, refusal, false);
    assert f1 + f2 + [] == f1 + f2;
  }

  lemma IpcpStepsAt(p: Link, event: Event, refusal: byte, out: StepOut, p1: Link)
    requires p.ipcp.Some? && p1.ipcp.Some? && (refusal == 3 || refusal == 4) && !event.Open?
    requires out == Cell(p.ipcp.value.fsm, event).0 && p1.ipcp.value.fsm.state == out.newState
    requires event.RcvConfigReqBad? ==> refusal == (if p1.ipcp.value.nakIsReject then 4 else 3)
    ensures var (q, r) := RenderIpcp(p1, out); IpcpByTable(p.ipcp.value.fsm, event, refusal, q, r)
  {
    var f := p.ipcp.value.fsm;
    IpcpSendsSpoken(p1, f, event, refusal);
    if Departs(f.state, event) {
      DepartsQuietly(f, event);
    } else {
      TableSays(f, event);
    }
  }

  lemma IpcpSteps(p: Link, event: Event, refusal: byte)
    requires p.ipcp.Some? && (refusal == 3 || refusal == 4) && !event.Open?
    requires event.RcvConfigReqBad? ==> refusal == (if p.ipcp.value.nakIsReject then 4 else 3)
    ensures var (q, r) := IpcpEvent(Step, p, event); IpcpByTable(p.ipcp.value.fsm, event, refusal, q, r)
  {
    var (g, out) := Step(p.ipcp.value.fsm, event);
    IpcpStepsAt(p, event, refusal, out, p.(ipcp := Some(p.ipcp.value.(fsm := g))));
  }

  // ---------------------------------------------------------------------------
  // One packet, one timeout
  // ---------------------------------------------------------------------------

  lemma LcpMeans(lcp: Lcp, x: Packet)
    ensures var (l, event) := LcpReceives(lcp, LcpPacket(x.code, x.id, x.body));
      && event == Means(x.code, LcpVerdict.Judge(x.body, lcp.peerMru).good) && l.fsm == lcp.fsm && l.isOpen == lcp.isOpen
      && (x.code == 1 ==> l.nakIsReject) && (9 <= x.code <= 11 ==> l.lastRxrCode == x.code)
  {
  }

  lemma IpcpCodeMeans(ipcp: Ipcp, x: Packet)
    ensures var (i, event) := IpcpReceives(ipcp, LcpPacket(x.code, x.id, x.body));
      var v := Judge(ipcp.addrs, x.body);
      event == IpcpMeans(x.code, v.good) && i.fsm == ipcp.fsm && (x.code == 1 ==> i.nakIsReject == v.isReject)
  {
  }

  /** LCP speaks the table: every packet code, in every state, does to the layer what the
      table says, and exactly the packets of its actions come back. */
  lemma LcpSpeaksTheTable(p: Link, x: Packet, nonce: Nonce)
    requires x.protocol == LCP && PacketLen(x) < U16_LIMIT
    ensures var (q, r) := Respond(Step, p, Says(x, nonce));
      LcpByTable(p.lcp.fsm, p.lcp.isOpen, Means(x.code, LcpVerdict.Judge(x.body, p.lcp.peerMru).good), x.code == 9, q, r)
  {
    LcpReads(p, x, nonce);
    LcpMeans(p.lcp, x);
    var (l, event) := LcpReceives(p.lcp, LcpPacket(x.code, x.id, x.body));
    LcpSteps(p.(lcp := l), event, x.code == 9, nonce);
  }

  /** So does IPCP, in the network phase. */
  lemma IpcpSpeaksTheTable(p: Link, x: Packet, nonce: Nonce)
    requires x.protocol == IPCP && PacketLen(x) < U16_LIMIT && p.phase.Network? && p.ipcp.Some?
    ensures var (q, r) := Respond(Step, p, Says(x, nonce));
      var v := Judge(p.ipcp.value.addrs, x.body);
      IpcpByTable(p.ipcp.value.fsm, IpcpMeans(x.code, v.good), if v.isReject then 4 else 3, q, r)
  {
    IpcpCodeMeans(p.ipcp.value, x);
    var (i, event) := IpcpReceives(p.ipcp.value, LcpPacket(x.code, x.id, x.body));
    IpcpSpeaks(p, x, nonce, i, event, if Judge(p.ipcp.value.addrs, x.body).isReject then 4 else 3);
  }

  lemma IpcpSpeaks(p: Link, x: Packet, nonce: Nonce, i: Ipcp, event: Event, refusal: byte)
    requires x.protocol == IPCP && PacketLen(x) < U16_LIMIT && p.phase.Network? && p.ipcp.Some?
    requires IpcpReceives(p.ipcp.value, LcpPacket(x.code, x.id, x.body)) == (i, event)
    requires i.fsm == p.ipcp.value.fsm && (refusal == 3 || refusal == 4) && !event.Open?
    requires event.RcvConfigReqBad? ==> refusal == (if i.nakIsReject then 4 else 3)
    ensures var (q, r) := Respond(Step, p, Says(x, nonce)); IpcpByTable(p.ipcp.value.fsm, event, refusal, q, r)
  {
    IpcpReads(p, x, nonce);
    IpcpStepsFrom(p, i, event, refusal);
  }

  lemma IpcpStepsFrom(p: Link, i: Ipcp, event: Event, refusal: byte)
    requires p.ipcp.Some? && i.fsm == p.ipcp.value.fsm && (refusal == 3 || refusal == 4) && !event.Open?
    requires event.RcvConfigReqBad? ==> refusal == (if i.nakIsReject then 4 else 3)
    ensures var (q, r) := IpcpEvent(Step, p.(ipcp := Some(i)), event); IpcpByTable(p.ipcp.value.fsm, event, refusal, q, r)
  {
    IpcpSteps(p.(ipcp := Some(i)), event, refusal);
  }

  /** And a timeout of either. */
  lemma TimeoutsSpeakTheTable(p: Link, nonce: Nonce)
    ensures var (q, r) := Respond(Step, p, Timeout(LcpTimer, nonce)); LcpByTable(p.lcp.fsm, p.lcp.isOpen, RestartTimeout, false, q, r)
    ensures p.ipcp.Some? ==>
      var (q, r) := Respond(Step, p, Timeout(IpcpTimer, nonce)); IpcpByTable(p.ipcp.value.fsm, RestartTimeout, 3, q, r)
  {
    LcpSteps(p, RestartTimeout, false, nonce);
    if p.ipcp.Some? {
      IpcpSteps(p, RestartTimeout, 3);
    }
  }

  /** An awaited Reject closes LCP behind its verdict packet, as the table has it: from Opened
      a Terminate-Request follows. */
  lemma RejectClosesLcp(p: Link, input: Input)
    requires Awaited(p, input) && input.verdict.Reject?
    ensures var (q, r) := Respond(Step, p, input);
      && r.packets != [] && r.finished
      && exists s: Reply :: LcpByTable(p.lcp.fsm, p.lcp.isOpen, Close, false, q, s) && s.packets == r.packets[1..]
    ensures p.lcp.fsm.state.Opened? ==> SaysCode(Respond(Step, p, input).1.packets[1..], LCP, 5)
  {
    LcpSteps(p, Close, false, input.nonce);
    var (q1, s) := LcpEvent(Step, p, Close, input.nonce);
    var (q, r) := Respond(Step, p, input);
    assert r.packets[1..] == s.packets && q.lcp == q1.lcp;
    assert LcpByTable(p.lcp.fsm, p.lcp.isOpen, Close, false, q, s);
    if p.lcp.fsm.state.Opened? {
      assert Str in ActionsOf(Published(Opened, Close, p.lcp.fsm.restart > 0)) && Sends(Str, 5, 4);
    }
  }

  /** A request is repeated nine times and a Terminate-Request once: the first makes ten, or two. */
  lemma TriesByNumber(f: Fsm)
    ensures f.state.Starting? ==> Step(f, Up).0.restart == 9 && Step(f, Up).1.send == Some(ConfigureRequest)
    ensures f.state.Opened? ==> Step(f, Close).0.restart == 1 && Step(f, Close).1.send == Some(TerminateReq)
  {
  }

  // ---------------------------------------------------------------------------
  // The first frames, byte by byte
  // ---------------------------------------------------------------------------

  /** The server's LCP request asks for its authentication protocol: PAP, CHAP with MD5, or
      CHAP with MS-CHAPv2. */
  lemma FirstLcpFrame(localIp: Ipv4, m: AuthMethod, nonce: Nonce)
    ensures var r := Respond(Step, NewLink(localIp, m), OpenLink(nonce)).1;
      && |r.packets| == 1
      && Wire(r.packets[0]) == match m
         case UsePap => [0xff, 0x03, 0xC0, 0x21, 1, 1, 0, 8, 3, 4, 0xC0, 0x23]
         case UseChapMd5 => [0xff, 0x03, 0xC0, 0x21, 1, 1, 0, 9, 3, 5, 0xC2, 0x23, 0x05]
         case UseMsChapV2 => [0xff, 0x03, 0xC0, 0x21, 1, 1, 0, 9, 3, 5, 0xC2, 0x23, 0x81]
  {
    FirstLcpPacket(localIp, m, nonce);
    WireByBytes(Packet(LCP, 1, 1, OwnOptions(m)));
    OwnOptionBytes(m);
  }

  lemma FirstLcpPacket(localIp: Ipv4, m: AuthMethod, nonce: Nonce)
    ensures Respond(Step, NewLink(localIp, m), OpenLink(nonce)).1.packets == [Packet(LCP, 1, 1, OwnOptions(m))]
  {
    OpenUp();
    var p := NewLink(localIp, m);
    var (g, out) := Step(Step(New(), Event.Open).0, Up);
    LcpRendered(p.(lcp := p.lcp.(fsm := g)), out, false, nonce);
  }

  lemma OwnOptionBytes(m: AuthMethod)
    ensures OwnOptions(m) == match m
      case UsePap => [3, 4, 0xC0, 0x23]
      case UseChapMd5 => [3, 5, 0xC2, 0x23, 0x05]
      case UseMsChapV2 => [3, 5, 0xC2, 0x23, 0x81]
  {
  }

  /** A Terminate-Ack should copy the identifier of the request (section 5.5 of RFC 1661). It
      carries that of the last Configure-Request instead, so it does if and only if the two
      are equal. */
  lemma TerminateAckIdentifier(p: Link, x: Packet, nonce: Nonce)
    requires x.protocol == LCP && x.code == 5 && PacketLen(x) < U16_LIMIT && p.lcp.fsm.state.Opened?
    ensures var r := Respond(Step, p, Says(x, nonce)).1;
      |r.packets| == 1 && r.packets[0].code == 6 && (r.packets[0].id == x.id <==> p.lcp.lastCrId == x.id)
  {
    LcpReads(p, x, nonce);
    var (f, out) := Step(p.lcp.fsm, RcvTerminateReq);
    assert out.send == Some(TerminateAck) && out.extra.None? && !out.notify.up;
    AckRendered(p.(lcp := p.lcp.(fsm := f)), out, nonce);
  }

  lemma AckRendered(p: Link, out: StepOut, nonce: Nonce)
    requires out.send == Some(TerminateAck) && out.extra.None? && !out.notify.up
    ensures RenderLcp(p, out, nonce).1.packets == [Packet(LCP, 6, p.lcp.lastCrId, [])]
  {
    LcpShown(p, out, nonce);
  }

  /** Its IPCP request asks for its own address. */
  lemma FirstIpcpFrame(p: Link, addrs: Addrs)
    ensures var r := AdvanceToNetwork(Step, p, addrs).1;
      |r.packets| == 1 && Wire(r.packets[0]) == [0xff, 0x03, 0x80, 0x21, 1, 1, 0, 10, 3, 6] + p.localIp
  {
    OpenUp();
    var merged := MergeMtu(addrs, p.lcp.peerMru);
    var (ipcp, out) := NewIpcp(Step, merged, p.localIp);
    IpcpRendered(p.(pendingAddrs := Some(merged), phase := Network, ipcp := Some(ipcp)), out, false);
    var x := AdvanceToNetwork(Step, p, addrs).1.packets[0];
    assert x == Packet(IPCP, 1, 1, EncodeOption(Opt(IP_ADDRESS, p.localIp)));
    WireByBytes(x);
    assert EncodeOption(Opt(IP_ADDRESS, p.localIp)) == [3, 6] + p.localIp;
  }
}
