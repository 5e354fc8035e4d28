/** The driver as the source writes it: two servers and the orchestrator, updating their
    fields and collecting encoded frames. Each method is proved equal to its function on
    values; PppDrive carries what holds of those in every run over to this code. */
module PppDriver {
  import opened Bytes
  import opened Fsm
  import opened PppCodec
  import opened PppOptions
  import LcpVerdict
  import IpcpVerdict
  import opened PppModel

  /** An answer with its packets encoded as frames. */
  datatype PppStep = PppStep(
    frames: seq<seq<byte>>, starts: seq<Owner>, stops: seq<Owner>, event: Option<PppEvent>, finished: bool)

  function Encoded(r: Reply): PppStep {
    PppStep(WireAll(r.packets), r.starts, r.stops, r.event, r.finished)
  }

  const NOTHING := PppStep([], [], [], None, false)

  lemma WireAllAppend(a: seq<Packet>, b: seq<Packet>)
    ensures WireAll(a + b) == WireAll(a) + WireAll(b)
  {
  }

  class LcpServer {
    var fsm: Fsm
    var lastCrId: byte
    var lastCrOptions: seq<byte>
    var pendingNak: seq<byte>
    var nakIsReject: bool
    var lastRxrCode: byte
    var lastEchoId: byte
    var lastEchoData: seq<byte>
    var isOpen: bool
    const authMethod: AuthMethod
    var peerMru: Option<nat>

    ghost function View(): Lcp
      reads this
    {
      Lcp(fsm, lastCrId, lastCrOptions, pendingNak, nakIsReject, lastRxrCode, lastEchoId, lastEchoData, isOpen, authMethod, peerMru)
    }

    constructor (authMethod: AuthMethod)
      ensures View() == NewLcp(authMethod)
    {
      this.authMethod := authMethod;
      fsm, lastCrId, lastCrOptions, pendingNak, nakIsReject := New(), 0, [], [], false;
      lastRxrCode, lastEchoId, lastEchoData, isOpen, peerMru := 0, 0, [], false, None;
    }

    /** Verdict on a request; the Reject body and the MRU are kept. */
    method ClassifyConfigureRequest(opts: seq<byte>) returns (event: Event)
      modifies this
      ensures var v := LcpVerdict.Judge(opts, old(peerMru));
        && View() == old(View()).(pendingNak := v.body, nakIsReject := true, peerMru := v.mru)
        && event == (if v.good then RcvConfigReqGood else RcvConfigReqBad)
    {
      var v := LcpVerdict.Classify(opts, peerMru);
      pendingNak, nakIsReject, peerMru := v.body, true, v.mru;
      event := if v.good then RcvConfigReqGood else RcvConfigReqBad;
    }

    method OnPacket(auto: Automaton, pkt: LcpPacket) returns (out: StepOut)
      modifies this
      ensures var (l, event) := LcpReceives(old(View()), pkt);
        View() == l.(fsm := auto(l.fsm, event).0) && out == auto(l.fsm, event).1
    {
      var event;
      if pkt.code == 1 {
        lastCrId, lastCrOptions := pkt.id, pkt.data;
        event := ClassifyConfigureRequest(pkt.data);
      } else if pkt.code == 2 {
        event := RcvConfigAck;
      } else if pkt.code == 3 || pkt.code == 4 {
        event := RcvConfigNak;
      } else if pkt.code == 5 {
        event := RcvTerminateReq;
      } else if pkt.code == 6 {
        event := RcvTerminateAck;
      } else if pkt.code == 7 || pkt.code == 8 {
        event := RcvCodeRejPermitted;
      } else if 9 <= pkt.code <= 11 {
        lastRxrCode, lastEchoId, lastEchoData := pkt.code, pkt.id, pkt.data;
        event := RcvEcho;
      } else {
        event := RcvUnknownCode;
      }
      var step := auto(fsm, event);
      fsm, out := step.0, step.1;
    }

    method RenderSend(send: Option<Send>) returns (frames: seq<seq<byte>>)
      modifies this
      ensures var (l, ps) := RenderLcpSend(old(View()), send);
        View() == l && frames == WireAll(ps)
    {
      var pkt: Packet;
      match send {
      case None => return [];
      case Some(ConfigureRequest) =>
        fsm := BumpIdentifier(fsm);
        pkt := Packet(LCP, 1, fsm.identifier, OwnOptions(authMethod));
      case Some(ConfigureAck) => pkt := Packet(LCP, 2, lastCrId, lastCrOptions);
      case Some(ConfigureNak) => pkt := Packet(LCP, if nakIsReject then 4 else 3, lastCrId, pendingNak);
      case Some(TerminateReq) =>
        fsm := BumpIdentifier(fsm);
        pkt := Packet(LCP, 5, fsm.identifier, []);
      case Some(TerminateAck) => pkt := Packet(LCP, 6, lastCrId, []);
      case Some(EchoReply) =>
        if lastRxrCode != 9 {
          return [];
        }
        pkt := Packet(LCP, 10, lastEchoId, EchoReplyBody(lastEchoData));
      case Some(CodeReject) => return [];
      }
      var frame := EncodePacketFrame(pkt);
      frames := [frame];
      assert RenderLcpSend(old(View()), send).1 == [pkt];
      assert WireAll([pkt]) == [frame];
    }
  }

  class IpcpServer {
    var fsm: Fsm
    const addrs: IpcpVerdict.Addrs
    const localIp: Ipv4
    var lastCrId: byte
    var lastCrOptions: seq<byte>
    var pendingNak: seq<byte>
    var nakIsReject: bool
    var isOpen: bool

    ghost function View(): Ipcp
      reads this
    {
      Ipcp(fsm, addrs, localIp, lastCrId, lastCrOptions, pendingNak, nakIsReject, isOpen)
    }

    constructor (addrs: IpcpVerdict.Addrs, localIp: Ipv4)
      ensures View() == Ipcp(New(), addrs, localIp, 0, [], [], false, false)
    {
      this.addrs, this.localIp := addrs, localIp;
      fsm, lastCrId, lastCrOptions, pendingNak, nakIsReject, isOpen := New(), 0, [], [], false, false;
    }

    method OnPacket(auto: Automaton, pkt: LcpPacket) returns (out: StepOut)
      modifies this
      ensures var (i, event) := IpcpReceives(old(View()), pkt);
        View() == i.(fsm := auto(i.fsm, event).0) && out == auto(i.fsm, event).1
    {
      var event;
      if pkt.code == 1 {
        lastCrId, lastCrOptions := pkt.id, pkt.data;
        var v := IpcpVerdict.Classify(addrs, pkt.data);
        pendingNak, nakIsReject := v.body, v.isReject;
        event := if v.good then RcvConfigReqGood else RcvConfigReqBad;
      } else if pkt.code == 2 {
        event := RcvConfigAck;
      } else if pkt.code == 3 || pkt.code == 4 {
        event := RcvConfigNak;
      } else if pkt.code == 5 {
        event := RcvTerminateReq;
      } else if pkt.code == 6 {
        event := RcvTerminateAck;
      } else if pkt.code == 7 {
        event := RcvCodeRejPermitted;
      } else {
        event := RcvUnknownCode;
      }
      var step := auto(fsm, event);
      fsm, out := step.0, step.1;
    }

    method RenderSend(send: Option<Send>) returns (frames: seq<seq<byte>>)
      modifies this
      ensures var (i, ps) := RenderIpcpSend(old(View()), send);
        View() == i && frames == WireAll(ps)
    {
      var pkt: Packet;
      match send {
      case None => return [];
      case Some(ConfigureRequest) =>
        fsm := BumpIdentifier(fsm);
        pkt := Packet(IPCP, 1, fsm.identifier, EncodeOption(Opt(IpcpVerdict.IP_ADDRESS, localIp)));
      case Some(ConfigureAck) => pkt := Packet(IPCP, 2, lastCrId, lastCrOptions);
      case Some(ConfigureNak) => pkt := Packet(IPCP, if nakIsReject then 4 else 3, lastCrId, pendingNak);
      case Some(TerminateReq) =>
        fsm := BumpIdentifier(fsm);
        pkt := Packet(IPCP, 5, fsm.identifier, []);
      case Some(TerminateAck) => pkt := Packet(IPCP, 6, lastCrId, []);
      case Some(EchoReply) => return [];
      case Some(CodeReject) => return [];
      }
      var frame := EncodePacketFrame(pkt);
      frames := [frame];
      assert RenderIpcpSend(old(View()), send).1 == [pkt];
      assert WireAll([pkt]) == [frame];
    }
  }

  class Ppp {
    var phase: Phase
    const lcp: LcpServer
    var ipcp: IpcpServer?
    var pendingAddrs: Option<IpcpVerdict.Addrs>
    const localIp: Ipv4
    var challenge: Option<Nonce>
    var chapCounter: byte
    var extraCounter: byte

    ghost function IpcpView(): Option<Ipcp>
      reads this, ipcp
    {
      if ipcp == null then None else Some(ipcp.View())
    }

    ghost function View(): Link
      reads this, lcp, ipcp
    {
      Link(phase, lcp.View(), IpcpView(), pendingAddrs, localIp, challenge, chapCounter, extraCounter)
    }

    constructor (localIp: Ipv4, authMethod: AuthMethod)
      ensures View() == NewLink(localIp, authMethod)
      ensures fresh(lcp) && ipcp == null
    {
      lcp := new LcpServer(authMethod);
      this.localIp := localIp;
      phase, ipcp, pendingAddrs, challenge, chapCounter, extraCounter := Establish, null, None, None, 0, 0;
    }

    /** LCP came up: authentication starts, with a challenge unless the peer begins. */
    method EnterAuth(nonce: Nonce) returns (frames: seq<seq<byte>>)
      modifies this, lcp
      ensures var chap := !lcp.authMethod.UsePap?;
        && View() == old(View()).(
             lcp := old(View()).lcp.(isOpen := true), phase := AuthPending,
             challenge := if chap then Some(nonce) else old(challenge),
             chapCounter := if chap then (old(chapCounter) + 1) % 256 else old(chapCounter))
        && frames == WireAll(if chap then [ChallengePacket(old(chapCounter), nonce)] else [])
      ensures ipcp == old(ipcp)
    {
      lcp.isOpen := true;
      phase := AuthPending;
      frames := [];
      if !lcp.authMethod.UsePap? {
        var pkt := ChallengePacket(chapCounter, nonce);
        var frame := EncodePacketFrame(pkt);
        chapCounter := (chapCounter + 1) % 256;
        challenge := Some(nonce);
        frames := [frame];
        assert WireAll([pkt]) == [frame];
      }
    }

    method RenderLcpStep(out: StepOut, nonce: Nonce) returns (step: PppStep)
      modifies this, lcp
      ensures var (q, r) := RenderLcp(old(View()), out, nonce);
        View() == q && step == Encoded(r)
      ensures ipcp == old(ipcp)
    {
      var frames := RenderSends(out);
      ghost var sends := SendsOf(old(View()).lcp, out);
      var raised := Raised(out, lcp.isOpen);
      if raised {
        var f3 := EnterAuth(nonce);
        WireAllAppend(sends.1, if !lcp.authMethod.UsePap? then [ChallengePacket(old(chapCounter), nonce)] else []);
        frames := frames + f3;
      } else {
        assert sends.1 + [] == sends.1;
      }
      if out.notify.down {
        lcp.isOpen := false;
      }
      if out.notify.finished {
        phase := Dead;
      }
      step := PppStep(frames, Starts(out.timer, LcpTimer), Stops(out.timer, LcpTimer), None, out.notify.finished);
    }

    /** The one or two packets a step sends. */
    method RenderSends(out: StepOut) returns (frames: seq<seq<byte>>)
      modifies lcp
      ensures var (l, ps) := SendsOf(old(lcp.View()), out);
        lcp.View() == l && frames == WireAll(ps)
    {
      var f1 := lcp.RenderSend(out.send);
      var f2 := lcp.RenderSend(out.extra);
      ghost var (l1, p1) := RenderLcpSend(old(lcp.View()), out.send);
      WireAllAppend(p1, RenderLcpSend(l1, out.extra).1);
      frames := f1 + f2;
    }

    method RenderIpcpStep(out: StepOut) returns (step: PppStep)
      requires ipcp != null
      modifies ipcp
      ensures var (q, r) := RenderIpcp(old(View()), out);
        View() == q && step == Encoded(r)
    {
      var f1 := ipcp.RenderSend(out.send);
      var f2 := ipcp.RenderSend(out.extra);
      ghost var (i1, p1) := RenderIpcpSend(old(View()).ipcp.value, out.send);
      ghost var (i2, p2) := RenderIpcpSend(i1, out.extra);
      WireAllAppend(p1, p2);
      var event := None;
      if out.notify.up && !ipcp.isOpen {
        ipcp.isOpen := true;
        if pendingAddrs.Some? {
          event := Some(NetworkUp(pendingAddrs.value));
        }
      }
      step := PppStep(f1 + f2, Starts(out.timer, IpcpTimer), Stops(out.timer, IpcpTimer), event, out.notify.finished);
    }

    /** Drive the LCP automaton. */
    method LcpStep(auto: Automaton, event: Event, nonce: Nonce) returns (step: PppStep)
      modifies this, lcp
      ensures var (q, r) := LcpEvent(auto, old(View()), event, nonce);
        View() == q && step == Encoded(r)
      ensures ipcp == old(ipcp)
    {
      var t := auto(lcp.fsm, event);
      lcp.fsm := t.0;
      step := RenderLcpStep(t.1, nonce);
    }

    method Open(auto: Automaton, nonce: Nonce) returns (step: PppStep)
      modifies this, lcp
      ensures var (q, r) := PppModel.OnOpen(auto, old(View()), nonce);
        View() == q && step == Encoded(r)
      ensures ipcp == old(ipcp)
    {
      lcp.fsm := auto(lcp.fsm, Event.Open).0;
      step := LcpStep(auto, Up, nonce);
    }

    method OnTimer(auto: Automaton, owner: Owner, nonce: Nonce) returns (step: PppStep)
      modifies this, lcp, ipcp
      ensures var (q, r) := PppModel.OnTimer(auto, old(View()), owner, nonce);
        View() == q && step == Encoded(r)
      ensures ipcp == old(ipcp)
    {
      match owner
      case LcpTimer =>
        step := LcpStep(auto, RestartTimeout, nonce);
      case IpcpTimer =>
        if ipcp == null {
          return NOTHING;
        }
        var t := auto(ipcp.fsm, RestartTimeout);
        ipcp.fsm := t.0;
        step := RenderIpcpStep(t.1);
    }

    method HandleLcp(auto: Automaton, info: seq<byte>, nonce: Nonce) returns (step: PppStep)
      modifies this, lcp
      ensures var (q, r) := PppModel.HandleLcp(auto, old(View()), info, nonce);
        View() == q && step == Encoded(r)
      ensures ipcp == old(ipcp)
    {
      var pkt := DecodePacket(info);
      if pkt.None? {
        return NOTHING;
      }
      var out := lcp.OnPacket(auto, pkt.value);
      step := RenderLcpStep(out, nonce);
    }

    method HandleIpcp(auto: Automaton, info: seq<byte>) returns (step: PppStep)
      modifies ipcp
      ensures var (q, r) := PppModel.HandleIpcp(auto, old(View()), info);
        View() == q && step == Encoded(r)
    {
      var pkt := DecodePacket(info);
      if pkt.None? || ipcp == null {
        return NOTHING;
      }
      var out := ipcp.OnPacket(auto, pkt.value);
      step := RenderIpcpStep(out);
    }

    method HandlePap(info: seq<byte>) returns (step: PppStep)
      modifies this
      ensures var (q, r) := PppModel.HandlePap(old(View()), info);
        View() == q && step == Encoded(r)
      ensures ipcp == old(ipcp)
    {
      var req := DecodePap(info);
      if req.None? {
        return NOTHING;
      }
      phase := AuthInFlight(PapFlight(req.value.id));
      step := PppStep([], [], [], Some(NeedPapAuth(req.value.peerId, req.value.password)), false);
    }

    method HandleChap(info: seq<byte>) returns (step: PppStep)
      modifies this
      ensures var (q, r) := PppModel.HandleChap(old(View()), info);
        View() == q && step == Encoded(r)
      ensures ipcp == old(ipcp)
    {
      var d := DecodeChap(info);
      if d.None? {
        return NOTHING;
      }
      var resp := d.value;
      var event: PppEvent;
      match lcp.authMethod {
      case UseChapMd5 =>
        if |resp.value| != 16 || challenge.None? {
          return NOTHING;
        }
        phase := AuthInFlight(ChapFlight(resp.id));
        event := NeedChapAuth(resp.name, resp.id, challenge.value, resp.value);
      case UseMsChapV2 =>
        if |resp.value| != 49 || challenge.None? {
          return NOTHING;
        }
        var zeros := ReservedIsZero(resp.value);
        if !zeros {
          return NOTHING;
        }
        phase := AuthInFlight(MsChapFlight(resp.id));
        event := NeedMsChapV2Auth(resp.name, resp.id, challenge.value, resp.value[..16], resp.value[24..48], resp.value[48]);
      case UsePap =>
        return NOTHING;
      }
      step := PppStep([], [], [], Some(event), false);
    }

    method ProtocolReject(protocol: nat, info: seq<byte>) returns (step: PppStep)
      modifies this
      ensures var (q, r) := PppModel.ProtocolReject(old(View()), protocol, info);
        View() == q && step == Encoded(r)
      ensures ipcp == old(ipcp)
    {
      if !lcp.isOpen {
        return NOTHING;
      }
      var max := DEFAULT_MRU - PACKET_HEADER_LEN - 2;
      var body := Be16(protocol) + (if |info| > max then info[..max] else info);
      var pkt := Packet(LCP, 8, extraCounter, body);
      extraCounter := (extraCounter + 1) % 256;
      var frame := EncodePacketFrame(pkt);
      assert WireAll([pkt]) == [frame];
      step := PppStep([frame], [], [], None, false);
    }

    method OnFrame(auto: Automaton, payload: seq<byte>, nonce: Nonce) returns (step: PppStep)
      modifies this, lcp, ipcp
      ensures var (q, r) := PppModel.OnFrame(auto, old(View()), payload, nonce);
        View() == q && step == Encoded(r)
      ensures ipcp == old(ipcp)
    {
      var d := DecodeFrame(payload);
      if d.None? {
        return NOTHING;
      }
      var f := d.value;
      if f.protocol == LCP {
        step := HandleLcp(auto, f.info, nonce);
      } else if f.protocol == PAP && Authenticating(phase) {
        step := HandlePap(f.info);
      } else if f.protocol == CHAP && Authenticating(phase) {
        step := HandleChap(f.info);
      } else if f.protocol == PAP || f.protocol == CHAP {
        step := NOTHING;
      } else if f.protocol == IPCP && phase.Network? {
        step := HandleIpcp(auto, f.info);
      } else if f.protocol == IPCP {
        step := NOTHING;
      } else {
        step := ProtocolReject(f.protocol, f.info);
      }
    }

    method AdvanceToNetwork(auto: Automaton, addrs: IpcpVerdict.Addrs) returns (step: PppStep)
      modifies this
      ensures var (q, r) := PppModel.AdvanceToNetwork(auto, old(View()), addrs);
        View() == q && step == Encoded(r)
      ensures ipcp != null && fresh(ipcp)
    {
      var mtu := addrs.mtu;
      match (addrs.mtu, lcp.peerMru) {
      case (Some(framed), Some(peer)) => mtu := Some(Min(framed, peer));
      case (None, Some(peer)) => mtu := Some(peer);
      case (_, None) =>
      }
      var merged := addrs.(mtu := mtu);
      pendingAddrs := Some(merged);
      phase := Network;
      var server := new IpcpServer(merged, localIp);
      server.fsm := auto(server.fsm, Event.Open).0;
      var t := auto(server.fsm, Up);
      server.fsm := t.0;
      ipcp := server;
      step := RenderIpcpStep(t.1);
    }

    method TearDownAfterReject(auto: Automaton, nonce: Nonce) returns (step: PppStep)
      modifies this, lcp
      ensures var (q, r) := TearDown(auto, old(View()), nonce);
        View() == q && step == Encoded(r)
      ensures ipcp == old(ipcp)
    {
      step := LcpStep(auto, Close, nonce);
      step := step.(finished := true);
      phase := Dead;
    }

    /** The verdict packet, then what the verdict sets off. */
    method Conclude(auto: Automaton, verdict: PppModel.Verdict, yes: Packet, no: Packet, nonce: Nonce) returns (step: PppStep)
      modifies this, lcp
      ensures var (q, r) := PppModel.Conclude(auto, old(View()), verdict, yes, no, nonce);
        View() == q && step == Encoded(r)
      ensures ipcp == old(ipcp) || (ipcp != null && fresh(ipcp))
    {
      var pkt := if verdict.Accept? then yes else no;
      var frame := EncodePacketFrame(pkt);
      if verdict.Accept? {
        step := AdvanceToNetwork(auto, verdict.addrs);
        WireAllAppend([pkt], PppModel.AdvanceToNetwork(auto, old(View()), verdict.addrs).1.packets);
      } else {
        step := TearDownAfterReject(auto, nonce);
        WireAllAppend([pkt], TearDown(auto, old(View()), nonce).1.packets);
      }
      assert WireAll([pkt]) == [frame];
      step := step.(frames := [frame] + step.frames);
    }

    method OnAuthResult(auto: Automaton, verdict: PppModel.Verdict, nonce: Nonce) returns (step: PppStep)
      modifies this, lcp
      ensures var (q, r) := PppModel.OnAuthResult(auto, old(View()), verdict, nonce);
        View() == q && step == Encoded(r)
      ensures ipcp == old(ipcp) || (ipcp != null && fresh(ipcp))
    {
      if !phase.AuthInFlight? {
        return NOTHING;
      }
      var message := Message(verdict);
      match phase.flight
      case PapFlight(id) =>
        step := Conclude(auto, verdict, PapAnswer(PAP_ACK, id, []), PapAnswer(PAP_NAK, id, Trim(message, 11)), nonce);
      case ChapFlight(id) =>
        step := Conclude(auto, verdict, Packet(CHAP, SUCCESS, id, []), Packet(CHAP, FAILURE, id, Trim(message, 255)), nonce);
      case MsChapFlight(_) =>
        step := NOTHING;
    }

    method OnMsChapResult(auto: Automaton, verdict: PppModel.Verdict, response: Option<seq<byte>>,
                          error: Option<seq<byte>>, nonce: Nonce) returns (step: PppStep)
      modifies this, lcp
      ensures var (q, r) := PppModel.OnMsChapResult(auto, old(View()), verdict, response, error, nonce);
        View() == q && step == Encoded(r)
      ensures ipcp == old(ipcp) || (ipcp != null && fresh(ipcp))
    {
      if !phase.AuthInFlight? || !phase.flight.MsChapFlight? {
        return NOTHING;
      }
      var id := phase.flight.id;
      step := Conclude(auto, verdict, Packet(CHAP, SUCCESS, id, Trim(OrEmpty(response), 255)),
                       Packet(CHAP, FAILURE, id, Trim(ErrorText(verdict, error), 255)), nonce);
    }

    /** One call of the session. */
    method Handle(auto: Automaton, input: Input) returns (step: PppStep)
      modifies this, lcp, ipcp
      ensures var (q, r) := Respond(auto, old(View()), input);
        View() == q && step == Encoded(r)
      ensures ipcp == old(ipcp) || (ipcp != null && fresh(ipcp))
    {
      match input
      case OpenLink(n) => step := Open(auto, n);
      case Frame(payload, n) => step := OnFrame(auto, payload, n);
      case Timeout(owner, n) => step := OnTimer(auto, owner, n);
      case AuthResult(v, n) => step := OnAuthResult(auto, v, n);
      case MsChapResult(v, r, e, n) => step := OnMsChapResult(auto, v, r, e, n);
    }
  }

  /** Whether the eight reserved bytes of a response are all zero. */
  method ReservedIsZero(value: seq<byte>) returns (zero: bool)
    requires |value| == 49
    ensures zero <==> MsChapShape(value)
  {
    for i := 16 to 24
      invariant forall k :: 16 <= k < i ==> value[k] == 0
    {
      if value[i] != 0 {
        return false;
      }
    }
    zero := true;
  }
}
