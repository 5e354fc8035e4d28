/** The PPP server driver (src/ppp/driver.rs) as functions on values: LCP and IPCP
    servers, authentication, phases, and the packets and events each call answers with.
    The automaton is a parameter; the random challenge a step may draw is an input. */
module PppModel {
  import opened Bytes
  import opened Fsm
  import opened PppCodec
  import opened PppOptions
  import LcpVerdict
  import opened IpcpVerdict
  import Utf8

  const DEFAULT_MRU: nat := 1500
  const CHALLENGE: byte := 1
  const SUCCESS: byte := 3
  const FAILURE: byte := 4
  const PAP_ACK: byte := 2
  const PAP_NAK: byte := 3

  /** "sstp-server" */
  const SERVER_NAME: seq<byte> := [0x73, 0x73, 0x74, 0x70, 0x2d, 0x73, 0x65, 0x72, 0x76, 0x65, 0x72]

  /** "E=691 R=0 V=3 M=" */
  const ERROR_PREFIX: seq<byte> :=
    [0x45, 0x3d, 0x36, 0x39, 0x31, 0x20, 0x52, 0x3d, 0x30, 0x20, 0x56, 0x3d, 0x33, 0x20, 0x4d, 0x3d]

  type Nonce = s: seq<byte> | |s| == 16 witness seq(16, _ => 0)

  datatype AuthMethod = UsePap | UseChapMd5 | UseMsChapV2

  datatype InFlight = PapFlight(id: byte) | ChapFlight(id: byte) | MsChapFlight(id: byte)

  datatype Phase = Establish | AuthPending | AuthInFlight(flight: InFlight) | Network | Dead

  datatype Lcp = Lcp(
    fsm: Fsm, lastCrId: byte, lastCrOptions: seq<byte>, pendingNak: seq<byte>, nakIsReject: bool,
    lastRxrCode: byte, lastEchoId: byte, lastEchoData: seq<byte>,
    isOpen: bool, authMethod: AuthMethod, peerMru: Option<nat>)

  datatype Ipcp = Ipcp(
    fsm: Fsm, addrs: Addrs, localIp: Ipv4, lastCrId: byte, lastCrOptions: seq<byte>,
    pendingNak: seq<byte>, nakIsReject: bool, isOpen: bool)

  datatype Link = Link(
    phase: Phase, lcp: Lcp, ipcp: Option<Ipcp>, pendingAddrs: Option<Addrs>, localIp: Ipv4,
    challenge: Option<Nonce>, chapCounter: byte, extraCounter: byte)

  datatype Owner = LcpTimer | IpcpTimer

  datatype PppEvent =
    | NeedPapAuth(peerId: seq<byte>, password: seq<byte>)
    | NeedChapAuth(user: seq<byte>, chapId: byte, challenge: Nonce, response: seq<byte>)
    | NeedMsChapV2Auth(user: seq<byte>, chapId: byte, challenge: Nonce,
                       peerChallenge: seq<byte>, ntResponse: seq<byte>, flags: byte)
    | NetworkUp(addrs: Addrs)

  datatype Reply = Reply(
    packets: seq<Packet>, starts: seq<Owner>, stops: seq<Owner>, event: Option<PppEvent>, finished: bool)

  datatype Verdict = Accept(addrs: Addrs) | Reject(message: seq<byte>)

  const SILENT := Reply([], [], [], None, false)

  function NewLcp(method_: AuthMethod): Lcp {
    Lcp(New(), 0, [], [], false, 0, 0, [], false, method_, None)
  }

  function NewLink(localIp: Ipv4, method_: AuthMethod): Link {
    Link(Establish, NewLcp(method_), None, None, localIp, None, 0, 0)
  }

  // ---------------------------------------------------------------------------
  // Packets
  // ---------------------------------------------------------------------------

  function OwnOptions(m: AuthMethod): seq<byte> {
    EncodeOption(Opt(LcpVerdict.AUTH_PROTOCOL, match m
      case UsePap => [0xC0, 0x23]
      case UseChapMd5 => [0xC2, 0x23, 0x05]
      case UseMsChapV2 => [0xC2, 0x23, 0x81]))
  }

  function EchoReplyBody(data: seq<byte>): seq<byte> {
    [0, 0, 0, 0] + (if |data| > 4 then data[4..] else [])
  }

  function RenderLcpSend(lcp: Lcp, send: Option<Send>): (Lcp, seq<Packet>) {
    match send
    case None => (lcp, [])
    case Some(ConfigureRequest) =>
      var f := BumpIdentifier(lcp.fsm);
      (lcp.(fsm := f), [Packet(LCP, 1, f.identifier, OwnOptions(lcp.authMethod))])
    case Some(ConfigureAck) => (lcp, [Packet(LCP, 2, lcp.lastCrId, lcp.lastCrOptions)])
    case Some(ConfigureNak) => (lcp, [Packet(LCP, if lcp.nakIsReject then 4 else 3, lcp.lastCrId, lcp.pendingNak)])
    case Some(TerminateReq) =>
      var f := BumpIdentifier(lcp.fsm);
      (lcp.(fsm := f), [Packet(LCP, 5, f.identifier, [])])
    case Some(TerminateAck) => (lcp, [Packet(LCP, 6, lcp.lastCrId, [])])
    case Some(EchoReply) =>
      if lcp.lastRxrCode != 9 then (lcp, [])
      else (lcp, [Packet(LCP, 10, lcp.lastEchoId, EchoReplyBody(lcp.lastEchoData))])
    case Some(CodeReject) => (lcp, [])
  }

  function RenderIpcpSend(ipcp: Ipcp, send: Option<Send>): (Ipcp, seq<Packet>) {
    match send
    case None => (ipcp, [])
    case Some(ConfigureRequest) =>
      var f := BumpIdentifier(ipcp.fsm);
      (ipcp.(fsm := f), [Packet(IPCP, 1, f.identifier, EncodeOption(Opt(IP_ADDRESS, ipcp.localIp)))])
    case Some(ConfigureAck) => (ipcp, [Packet(IPCP, 2, ipcp.lastCrId, ipcp.lastCrOptions)])
    case Some(ConfigureNak) => (ipcp, [Packet(IPCP, if ipcp.nakIsReject then 4 else 3, ipcp.lastCrId, ipcp.pendingNak)])
    case Some(TerminateReq) =>
      var f := BumpIdentifier(ipcp.fsm);
      (ipcp.(fsm := f), [Packet(IPCP, 5, f.identifier, [])])
    case Some(TerminateAck) => (ipcp, [Packet(IPCP, 6, ipcp.lastCrId, [])])
    case Some(EchoReply) => (ipcp, [])
    case Some(CodeReject) => (ipcp, [])
  }

  function Starts(t: Option<Timer>, owner: Owner): seq<Owner> {
    if t == Some(Start) then [owner] else []
  }

  function Stops(t: Option<Timer>, owner: Owner): seq<Owner> {
    if t == Some(Stop) then [owner] else []
  }

  function ChallengePacket(id: byte, nonce: Nonce): Packet {
    ChapValuePacket(CHALLENGE, id, nonce, SERVER_NAME)
  }

  /** The first `up` of a layer that is not open. */
  predicate Raised(out: StepOut, isOpen: bool) {
    out.notify.up && !isOpen
  }

  predicate Challenges(p: Link, out: StepOut) {
    Raised(out, p.lcp.isOpen) && !p.lcp.authMethod.UsePap?
  }

  /** The one or two packets a step sends, in order. */
  function SendsOf(lcp: Lcp, out: StepOut): (Lcp, seq<Packet>) {
    var (l1, f1) := RenderLcpSend(lcp, out.send);
    var (l2, f2) := RenderLcpSend(l1, out.extra);
    (l2, f1 + f2)
  }

  function RenderLcp(p: Link, out: StepOut, nonce: Nonce): (Link, Reply) {
    var (l2, sends) := SendsOf(p.lcp, out);
    var raised, challenges := Raised(out, p.lcp.isOpen), Challenges(p, out);
    var f3 := if challenges then [ChallengePacket(p.chapCounter, nonce)] else [];
    var q := p.(
      lcp := l2.(isOpen := (l2.isOpen || raised) && !out.notify.down),
      phase := if out.notify.finished then Dead else if raised then AuthPending else p.phase,
      challenge := if challenges then Some(nonce) else p.challenge,
      chapCounter := if challenges then (p.chapCounter + 1) % 256 else p.chapCounter);
    (q, Reply(sends + f3, Starts(out.timer, LcpTimer), Stops(out.timer, LcpTimer), None, out.notify.finished))
  }

  function RenderIpcp(p: Link, out: StepOut): (Link, Reply)
    requires p.ipcp.Some?
  {
    var (i1, f1) := RenderIpcpSend(p.ipcp.value, out.send);
    var (i2, f2) := RenderIpcpSend(i1, out.extra);
    var raised := Raised(out, i2.isOpen);
    var event := if raised && p.pendingAddrs.Some? then Some(NetworkUp(p.pendingAddrs.value)) else None;
    (p.(ipcp := Some(i2.(isOpen := i2.isOpen || raised))),
     Reply(f1 + f2, Starts(out.timer, IpcpTimer), Stops(out.timer, IpcpTimer), event, out.notify.finished))
  }

  // ---------------------------------------------------------------------------
  // Inbound packets
  // ---------------------------------------------------------------------------

  function LcpReceives(lcp: Lcp, pkt: LcpPacket): (Lcp, Event) {
    match pkt.code
    case 1 =>
      var v := LcpVerdict.Judge(pkt.data, lcp.peerMru);
      (lcp.(lastCrId := pkt.id, lastCrOptions := pkt.data, pendingNak := v.body, nakIsReject := true, peerMru := v.mru),
       if v.good then RcvConfigReqGood else RcvConfigReqBad)
    case 2 => (lcp, RcvConfigAck)
    case 3 => (lcp, RcvConfigNak)
    case 4 => (lcp, RcvConfigNak)
    case 5 => (lcp, RcvTerminateReq)
    case 6 => (lcp, RcvTerminateAck)
    case 7 => (lcp, RcvCodeRejPermitted)
    case 8 => (lcp, RcvCodeRejPermitted)
    case _ =>
      if 9 <= pkt.code <= 11 then (lcp.(lastRxrCode := pkt.code, lastEchoId := pkt.id, lastEchoData := pkt.data), RcvEcho)
      else (lcp, RcvUnknownCode)
  }

  function IpcpReceives(ipcp: Ipcp, pkt: LcpPacket): (Ipcp, Event) {
    match pkt.code
    case 1 =>
      var v := Judge(ipcp.addrs, pkt.data);
      (ipcp.(lastCrId := pkt.id, lastCrOptions := pkt.data, pendingNak := v.body, nakIsReject := v.isReject),
       if v.good then RcvConfigReqGood else RcvConfigReqBad)
    case 2 => (ipcp, RcvConfigAck)
    case 3 => (ipcp, RcvConfigNak)
    case 4 => (ipcp, RcvConfigNak)
    case 5 => (ipcp, RcvTerminateReq)
    case 6 => (ipcp, RcvTerminateAck)
    case 7 => (ipcp, RcvCodeRejPermitted)
    case _ => (ipcp, RcvUnknownCode)
  }

  /** Drive the LCP automaton and render what it asks for. */
  function LcpEvent(auto: Automaton, p: Link, event: Event, nonce: Nonce): (Link, Reply) {
    var (f, out) := auto(p.lcp.fsm, event);
    RenderLcp(p.(lcp := p.lcp.(fsm := f)), out, nonce)
  }

  function IpcpEvent(auto: Automaton, p: Link, event: Event): (Link, Reply)
    requires p.ipcp.Some?
  {
    var (f, out) := auto(p.ipcp.value.fsm, event);
    RenderIpcp(p.(ipcp := Some(p.ipcp.value.(fsm := f))), out)
  }

  function HandleLcp(auto: Automaton, p: Link, info: seq<byte>, nonce: Nonce): (Link, Reply) {
    match DecodePacket(info)
    case None => (p, SILENT)
    case Some(pkt) =>
      var (l, event) := LcpReceives(p.lcp, pkt);
      LcpEvent(auto, p.(lcp := l), event, nonce)
  }

  function HandleIpcp(auto: Automaton, p: Link, info: seq<byte>): (Link, Reply) {
    match DecodePacket(info)
    case None => (p, SILENT)
    case Some(pkt) =>
      if p.ipcp.None? then (p, SILENT)
      else
        var (i, event) := IpcpReceives(p.ipcp.value, pkt);
        IpcpEvent(auto, p.(ipcp := Some(i)), event)
  }

  function Raise(p: Link, flight: InFlight, event: PppEvent): (Link, Reply) {
    (p.(phase := AuthInFlight(flight)), Reply([], [], [], Some(event), false))
  }

  function HandlePap(p: Link, info: seq<byte>): (Link, Reply) {
    match DecodePap(info)
    case None => (p, SILENT)
    case Some(r) => Raise(p, PapFlight(r.id), NeedPapAuth(r.peerId, r.password))
  }

  /** Peer-Challenge, eight zero bytes, NT-Response, Flags (section 6 of RFC 2759). */
  predicate MsChapShape(value: seq<byte>) {
    |value| == 49 && forall i :: 16 <= i < 24 ==> value[i] == 0
  }

  function HandleChap(p: Link, info: seq<byte>): (Link, Reply) {
    match DecodeChap(info)
    case None => (p, SILENT)
    case Some(r) =>
      if p.challenge.None? then (p, SILENT)
      else if p.lcp.authMethod.UseChapMd5? && |r.value| == 16 then
        Raise(p, ChapFlight(r.id), NeedChapAuth(r.name, r.id, p.challenge.value, r.value))
      else if p.lcp.authMethod.UseMsChapV2? && MsChapShape(r.value) then
        Raise(p, MsChapFlight(r.id),
              NeedMsChapV2Auth(r.name, r.id, p.challenge.value, r.value[..16], r.value[24..48], r.value[48]))
      else (p, SILENT)
  }

  function ProtocolReject(p: Link, protocol: nat, info: seq<byte>): (Link, Reply) {
    if !p.lcp.isOpen then (p, SILENT)
    else
      var max := DEFAULT_MRU - PACKET_HEADER_LEN - 2;
      var body := Be16(protocol) + (if |info| > max then info[..max] else info);
      (p.(extraCounter := (p.extraCounter + 1) % 256),
       Reply([Packet(LCP, 8, p.extraCounter, body)], [], [], None, false))
  }

  predicate Authenticating(phase: Phase) {
    phase.AuthPending? || phase.AuthInFlight?
  }

  function OnFrame(auto: Automaton, p: Link, payload: seq<byte>, nonce: Nonce): (Link, Reply) {
    match DecodeFrame(payload)
    case None => (p, SILENT)
    case Some(f) =>
      if f.protocol == LCP then HandleLcp(auto, p, f.info, nonce)
      else if f.protocol == PAP then
        if Authenticating(p.phase) then HandlePap(p, f.info) else (p, SILENT)
      else if f.protocol == CHAP then
        if Authenticating(p.phase) then HandleChap(p, f.info) else (p, SILENT)
      else if f.protocol == IPCP then
        if p.phase.Network? then HandleIpcp(auto, p, f.info) else (p, SILENT)
      else ProtocolReject(p, f.protocol, f.info)
  }

  function OnTimer(auto: Automaton, p: Link, owner: Owner, nonce: Nonce): (Link, Reply) {
    match owner
    case LcpTimer => LcpEvent(auto, p, RestartTimeout, nonce)
    case IpcpTimer => if p.ipcp.None? then (p, SILENT) else IpcpEvent(auto, p, RestartTimeout)
  }

  // ---------------------------------------------------------------------------
  // Verdicts
  // ---------------------------------------------------------------------------

  function Min(a: nat, b: nat): nat {
    if a < b then a else b
  }

  /** Framed-MTU and the peer's MRU, the smaller when both are known. */
  function MergeMtu(addrs: Addrs, mru: Option<nat>): Addrs {
    if mru.None? then addrs
    else if addrs.mtu.None? then addrs.(mtu := mru)
    else addrs.(mtu := Some(Min(addrs.mtu.value, mru.value)))
  }

  function NewIpcp(auto: Automaton, addrs: Addrs, localIp: Ipv4): (Ipcp, StepOut) {
    var f0 := auto(New(), Open).0;
    var (f, out) := auto(f0, Up);
    (Ipcp(f, addrs, localIp, 0, [], [], false, false), out)
  }

  function AdvanceToNetwork(auto: Automaton, p: Link, addrs: Addrs): (Link, Reply) {
    var merged := MergeMtu(addrs, p.lcp.peerMru);
    var (ipcp, out) := NewIpcp(auto, merged, p.localIp);
    RenderIpcp(p.(pendingAddrs := Some(merged), phase := Network, ipcp := Some(ipcp)), out)
  }

  function TearDown(auto: Automaton, p: Link, nonce: Nonce): (Link, Reply) {
    var (q, r) := LcpEvent(auto, p, Close, nonce);
    (q.(phase := Dead), r.(finished := true))
  }

  function Trim(s: seq<byte>, n: nat): (r: seq<byte>)
    ensures |r| <= n
  {
    if |s| > n then s[..n] else s
  }

  /** The verdict packet first, then what the verdict sets off. */
  function Conclude(auto: Automaton, p: Link, verdict: Verdict, yes: Packet, no: Packet, nonce: Nonce): (Link, Reply) {
    match verdict
    case Accept(addrs) =>
      var (q, r) := AdvanceToNetwork(auto, p, addrs); (q, r.(packets := [yes] + r.packets))
    case Reject(_) =>
      var (q, r) := TearDown(auto, p, nonce); (q, r.(packets := [no] + r.packets))
  }

  function Message(v: Verdict): seq<byte> {
    if v.Reject? then v.message else []
  }

  function OnAuthResult(auto: Automaton, p: Link, verdict: Verdict, nonce: Nonce): (Link, Reply) {
    if !p.phase.AuthInFlight? then (p, SILENT)
    else
      match p.phase.flight
      case PapFlight(id) =>
        Conclude(auto, p, verdict, PapAnswer(PAP_ACK, id, []), PapAnswer(PAP_NAK, id, Trim(Message(verdict), 11)), nonce)
      case ChapFlight(id) =>
        Conclude(auto, p, verdict, Packet(CHAP, SUCCESS, id, []), Packet(CHAP, FAILURE, id, Trim(Message(verdict), 255)), nonce)
      case MsChapFlight(_) => (p, SILENT)
  }

  /** The error text given, or one made from the reject message as text. */
  function ErrorText(verdict: Verdict, error: Option<seq<byte>>): seq<byte> {
    if error.Some? then error.value else ERROR_PREFIX + Utf8.Lossy(Message(verdict))
  }

  function OrEmpty(s: Option<seq<byte>>): seq<byte> {
    if s.Some? then s.value else []
  }

  function OnMsChapResult(auto: Automaton, p: Link, verdict: Verdict, response: Option<seq<byte>>,
                          error: Option<seq<byte>>, nonce: Nonce): (Link, Reply) {
    if !p.phase.AuthInFlight? || !p.phase.flight.MsChapFlight? then (p, SILENT)
    else
      var id := p.phase.flight.id;
      Conclude(auto, p, verdict,
               Packet(CHAP, SUCCESS, id, Trim(OrEmpty(response), 255)),
               Packet(CHAP, FAILURE, id, Trim(ErrorText(verdict, error), 255)), nonce)
  }

  function OnOpen(auto: Automaton, p: Link, nonce: Nonce): (Link, Reply) {
    var f := auto(p.lcp.fsm, Event.Open).0;
    LcpEvent(auto, p.(lcp := p.lcp.(fsm := f)), Up, nonce)
  }

  // ---------------------------------------------------------------------------
  // Runs
  // ---------------------------------------------------------------------------

  /** One call on the driver, with the challenge it would draw. */
  datatype Input =
    | OpenLink(nonce: Nonce)
    | Frame(payload: seq<byte>, nonce: Nonce)
    | Timeout(owner: Owner, nonce: Nonce)
    | AuthResult(verdict: Verdict, nonce: Nonce)
    | MsChapResult(verdict: Verdict, response: Option<seq<byte>>, error: Option<seq<byte>>, nonce: Nonce)

  function Respond(auto: Automaton, p: Link, input: Input): (Link, Reply) {
    match input
    case OpenLink(n) => OnOpen(auto, p, n)
    case Frame(payload, n) => OnFrame(auto, p, payload, n)
    case Timeout(owner, n) => OnTimer(auto, p, owner, n)
    case AuthResult(v, n) => OnAuthResult(auto, p, v, n)
    case MsChapResult(v, r, e, n) => OnMsChapResult(auto, p, v, r, e, n)
  }
}
