/** Whole runs of the driver, whatever the automaton does. The history is computed from
    the calls and the answers alone; the theorems relate each answer to it. */
module PppRuns {
  import opened Bytes
  import opened Fsm
  import opened PppCodec
  import opened PppOptions
  import LcpVerdict
  import opened IpcpVerdict
  import opened PppModel
  import opened PppSaid

  /** What an observer of the calls and answers knows. */
  datatype History = History(
    accepts: nat,                // Accept verdicts that took effect
    upsSince: nat,               // NetworkUp events since the last of them
    offer: Option<Addrs>,        // the addresses of the last of them
    offerMru: Option<nat>,       // the MRU known by then
    granted: Option<Addrs>,      // those addresses, MTU merged with that MRU
    mru: Option<nat>,            // last MRU the peer asked for
    cred: Option<(nat, byte)>,   // protocol and identifier of the last credential packet
    challenge: Option<seq<byte>>, // last CHAP challenge sent
    challenges: nat,             // how many were sent
    rejects: nat)                // Protocol-Rejects sent

  const BLANK := History(0, 0, None, None, None, None, None, None, 0, 0)

  /** The request an inbound frame carries, if it is a Configure-Request of `protocol`. */
  function RequestIn(input: Input, protocol: nat): Option<LcpPacket> {
    if !input.Frame? || DecodeFrame(input.payload).None? then None
    else
      var f := DecodeFrame(input.payload).value;
      if f.protocol != protocol || DecodePacket(f.info).None? || DecodePacket(f.info).value.code != 1 then None
      else DecodePacket(f.info)
  }

  function MruAfter(mru: Option<nat>, input: Input): Option<nat> {
    match RequestIn(input, LCP)
    case None => mru
    case Some(pkt) => LcpVerdict.MruOf(ParseOptions(pkt.data).opts, mru)
  }

  /** An Accept takes effect exactly when it is answered. */
  predicate TakesEffect(input: Input, reply: Reply) {
    IsVerdict(input) && input.verdict.Accept? && reply.packets != []
  }

  /** Protocol and Identifier of the packet in a frame. */
  function CredentialOf(input: Input): Option<(nat, byte)> {
    if !input.Frame? || DecodeFrame(input.payload).None? then None
    else
      var f := DecodeFrame(input.payload).value;
      if |f.info| < 2 then None else Some((f.protocol, f.info[1]))
  }

  /** The last challenge among the packets, read from its bytes. */
  function LastChallenge(ps: seq<Packet>, before: Option<seq<byte>>): Option<seq<byte>> {
    if ps == [] then before
    else if IsChallenge(ps[|ps| - 1]) && DecodeChap(Envelope(ps[|ps| - 1])).Some? then
      Some(DecodeChap(Envelope(ps[|ps| - 1])).value.value)
    else LastChallenge(ps[..|ps| - 1], before)
  }

  function Ups(event: Option<PppEvent>): nat {
    if event.Some? && event.value.NetworkUp? then 1 else 0
  }

  function Observe(h: History, input: Input, reply: Reply): History {
    var mru, effect := MruAfter(h.mru, input), TakesEffect(input, reply);
    History(
      h.accepts + (if effect then 1 else 0),
      (if effect then 0 else h.upsSince) + Ups(reply.event),
      if effect then Some(input.verdict.addrs) else h.offer,
      if effect then mru else h.offerMru,
      if effect then Some(MergeMtu(input.verdict.addrs, mru)) else h.granted,
      mru,
      if AsksForAuth(reply.event) then CredentialOf(input) else h.cred,
      LastChallenge(reply.packets, h.challenge),
      h.challenges + ChallengesIn(reply.packets),
      h.rejects + RejectsIn(reply.packets))
  }

  // ---------------------------------------------------------------------------
  // The driver's state against the history
  // ---------------------------------------------------------------------------

  function FlightProtocol(f: InFlight): nat {
    if f.PapFlight? then PAP else CHAP
  }

  ghost predicate AddressesTied(p: Link, h: History) {
    && p.pendingAddrs == h.granted
    && p.ipcp.Some? == h.granted.Some?
    && (p.ipcp.Some? ==> p.ipcp.value.addrs == h.granted.value)
    && h.upsSince == (if p.ipcp.Some? && p.ipcp.value.isOpen then 1 else 0)
    && (h.granted.Some? ==> h.accepts > 0 && h.offer.Some? && h.granted.value == MergeMtu(h.offer.value, h.offerMru))
  }

  /** The addresses as the Accept gave them, with the smaller of its MTU and the peer's MRU,
      or the one there is. */
  predicate Assigned(a: Addrs, offer: Addrs, mru: Option<nat>) {
    && a.ip == offer.ip && a.dns1 == offer.dns1 && a.dns2 == offer.dns2 && a.nbns1 == offer.nbns1 && a.nbns2 == offer.nbns2
    && a.mtu.Some? == (offer.mtu.Some? || mru.Some?)
    && (a.mtu.Some? ==>
          && (offer.mtu.Some? ==> a.mtu.value <= offer.mtu.value) && (mru.Some? ==> a.mtu.value <= mru.value)
          && (a.mtu == offer.mtu || a.mtu == mru))
  }

  lemma MergeAssigns(offer: Addrs, mru: Option<nat>)
    ensures Assigned(MergeMtu(offer, mru), offer, mru)
  {
  }

  ghost predicate AuthTied(p: Link, h: History) {
    && (p.phase.AuthInFlight? ==> h.cred == Some((FlightProtocol(p.phase.flight), p.phase.flight.id)))
    && p.challenge == h.challenge
  }

  predicate Counted(p: Link, h: History) {
    p.chapCounter == h.challenges % 256 && p.extraCounter == h.rejects % 256
  }

  ghost predicate Tied(p: Link, h: History) {
    AddressesTied(p, h) && AuthTied(p, h) && p.lcp.peerMru == h.mru
  }

  /** What the theorems say of one answer: `h` before, `g` after. */
  ghost predicate Right(input: Input, reply: Reply, h: History, g: History) {
    Grounded(input, reply, h, g) && Said(input, reply) && NumberedFrom(reply.packets, h.challenges % 256, h.rejects % 256)
  }

  /** What an answer owes to the calls before it. */
  ghost predicate Grounded(input: Input, reply: Reply, h: History, g: History) {
    && (reply.event.Some? ==> EventRight(reply.event.value, h, g))
    && (IsVerdict(input) && reply.packets != [] ==> h.cred == Some((reply.packets[0].protocol, reply.packets[0].id)))
  }

  ghost predicate EventRight(e: PppEvent, h: History, g: History) {
    match e
    case NetworkUp(a) =>
      g.accepts > 0 && g.granted == Some(a) && g.upsSince == 1 && g.offer.Some? && Assigned(a, g.offer.value, g.offerMru)
    case NeedChapAuth(_, _, challenge, _) => h.challenge == Some(challenge)
    case NeedMsChapV2Auth(_, _, challenge, _, _, _) => h.challenge == Some(challenge)
    case NeedPapAuth(_, _) => true
  }

  // ---------------------------------------------------------------------------
  // Rendering
  // ---------------------------------------------------------------------------

  ghost predicate NoChallenge(ps: seq<Packet>) {
    forall p <- ps :: !IsChallenge(p)
  }

  lemma {:induction false} NoChallengeChangesNothing(ps: seq<Packet>, before: Option<seq<byte>>)
    requires NoChallenge(ps)
    ensures LastChallenge(ps, before) == before
  {
    if ps != [] {
      assert !IsChallenge(ps[|ps| - 1]);
      NoChallengeChangesNothing(ps[..|ps| - 1], before);
    }
  }

  lemma ChallengeIsLast(ps: seq<Packet>, id: byte, nonce: Nonce, before: Option<seq<byte>>)
    ensures LastChallenge(ps + [ChallengePacket(id, nonce)], before) == Some(nonce)
  {
    ChapReadsBack(CHALLENGE, id, nonce, SERVER_NAME);
  }

  lemma LcpSendFacts(lcp: Lcp, send: Option<Send>)
    ensures var (l, ps) := RenderLcpSend(lcp, send);
      && l == lcp.(fsm := l.fsm)
      && |ps| <= 1 && forall p <- ps :: p.protocol == LCP
  {
  }

  lemma IpcpSendFacts(ipcp: Ipcp, send: Option<Send>)
    ensures var (i, ps) := RenderIpcpSend(ipcp, send);
      && i == ipcp.(fsm := i.fsm)
      && |ps| <= 1 && forall p <- ps :: p.protocol == IPCP
  {
  }

  /** An LCP step touches LCP, the phase and the challenge; a challenge it sends is the
      one it keeps. */
  lemma LcpRenderFacts(p: Link, out: StepOut, nonce: Nonce, before: Option<seq<byte>>)
    requires p.challenge == before
    ensures var (q, r) := RenderLcp(p, out, nonce);
      && q == p.(lcp := q.lcp, phase := q.phase, challenge := q.challenge, chapCounter := q.chapCounter)
      && q.lcp == p.lcp.(fsm := q.lcp.fsm, isOpen := q.lcp.isOpen)
      && (q.phase == p.phase || q.phase.AuthPending? || q.phase.Dead?)
      && r.event.None? && q.challenge == LastChallenge(r.packets, before)
  {
    var (l1, f1) := RenderLcpSend(p.lcp, out.send);
    var (l2, f2) := RenderLcpSend(l1, out.extra);
    LcpSendFacts(p.lcp, out.send);
    LcpSendFacts(l1, out.extra);
    if Challenges(p, out) {
      ChallengeIsLast(f1 + f2, p.chapCounter, nonce, before);
    } else {
      assert f1 + f2 + [] == f1 + f2;
      assert NoChallenge(f1 + f2);
      NoChallengeChangesNothing(f1 + f2, before);
    }
  }

  lemma IpcpRenderFacts(p: Link, out: StepOut, before: Option<seq<byte>>)
    requires p.ipcp.Some?
    ensures var (q, r) := RenderIpcp(p, out);
      && q == p.(ipcp := q.ipcp) && q.ipcp.Some?
      && q.ipcp.value == p.ipcp.value.(fsm := q.ipcp.value.fsm, isOpen := q.ipcp.value.isOpen)
      && (r.event.Some? ==> p.pendingAddrs.Some? && r.event.value == NetworkUp(p.pendingAddrs.value))
      && (q.ipcp.value.isOpen <==> p.ipcp.value.isOpen || (out.notify.up && !p.ipcp.value.isOpen))
      && (r.event.Some? <==> p.pendingAddrs.Some? && out.notify.up && !p.ipcp.value.isOpen)
      && LastChallenge(r.packets, before) == before
  {
    var (i1, f1) := RenderIpcpSend(p.ipcp.value, out.send);
    var (i2, f2) := RenderIpcpSend(i1, out.extra);
    IpcpSendFacts(p.ipcp.value, out.send);
    IpcpSendFacts(i1, out.extra);
    assert NoChallenge(f1 + f2);
    NoChallengeChangesNothing(f1 + f2, before);
  }

  // ---------------------------------------------------------------------------
  // One call
  // ---------------------------------------------------------------------------

  /** What a call has to show. */
  ghost predicate Keeps(h: History, input: Input, q: Link, r: Reply) {
    Tied(q, Observe(h, input, r)) && Grounded(input, r, h, Observe(h, input, r))
  }

  /** A call that is not a verdict and raises nothing moves only MRU and challenge. */
  lemma PlainObservation(h: History, input: Input, r: Reply)
    requires !IsVerdict(input) && r.event.None?
    ensures Observe(h, input, r) == h.(
      mru := MruAfter(h.mru, input), challenge := LastChallenge(r.packets, h.challenge),
      challenges := h.challenges + ChallengesIn(r.packets), rejects := h.rejects + RejectsIn(r.packets))
  {
  }

  lemma SilenceKeeps(p: Link, h: History, input: Input)
    requires Tied(p, h) && MruAfter(h.mru, input) == h.mru
    ensures Keeps(h, input, p, SILENT)
  {
    assert LastChallenge([], h.challenge) == h.challenge;
  }

  lemma LcpEventKeeps(auto: Automaton, p: Link, h: History, event: Event, nonce: Nonce, input: Input)
    requires AddressesTied(p, h) && AuthTied(p, h) && p.lcp.peerMru == MruAfter(h.mru, input) && !IsVerdict(input)
    ensures var (q, r) := LcpEvent(auto, p, event, nonce); Keeps(h, input, q, r)
  {
    var (f, out) := auto(p.lcp.fsm, event);
    var p1 := p.(lcp := p.lcp.(fsm := f));
    LcpRenderFacts(p1, out, nonce, h.challenge);
    PlainObservation(h, input, RenderLcp(p1, out, nonce).1);
  }

  lemma OpenKeeps(auto: Automaton, p: Link, h: History, input: Input)
    requires Tied(p, h) && input.OpenLink?
    ensures var (q, r) := Respond(auto, p, input); Keeps(h, input, q, r)
  {
    var f := auto(p.lcp.fsm, Event.Open).0;
    LcpEventKeeps(auto, p.(lcp := p.lcp.(fsm := f)), h, Up, input.nonce, input);
  }

  lemma LcpReceivesFacts(lcp: Lcp, pkt: LcpPacket)
    ensures var l := LcpReceives(lcp, pkt).0;
      l.peerMru == (if pkt.code == 1 then LcpVerdict.MruOf(ParseOptions(pkt.data).opts, lcp.peerMru) else lcp.peerMru)
  {
  }

  lemma LcpFrameKeeps(auto: Automaton, p: Link, h: History, input: Input)
    requires Tied(p, h) && input.Frame?
    requires DecodeFrame(input.payload).Some? && DecodeFrame(input.payload).value.protocol == LCP
    ensures var (q, r) := HandleLcp(auto, p, DecodeFrame(input.payload).value.info, input.nonce); Keeps(h, input, q, r)
  {
    var d := DecodePacket(DecodeFrame(input.payload).value.info);
    if d.None? {
      SilenceKeeps(p, h, input);
    } else {
      var (l, event) := LcpReceives(p.lcp, d.value);
      LcpReceivesFacts(p.lcp, d.value);
      LcpEventKeeps(auto, p.(lcp := l), h, event, input.nonce, input);
    }
  }

  lemma RaiseKeeps(p: Link, h: History, input: Input, flight: InFlight, event: PppEvent)
    requires Tied(p, h) && MruAfter(h.mru, input) == h.mru && !IsVerdict(input)
    requires CredentialOf(input) == Some((FlightProtocol(flight), flight.id))
    requires !event.NetworkUp? && EventRight(event, h, h)
    ensures var (q, r) := Raise(p, flight, event); Keeps(h, input, q, r)
  {
    assert LastChallenge([], h.challenge) == h.challenge;
  }

  lemma CredentialFrame(input: Input)
    requires input.Frame? && DecodeFrame(input.payload).Some?
    requires DecodePacket(DecodeFrame(input.payload).value.info).Some?
    ensures var f := DecodeFrame(input.payload).value;
      CredentialOf(input) == Some((f.protocol, DecodePacket(f.info).value.id))
  {
  }

  lemma PapFrameKeeps(p: Link, h: History, input: Input)
    requires Tied(p, h) && input.Frame?
    requires DecodeFrame(input.payload).Some? && DecodeFrame(input.payload).value.protocol == PAP
    ensures var (q, r) := HandlePap(p, DecodeFrame(input.payload).value.info); Keeps(h, input, q, r)
  {
    var d := DecodePap(DecodeFrame(input.payload).value.info);
    if d.None? {
      SilenceKeeps(p, h, input);
    } else {
      CredentialFrame(input);
      RaiseKeeps(p, h, input, PapFlight(d.value.id), NeedPapAuth(d.value.peerId, d.value.password));
    }
  }

  lemma ChapFrameKeeps(p: Link, h: History, input: Input)
    requires Tied(p, h) && input.Frame?
    requires DecodeFrame(input.payload).Some? && DecodeFrame(input.payload).value.protocol == CHAP
    ensures var (q, r) := HandleChap(p, DecodeFrame(input.payload).value.info); Keeps(h, input, q, r)
  {
    var d := DecodeChap(DecodeFrame(input.payload).value.info);
    if HandleChap(p, DecodeFrame(input.payload).value.info) == (p, SILENT) {
      SilenceKeeps(p, h, input);
    } else {
      CredentialFrame(input);
      var c, v := p.challenge.value, d.value;
      if p.lcp.authMethod.UseChapMd5? {
        RaiseKeeps(p, h, input, ChapFlight(v.id), NeedChapAuth(v.name, v.id, c, v.value));
      } else {
        RaiseKeeps(p, h, input, MsChapFlight(v.id),
                   NeedMsChapV2Auth(v.name, v.id, c, v.value[..16], v.value[24..48], v.value[48]));
      }
    }
  }

  lemma IpcpEventKeeps(auto: Automaton, p: Link, h: History, event: Event, input: Input)
    requires Tied(p, h) && p.ipcp.Some? && MruAfter(h.mru, input) == h.mru && !IsVerdict(input)
    ensures var (q, r) := IpcpEvent(auto, p, event); Keeps(h, input, q, r)
  {
    var (f, out) := auto(p.ipcp.value.fsm, event);
    if h.offer.Some? {
      MergeAssigns(h.offer.value, h.offerMru);
    }
    IpcpRenderFacts(p.(ipcp := Some(p.ipcp.value.(fsm := f))), out, h.challenge);
  }

  lemma IpcpReceivesFacts(ipcp: Ipcp, pkt: LcpPacket)
    ensures var i := IpcpReceives(ipcp, pkt).0; i.addrs == ipcp.addrs && i.isOpen == ipcp.isOpen
  {
  }

  lemma IpcpFrameKeeps(auto: Automaton, p: Link, h: History, input: Input)
    requires Tied(p, h) && input.Frame?
    requires DecodeFrame(input.payload).Some? && DecodeFrame(input.payload).value.protocol == IPCP
    ensures var (q, r) := HandleIpcp(auto, p, DecodeFrame(input.payload).value.info); Keeps(h, input, q, r)
  {
    var d := DecodePacket(DecodeFrame(input.payload).value.info);
    if d.None? || p.ipcp.None? {
      SilenceKeeps(p, h, input);
    } else {
      var (i, event) := IpcpReceives(p.ipcp.value, d.value);
      IpcpReceivesFacts(p.ipcp.value, d.value);
      IpcpEventKeeps(auto, p.(ipcp := Some(i)), h, event, input);
    }
  }

  lemma RejectFrameKeeps(p: Link, h: History, input: Input, protocol: nat, info: seq<byte>)
    requires Tied(p, h) && MruAfter(h.mru, input) == h.mru && !IsVerdict(input)
    ensures var (q, r) := ProtocolReject(p, protocol, info); Keeps(h, input, q, r)
  {
    if p.lcp.isOpen {
      var r := ProtocolReject(p, protocol, info).1;
      NoChallengeChangesNothing(r.packets, h.challenge);
      PlainObservation(h, input, r);
    } else {
      SilenceKeeps(p, h, input);
    }
  }

  lemma FrameKeeps(auto: Automaton, p: Link, h: History, input: Input)
    requires Tied(p, h) && input.Frame?
    ensures var (q, r) := Respond(auto, p, input); Keeps(h, input, q, r)
  {
    var d := DecodeFrame(input.payload);
    if d.None? {
      SilenceKeeps(p, h, input);
      return;
    }
    var f := d.value;
    if f.protocol == LCP {
      LcpFrameKeeps(auto, p, h, input);
      return;
    }
    if f.protocol == PAP && Authenticating(p.phase) {
      PapFrameKeeps(p, h, input);
    } else if f.protocol == CHAP && Authenticating(p.phase) {
      ChapFrameKeeps(p, h, input);
    } else if f.protocol == IPCP && p.phase.Network? {
      IpcpFrameKeeps(auto, p, h, input);
    } else if f.protocol == PAP || f.protocol == CHAP || f.protocol == IPCP {
      SilenceKeeps(p, h, input);
    } else {
      RejectFrameKeeps(p, h, input, f.protocol, f.info);
    }
  }

  lemma TimeoutKeeps(auto: Automaton, p: Link, h: History, input: Input)
    requires Tied(p, h) && input.Timeout?
    ensures var (q, r) := Respond(auto, p, input); Keeps(h, input, q, r)
  {
    if input.owner.LcpTimer? {
      LcpEventKeeps(auto, p, h, RestartTimeout, input.nonce, input);
    } else if p.ipcp.Some? {
      IpcpEventKeeps(auto, p, h, RestartTimeout, input);
    } else {
      SilenceKeeps(p, h, input);
    }
  }

  /** Packets that answer a verdict on `flight`. */
  predicate Answers(yes: Packet, flight: InFlight) {
    !IsChallenge(yes) && yes.protocol == FlightProtocol(flight) && yes.id == flight.id
  }

  lemma {:induction false} FirstIsNoChallenge(first: Packet, ps: seq<Packet>, before: Option<seq<byte>>)
    requires !IsChallenge(first)
    ensures LastChallenge([first] + ps, before) == LastChallenge(ps, before)
  {
    if ps == [] {
      assert [first] + ps == [first] && [first][..0] == [];
      assert LastChallenge([], before) == before;
    } else {
      var all := [first] + ps;
      assert all[|all| - 1] == ps[|ps| - 1] && all[..|all| - 1] == [first] + ps[..|ps| - 1];
      FirstIsNoChallenge(first, ps[..|ps| - 1], before);
    }
  }

  lemma AcceptKeeps(auto: Automaton, p: Link, h: History, input: Input, yes: Packet, no: Packet)
    requires Tied(p, h) && IsVerdict(input) && input.verdict.Accept?
    requires p.phase.AuthInFlight? && Answers(yes, p.phase.flight)
    ensures var (q, r) := Conclude(auto, p, input.verdict, yes, no, input.nonce); Keeps(h, input, q, r)
  {
    var merged := MergeMtu(input.verdict.addrs, p.lcp.peerMru);
    var (ipcp, out) := NewIpcp(auto, merged, p.localIp);
    var p1 := p.(pendingAddrs := Some(merged), phase := Network, ipcp := Some(ipcp));
    MergeAssigns(input.verdict.addrs, p.lcp.peerMru);
    IpcpRenderFacts(p1, out, h.challenge);
    FirstIsNoChallenge(yes, RenderIpcp(p1, out).1.packets, h.challenge);
  }

  lemma RejectKeeps(auto: Automaton, p: Link, h: History, input: Input, yes: Packet, no: Packet)
    requires Tied(p, h) && IsVerdict(input) && input.verdict.Reject?
    requires p.phase.AuthInFlight? && Answers(no, p.phase.flight)
    ensures var (q, r) := Conclude(auto, p, input.verdict, yes, no, input.nonce); Keeps(h, input, q, r)
  {
    var (f, out) := auto(p.lcp.fsm, Close);
    var p1 := p.(lcp := p.lcp.(fsm := f));
    LcpRenderFacts(p1, out, input.nonce, h.challenge);
    FirstIsNoChallenge(no, RenderLcp(p1, out, input.nonce).1.packets, h.challenge);
  }

  lemma ConcludeKeeps(auto: Automaton, p: Link, h: History, input: Input, yes: Packet, no: Packet)
    requires Tied(p, h) && IsVerdict(input)
    requires p.phase.AuthInFlight? && Answers(yes, p.phase.flight) && Answers(no, p.phase.flight)
    ensures var (q, r) := Conclude(auto, p, input.verdict, yes, no, input.nonce); Keeps(h, input, q, r)
  {
    if input.verdict.Accept? {
      AcceptKeeps(auto, p, h, input, yes, no);
    } else {
      RejectKeeps(auto, p, h, input, yes, no);
    }
  }

  lemma AuthResultKeeps(auto: Automaton, p: Link, h: History, input: Input)
    requires Tied(p, h) && input.AuthResult?
    ensures var (q, r) := Respond(auto, p, input); Keeps(h, input, q, r)
  {
    if !p.phase.AuthInFlight? || p.phase.flight.MsChapFlight? {
      SilenceKeeps(p, h, input);
    } else if p.phase.flight.PapFlight? {
      var id := p.phase.flight.id;
      ConcludeKeeps(auto, p, h, input, PapAnswer(PAP_ACK, id, []), PapAnswer(PAP_NAK, id, Trim(Message(input.verdict), 11)));
    } else {
      var id := p.phase.flight.id;
      ConcludeKeeps(auto, p, h, input, Packet(CHAP, SUCCESS, id, []), Packet(CHAP, FAILURE, id, Trim(Message(input.verdict), 255)));
    }
  }

  lemma MsChapResultKeeps(auto: Automaton, p: Link, h: History, input: Input)
    requires Tied(p, h) && input.MsChapResult?
    ensures var (q, r) := Respond(auto, p, input); Keeps(h, input, q, r)
  {
    if !p.phase.AuthInFlight? || !p.phase.flight.MsChapFlight? {
      SilenceKeeps(p, h, input);
    } else {
      var id := p.phase.flight.id;
      ConcludeKeeps(auto, p, h, input, Packet(CHAP, SUCCESS, id, Trim(OrEmpty(input.response), 255)),
                    Packet(CHAP, FAILURE, id, Trim(ErrorText(input.verdict, input.error), 255)));
    }
  }

  lemma CallKeeps(auto: Automaton, p: Link, h: History, input: Input)
    requires Tied(p, h)
    ensures var (q, r) := Respond(auto, p, input); Keeps(h, input, q, r)
  {
    match input
    case OpenLink(_) => OpenKeeps(auto, p, h, input);
    case Frame(_, _) => FrameKeeps(auto, p, h, input);
    case Timeout(_, _) => TimeoutKeeps(auto, p, h, input);
    case AuthResult(_, _) => AuthResultKeeps(auto, p, h, input);
    case MsChapResult(_, _, _, _) => MsChapResultKeeps(auto, p, h, input);
  }

  // ---------------------------------------------------------------------------
  // Runs
  // ---------------------------------------------------------------------------

  /** The driver and the history after some calls. */
  function After(auto: Automaton, p: Link, h: History, inputs: seq<Input>): (Link, History)
    decreases |inputs|
  {
    if inputs == [] then (p, h)
    else
      var (q, r) := Respond(auto, p, inputs[0]);
      After(auto, q, Observe(h, inputs[0], r), inputs[1..])
  }

  lemma CallCounts(p: Link, h: History, input: Input, q: Link, r: Reply)
    requires Counted(p, h) && Numbered(p, q, r.packets)
    ensures Counted(q, Observe(h, input, r)) && NumberedFrom(r.packets, h.challenges % 256, h.rejects % 256)
  {
    var g := Observe(h, input, r);
    assert g.challenges == h.challenges + ChallengesIn(r.packets) && g.rejects == h.rejects + RejectsIn(r.packets);
  }

  lemma {:induction false} TiedAlong(auto: Automaton, p: Link, h: History, inputs: seq<Input>)
    requires Tied(p, h) && Counted(p, h)
    ensures var (q, g) := After(auto, p, h, inputs); Tied(q, g) && Counted(q, g)
    decreases |inputs|
  {
    if inputs != [] {
      CallKeeps(auto, p, h, inputs[0]);
      CallNumbers(auto, p, inputs[0]);
      var (q, r) := Respond(auto, p, inputs[0]);
      CallCounts(p, h, inputs[0], q, r);
      TiedAlong(auto, q, Observe(h, inputs[0], r), inputs[1..]);
    }
  }

  /** In every run, under every automaton, and for every next call:
      NetworkUp comes only after an Accept that took effect, at most once per such
      Accept, and with the latest one's addresses and the smaller of its MTU and the MRU;
      a verdict packet carries the protocol and identifier of the last credential packet
      that asked for a verdict, and says what the verdict was;
      a credential event carries the bytes of the frame, and a CHAP one the challenge last
      sent; challenges and Protocol-Rejects are numbered from 0 on and carry what they should;
      a verdict is answered exactly when its method is in flight, and any other changes
      nothing; an Accept leads to the network phase and a Reject ends the session. */
  lemma EveryAnswerIsRight(auto: Automaton, localIp: Ipv4, authMethod: AuthMethod, inputs: seq<Input>, input: Input)
    ensures var (p, h) := After(auto, NewLink(localIp, authMethod), BLANK, inputs);
      var (q, r) := Respond(auto, p, input);
      && Right(input, r, h, Observe(h, input, r)) && Observe(h, input, r).upsSince <= 1
      && (IsVerdict(input) ==>
            if Awaited(p, input) then
              r.packets != [] && (if input.verdict.Accept? then q.phase.Network? else q.phase.Dead? && r.finished)
            else q == p && r == SILENT)
  {
    TiedAlong(auto, NewLink(localIp, authMethod), BLANK, inputs);
    var (p, h) := After(auto, NewLink(localIp, authMethod), BLANK, inputs);
    CallKeeps(auto, p, h, input);
    CallSaid(auto, p, input);
    CallNumbers(auto, p, input);
    var (q, r) := Respond(auto, p, input);
    CallCounts(p, h, input, q, r);
    if IsVerdict(input) {
      VerdictIsSaid(auto, p, input);
    }
  }
}
