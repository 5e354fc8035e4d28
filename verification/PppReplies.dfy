/** Configure-Ack, Nak, Reject and Echo-Reply against the request they answer, under any
    lawful automaton. */
module PppReplies {
  import opened Bytes
  import opened Fsm
  import opened PppCodec
  import opened PppOptions
  import LcpVerdict
  import opened IpcpVerdict
  import opened PppModel
  import opened PppRuns
  import opened PppSaid

  const ACK: byte := 2
  const NAK: byte := 3
  const REJECT: byte := 4

  predicate IsReply(x: Packet, protocol: nat) {
    x.protocol == protocol && ACK <= x.code <= REJECT
  }

  predicate LcpGood(pkt: LcpPacket) {
    LcpVerdict.Judge(pkt.data, None).good
  }

  /** What the answer to an LCP request says. */
  function LcpBody(pkt: LcpPacket): seq<byte> {
    if LcpGood(pkt) then pkt.data else LcpVerdict.Judge(pkt.data, None).body
  }

  /** What the answer to an IPCP request says. */
  function IpcpBody(pkt: LcpPacket, addrs: Addrs): seq<byte> {
    if Judge(addrs, pkt.data).good then pkt.data else Judge(addrs, pkt.data).body
  }

  predicate IsEchoReply(x: Packet) {
    x.protocol == LCP && x.code == 10
  }

  /** An Ack echoes a request all of whose options are acceptable; a Reject lists exactly
      the others, byte for byte. LCP never Naks. */
  ghost predicate LcpAnswer(x: Packet, pkt: LcpPacket) {
    var p := ParseOptions(pkt.data);
    && x.id == pkt.id
    && x.code == (if LcpGood(pkt) then ACK else REJECT) && x.body == LcpBody(pkt)
    && (x.code == ACK ==> x.body == pkt.data && p.whole && forall o <- p.opts :: LcpVerdict.Taken(o.typ))
    && (x.code == REJECT ==> ParseOptions(x.body).whole && LcpVerdict.IsRefusalOf(p.opts, ParseOptions(x.body).opts))
  }

  /** An Ack echoes a request whose every option is what was assigned, the IP address
      above all; a Reject lists the options without an assigned value; a Nak lists the
      assigned value for every option that differs from it. */
  ghost predicate IpcpAnswer(x: Packet, pkt: LcpPacket, addrs: Addrs) {
    var p := ParseOptions(pkt.data);
    && x.id == pkt.id && x.body == IpcpBody(pkt, addrs)
    && (x.code == ACK ==> x.body == pkt.data && p.whole && forall o <- p.opts :: Given(addrs, o))
    && (x.code == REJECT ==> ParseOptions(x.body).whole && IsRejectOf(addrs, p.opts, ParseOptions(x.body).opts) && x.body != [])
    && (x.code == NAK && p.whole ==> ParseOptions(x.body).whole && IsNakOf(addrs, p.opts, ParseOptions(x.body).opts) && x.body != [])
    && (x.code == NAK && !p.whole ==> x.body == [])
  }

  ghost predicate Answered(input: Input, x: Packet, addrs: Option<Addrs>) {
    && (IsReply(x, LCP) ==> RequestIn(input, LCP).Some? && LcpAnswer(x, RequestIn(input, LCP).value))
    && (IsReply(x, IPCP) ==>
      RequestIn(input, IPCP).Some? && addrs.Some? && IpcpAnswer(x, RequestIn(input, IPCP).value, addrs.value))
    && (IsEchoReply(x) ==> EchoIn(input).Some? && EchoAnswer(x, EchoIn(input).value))
  }

  /** The Echo-Request an inbound frame carries. */
  function EchoIn(input: Input): Option<LcpPacket> {
    if !input.Frame? || DecodeFrame(input.payload).None? then None
    else
      var f := DecodeFrame(input.payload).value;
      if f.protocol != LCP || DecodePacket(f.info).None? || DecodePacket(f.info).value.code != 9 then None
      else DecodePacket(f.info)
  }

  /** A zero Magic-Number and the request's data behind its own. */
  predicate EchoAnswer(x: Packet, pkt: LcpPacket) {
    && x.id == pkt.id && |x.body| == (if |pkt.data| < 4 then 4 else |pkt.data|)
    && (forall i :: 0 <= i < 4 ==> x.body[i] == 0) && (forall i :: 4 <= i < |pkt.data| ==> x.body[i] == pkt.data[i])
  }

  ghost predicate AllAnswered(input: Input, ps: seq<Packet>, addrs: Option<Addrs>) {
    forall x <- ps :: Answered(input, x, addrs)
  }

  // ---------------------------------------------------------------------------

  lemma LcpSendCodes(lcp: Lcp, send: Option<Send>, x: Packet)
    requires x in RenderLcpSend(lcp, send).1
    ensures x.protocol == LCP
    ensures x.code == ACK ==> send == Some(ConfigureAck) && x == Packet(LCP, ACK, lcp.lastCrId, lcp.lastCrOptions)
    ensures x.code == NAK || x.code == REJECT ==>
      send == Some(ConfigureNak) && x == Packet(LCP, if lcp.nakIsReject then REJECT else NAK, lcp.lastCrId, lcp.pendingNak)
    ensures x.code == 10 ==>
      send == Some(EchoReply) && lcp.lastRxrCode == 9 && x == Packet(LCP, 10, lcp.lastEchoId, EchoReplyBody(lcp.lastEchoData))
  {
  }

  lemma IpcpSendCodes(ipcp: Ipcp, send: Option<Send>, x: Packet)
    requires x in RenderIpcpSend(ipcp, send).1
    ensures x.protocol == IPCP
    ensures x.code == ACK ==> send == Some(ConfigureAck) && x == Packet(IPCP, ACK, ipcp.lastCrId, ipcp.lastCrOptions)
    ensures x.code == NAK || x.code == REJECT ==>
      send == Some(ConfigureNak) && x == Packet(IPCP, if ipcp.nakIsReject then REJECT else NAK, ipcp.lastCrId, ipcp.pendingNak)
  {
  }

  /** A reply in a rendered LCP step is the automaton's, built from the last request. */
  lemma LcpRenderCodes(p: Link, out: StepOut, nonce: Nonce, x: Packet)
    requires x in RenderLcp(p, out, nonce).1.packets
    ensures !IsReply(x, IPCP)
    ensures IsReply(x, LCP) && x.code == ACK ==>
      Emits(out, ConfigureAck) && x == Packet(LCP, ACK, p.lcp.lastCrId, p.lcp.lastCrOptions)
    ensures IsReply(x, LCP) && x.code != ACK ==>
      Emits(out, ConfigureNak) && x == Packet(LCP, if p.lcp.nakIsReject then REJECT else NAK, p.lcp.lastCrId, p.lcp.pendingNak)
    ensures IsEchoReply(x) ==>
      Emits(out, EchoReply) && p.lcp.lastRxrCode == 9 && x == Packet(LCP, 10, p.lcp.lastEchoId, EchoReplyBody(p.lcp.lastEchoData))
  {
    var (l1, f1) := RenderLcpSend(p.lcp, out.send);
    var (l2, f2) := RenderLcpSend(l1, out.extra);
    LcpSendFacts(p.lcp, out.send);
    if x in f1 {
      LcpSendCodes(p.lcp, out.send, x);
    } else if x in f2 {
      LcpSendCodes(l1, out.extra, x);
    }
  }

  lemma IpcpRenderCodes(p: Link, out: StepOut, x: Packet)
    requires p.ipcp.Some? && x in RenderIpcp(p, out).1.packets
    ensures x.protocol == IPCP
    ensures IsReply(x, IPCP) && x.code == ACK ==>
      Emits(out, ConfigureAck) && x == Packet(IPCP, ACK, p.ipcp.value.lastCrId, p.ipcp.value.lastCrOptions)
    ensures IsReply(x, IPCP) && x.code != ACK ==>
      Emits(out, ConfigureNak) && x == Packet(IPCP, if p.ipcp.value.nakIsReject then REJECT else NAK, p.ipcp.value.lastCrId, p.ipcp.value.pendingNak)
  {
    var i := p.ipcp.value;
    var (i1, f1) := RenderIpcpSend(i, out.send);
    var (i2, f2) := RenderIpcpSend(i1, out.extra);
    IpcpSendFacts(i, out.send);
    if x in f1 {
      IpcpSendCodes(i, out.send, x);
    } else {
      assert x in f2;
      IpcpSendCodes(i1, out.extra, x);
    }
  }

  predicate IsRequestVerdict(e: Event) {
    e.RcvConfigReqGood? || e.RcvConfigReqBad?
  }

  lemma NoRequestNoReply(auto: Automaton, p: Link, event: Event, nonce: Nonce, input: Input, addrs: Option<Addrs>)
    requires Lawful(auto) && !IsRequestVerdict(event)
    requires event.RcvEcho? && p.lcp.lastRxrCode == 9 ==>
      EchoIn(input) == Some(LcpPacket(9, p.lcp.lastEchoId, p.lcp.lastEchoData))
    ensures AllAnswered(input, LcpEvent(auto, p, event, nonce).1.packets, addrs)
  {
    var (f, out) := auto(p.lcp.fsm, event);
    var p1 := p.(lcp := p.lcp.(fsm := f));
    assert auto(p.lcp.fsm, event).1 == out;
    forall x <- RenderLcp(p1, out, nonce).1.packets
      ensures Answered(input, x, addrs)
    {
      LcpRenderCodes(p1, out, nonce, x);
    }
  }

  lemma NoIpcpRequestNoReply(auto: Automaton, p: Link, event: Event, input: Input, addrs: Option<Addrs>)
    requires Lawful(auto) && p.ipcp.Some? && !IsRequestVerdict(event)
    ensures AllAnswered(input, IpcpEvent(auto, p, event).1.packets, addrs)
  {
    var (f, out) := auto(p.ipcp.value.fsm, event);
    var p1 := p.(ipcp := Some(p.ipcp.value.(fsm := f)));
    assert auto(p.ipcp.value.fsm, event).1 == out;
    forall x <- RenderIpcp(p1, out).1.packets
      ensures Answered(input, x, addrs)
    {
      IpcpRenderCodes(p1, out, x);
    }
  }

  lemma LcpRequestAnswered(auto: Automaton, p: Link, pkt: LcpPacket, nonce: Nonce, input: Input, addrs: Option<Addrs>)
    requires Lawful(auto) && pkt.code == 1 && RequestIn(input, LCP) == Some(pkt)
    ensures var (l, event) := LcpReceives(p.lcp, pkt);
      AllAnswered(input, LcpEvent(auto, p.(lcp := l), event, nonce).1.packets, addrs)
  {
    var (l, event) := LcpReceives(p.lcp, pkt);
    var (f, out) := auto(l.fsm, event);
    var p1 := p.(lcp := l.(fsm := f));
    forall x <- RenderLcp(p1, out, nonce).1.packets
      ensures Answered(input, x, addrs)
    {
      LcpRenderCodes(p1, out, nonce, x);
      assert Emits(auto(l.fsm, event).1, ConfigureAck) ==> event.RcvConfigReqGood?;
      if IsReply(x, LCP) {
        LcpVerdictBody(pkt.data, p.lcp.peerMru);
      }
    }
  }

  lemma LcpVerdictBody(opts: seq<byte>, mru: Option<nat>)
    ensures var v, p := LcpVerdict.Judge(opts, mru), ParseOptions(opts);
      && v.good == LcpVerdict.Judge(opts, None).good && v.body == LcpVerdict.Judge(opts, None).body
      && (v.good ==> p.whole && forall o <- p.opts :: LcpVerdict.Taken(o.typ))
      && ParseOptions(v.body).whole && LcpVerdict.IsRefusalOf(p.opts, ParseOptions(v.body).opts)
  {
    var os := ParseOptions(opts).opts;
    EncodeParsed(opts);
    LcpVerdict.RefusedIsFilter(os);
    ParseEncoded(LcpVerdict.Refused(os));
  }

  lemma IpcpRequestAnswered(auto: Automaton, p: Link, pkt: LcpPacket, input: Input)
    requires Lawful(auto) && p.ipcp.Some? && pkt.code == 1 && RequestIn(input, IPCP) == Some(pkt)
    ensures var (i, event) := IpcpReceives(p.ipcp.value, pkt);
      AllAnswered(input, IpcpEvent(auto, p.(ipcp := Some(i)), event).1.packets, Some(p.ipcp.value.addrs))
  {
    var addrs := p.ipcp.value.addrs;
    var (i, event) := IpcpReceives(p.ipcp.value, pkt);
    var (f, out) := auto(i.fsm, event);
    var p1 := p.(ipcp := Some(i.(fsm := f)));
    forall x <- RenderIpcp(p1, out).1.packets
      ensures Answered(input, x, Some(addrs))
    {
      IpcpRenderCodes(p1, out, x);
      assert Emits(auto(i.fsm, event).1, ConfigureAck) ==> event.RcvConfigReqGood?;
      assert Emits(auto(i.fsm, event).1, ConfigureNak) ==> event.RcvConfigReqBad?;
      if IsReply(x, IPCP) {
        VerdictBody(addrs, pkt.data);
      }
    }
  }

  lemma VerdictBody(addrs: Addrs, opts: seq<byte>)
    ensures var v, p := Judge(addrs, opts), ParseOptions(opts);
      && (v.good ==> p.whole && forall o <- p.opts :: Given(addrs, o))
      && (v.isReject ==> ParseOptions(v.body).whole && IsRejectOf(addrs, p.opts, ParseOptions(v.body).opts) && v.body != [])
      && (!v.good && !v.isReject ==>
            if p.whole then ParseOptions(v.body).whole && IsNakOf(addrs, p.opts, ParseOptions(v.body).opts) && v.body != []
            else v.body == [])
  {
    var os := ParseOptions(opts).opts;
    GoodMeansAllFine(addrs, opts);
    EncodeParsed(opts);
    RejectsAre(addrs, os);
    NaksAre(addrs, os);
    EncodedEmpty(Rejects(addrs, os));
    EncodedEmpty(Naks(addrs, os));
    ParseEncoded(Rejects(addrs, os));
    NaksEncodable(addrs, os);
    ParseEncoded(Naks(addrs, os));
  }

  lemma LcpReceivesVerdict(lcp: Lcp, pkt: LcpPacket)
    ensures IsRequestVerdict(LcpReceives(lcp, pkt).1) <==> pkt.code == 1
  {
  }

  lemma IpcpReceivesVerdict(ipcp: Ipcp, pkt: LcpPacket)
    ensures IsRequestVerdict(IpcpReceives(ipcp, pkt).1) <==> pkt.code == 1
  {
  }

  lemma FrameAnswered(auto: Automaton, p: Link, h: History, input: Input)
    requires Lawful(auto) && Tied(p, h) && input.Frame?
    ensures AllAnswered(input, OnFrame(auto, p, input.payload, input.nonce).1.packets, h.granted)
  {
    var d := DecodeFrame(input.payload);
    if d.None? {
      return;
    }
    var pkt := DecodePacket(d.value.info);
    if d.value.protocol == LCP && pkt.Some? {
      LcpReceivesVerdict(p.lcp, pkt.value);
      var (l, event) := LcpReceives(p.lcp, pkt.value);
      if pkt.value.code == 1 {
        LcpRequestAnswered(auto, p, pkt.value, input.nonce, input, h.granted);
      } else {
        NoRequestNoReply(auto, p.(lcp := l), event, input.nonce, input, h.granted);
      }
    } else if d.value.protocol == IPCP && pkt.Some? && p.phase.Network? && p.ipcp.Some? {
      IpcpReceivesVerdict(p.ipcp.value, pkt.value);
      var (i, event) := IpcpReceives(p.ipcp.value, pkt.value);
      if pkt.value.code == 1 {
        IpcpRequestAnswered(auto, p, pkt.value, input);
      } else {
        NoIpcpRequestNoReply(auto, p.(ipcp := Some(i)), event, input, h.granted);
      }
    }
  }

  lemma ConcludeAnswered(auto: Automaton, p: Link, input: Input, yes: Packet, no: Packet, addrs: Option<Addrs>)
    requires Lawful(auto) && IsVerdict(input)
    requires yes.protocol == PAP || yes.protocol == CHAP
    requires no.protocol == yes.protocol
    ensures AllAnswered(input, Conclude(auto, p, input.verdict, yes, no, input.nonce).1.packets, addrs)
  {
    if input.verdict.Accept? {
      var merged := MergeMtu(input.verdict.addrs, p.lcp.peerMru);
      var (ipcp, out) := NewIpcp(auto, merged, p.localIp);
      assert out == auto(auto(New(), Open).0, Up).1;
      var p1 := p.(pendingAddrs := Some(merged), phase := Network, ipcp := Some(ipcp));
      forall x <- RenderIpcp(p1, out).1.packets
        ensures Answered(input, x, addrs)
      {
        IpcpRenderCodes(p1, out, x);
      }
    } else {
      NoRequestNoReply(auto, p, Close, input.nonce, input, addrs);
    }
  }

  lemma VerdictAnswered(auto: Automaton, p: Link, input: Input, addrs: Option<Addrs>)
    requires Lawful(auto) && IsVerdict(input)
    ensures AllAnswered(input, Respond(auto, p, input).1.packets, addrs)
  {
    if p.phase.AuthInFlight? {
      var id, v := p.phase.flight.id, input.verdict;
      if input.MsChapResult? {
        ConcludeAnswered(auto, p, input, Packet(CHAP, SUCCESS, id, Trim(OrEmpty(input.response), 255)),
                         Packet(CHAP, FAILURE, id, Trim(ErrorText(v, input.error), 255)), addrs);
      } else {
        ConcludeAnswered(auto, p, input, PapAnswer(PAP_ACK, id, []), PapAnswer(PAP_NAK, id, Trim(Message(v), 11)), addrs);
        ConcludeAnswered(auto, p, input, Packet(CHAP, SUCCESS, id, []), Packet(CHAP, FAILURE, id, Trim(Message(v), 255)), addrs);
      }
    }
  }

  lemma CallAnswered(auto: Automaton, p: Link, h: History, input: Input)
    requires Lawful(auto) && Tied(p, h)
    ensures AllAnswered(input, Respond(auto, p, input).1.packets, h.granted)
  {
    match input
    case OpenLink(n) =>
      NoRequestNoReply(auto, p.(lcp := p.lcp.(fsm := auto(p.lcp.fsm, Event.Open).0)), Up, n, input, h.granted);
    case Frame(_, _) => FrameAnswered(auto, p, h, input);
    case Timeout(owner, n) =>
      if owner.LcpTimer? {
        NoRequestNoReply(auto, p, RestartTimeout, n, input, h.granted);
      } else if p.ipcp.Some? {
        NoIpcpRequestNoReply(auto, p, RestartTimeout, input, h.granted);
      }
    case AuthResult(_, _) => VerdictAnswered(auto, p, input, h.granted);
    case MsChapResult(_, _, _, _) => VerdictAnswered(auto, p, input, h.granted);
  }

  /** In every run of the driver with a lawful automaton, each Configure-Ack, Nak or
      Reject answers the request just received, with its identifier, and says of its
      options what is so; an IPCP Ack carries the address granted by the latest Accept. */
  lemma RepliesAnswerTheRequest(auto: Automaton, localIp: Ipv4, authMethod: AuthMethod, inputs: seq<Input>, input: Input)
    requires Lawful(auto)
    ensures var (p, h) := After(auto, NewLink(localIp, authMethod), BLANK, inputs);
      AllAnswered(input, Respond(auto, p, input).1.packets, h.granted)
  {
    TiedAlong(auto, NewLink(localIp, authMethod), BLANK, inputs);
    var (p, h) := After(auto, NewLink(localIp, authMethod), BLANK, inputs);
    CallAnswered(auto, p, h, input);
  }
}
