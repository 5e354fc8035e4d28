/** The frames the driver writes: each decodes to the packet it was built from, with a
    Length equal to its size, in every run over frames an SSTP packet can carry. */
module PppFrames {
  import opened Bytes
  import opened Fsm
  import opened PppCodec
  import opened PppOptions
  import LcpVerdict
  import opened IpcpVerdict
  import opened PppModel
  import opened PppRuns
  import opened PppSaid
  import opened PppReplies
  import SessionWrite
  import SstpFraming

  const MAX_PAYLOAD: nat := SstpFraming.MAX_PACKET_LEN - SstpFraming.HEADER_LEN

  /** Packets whose body comes from the peer: Configure-Ack, Nak, Reject and Echo-Reply. */
  predicate IsAnswer(p: Packet) {
    IsReply(p, LCP) || IsReply(p, IPCP) || IsEchoReply(p)
  }

  /** Every other packet is at most a Protocol-Reject. */
  predicate Sendable(p: Packet) {
    LegalProtocol(p.protocol) && PacketLen(p) < U16_LIMIT && (!IsAnswer(p) ==> PacketLen(p) <= DEFAULT_MRU)
  }

  ghost predicate AllSendable(ps: seq<Packet>) {
    forall p <- ps :: Sendable(p)
  }

  /** What one SSTP data packet can bring in. */
  predicate Arrives(input: Input) {
    input.Frame? ==> |input.payload| <= MAX_PAYLOAD
  }

  /** Everything kept for a later reply is bounded by what came in. */
  predicate LcpSized(l: Lcp) {
    |l.lastCrOptions| <= MAX_PAYLOAD && |l.pendingNak| <= MAX_PAYLOAD && |l.lastEchoData| <= MAX_PAYLOAD
  }

  predicate IpcpSized(i: Ipcp) {
    |i.lastCrOptions| <= MAX_PAYLOAD && |i.pendingNak| <= 3 * MAX_PAYLOAD
  }

  predicate Sized(p: Link) {
    LcpSized(p.lcp) && (p.ipcp.Some? ==> IpcpSized(p.ipcp.value))
  }

  lemma LcpSendSized(lcp: Lcp, send: Option<Send>)
    requires LcpSized(lcp)
    ensures var (l, ps) := RenderLcpSend(lcp, send); LcpSized(l) && AllSendable(ps)
  {
  }

  lemma IpcpSendSized(ipcp: Ipcp, send: Option<Send>)
    requires IpcpSized(ipcp)
    ensures var (i, ps) := RenderIpcpSend(ipcp, send); IpcpSized(i) && AllSendable(ps)
  {
  }

  lemma LcpEventSized(auto: Automaton, p: Link, event: Event, nonce: Nonce)
    requires Sized(p)
    ensures var (q, r) := LcpEvent(auto, p, event, nonce); Sized(q) && AllSendable(r.packets)
  {
    var (f, out) := auto(p.lcp.fsm, event);
    var l0 := p.lcp.(fsm := f);
    LcpSendSized(l0, out.send);
    var (l1, f1) := RenderLcpSend(l0, out.send);
    LcpSendSized(l1, out.extra);
  }

  lemma IpcpRenderSized(p: Link, out: StepOut)
    requires Sized(p) && p.ipcp.Some?
    ensures var (q, r) := RenderIpcp(p, out); Sized(q) && AllSendable(r.packets)
  {
    IpcpSendSized(p.ipcp.value, out.send);
    var (i1, f1) := RenderIpcpSend(p.ipcp.value, out.send);
    IpcpSendSized(i1, out.extra);
  }

  lemma IpcpEventSized(auto: Automaton, p: Link, event: Event)
    requires Sized(p) && p.ipcp.Some?
    ensures var (q, r) := IpcpEvent(auto, p, event); Sized(q) && AllSendable(r.packets)
  {
    var (f, out) := auto(p.ipcp.value.fsm, event);
    IpcpRenderSized(p.(ipcp := Some(p.ipcp.value.(fsm := f))), out);
  }

  lemma LcpReceivesSized(lcp: Lcp, pkt: LcpPacket)
    requires LcpSized(lcp) && |pkt.data| <= MAX_PAYLOAD
    ensures LcpSized(LcpReceives(lcp, pkt).0)
  {
    LcpVerdict.RejectBound(pkt.data, lcp.peerMru);
  }

  lemma IpcpReceivesSized(ipcp: Ipcp, pkt: LcpPacket)
    requires IpcpSized(ipcp) && |pkt.data| <= MAX_PAYLOAD
    ensures IpcpSized(IpcpReceives(ipcp, pkt).0)
  {
    BodyBound(ipcp.addrs, pkt.data);
  }

  lemma FrameSized(auto: Automaton, p: Link, payload: seq<byte>, nonce: Nonce)
    requires Sized(p) && |payload| <= MAX_PAYLOAD
    ensures var (q, r) := OnFrame(auto, p, payload, nonce); Sized(q) && AllSendable(r.packets)
  {
    var d := DecodeFrame(payload);
    if d.None? {
      return;
    }
    var pkt := DecodePacket(d.value.info);
    if d.value.protocol == LCP && pkt.Some? {
      LcpReceivesSized(p.lcp, pkt.value);
      var (l, event) := LcpReceives(p.lcp, pkt.value);
      LcpEventSized(auto, p.(lcp := l), event, nonce);
    } else if d.value.protocol == IPCP && pkt.Some? && p.phase.Network? && p.ipcp.Some? {
      IpcpReceivesSized(p.ipcp.value, pkt.value);
      var (i, event) := IpcpReceives(p.ipcp.value, pkt.value);
      IpcpEventSized(auto, p.(ipcp := Some(i)), event);
    }
  }

  lemma ConcludeSized(auto: Automaton, p: Link, v: PppModel.Verdict, yes: Packet, no: Packet, nonce: Nonce)
    requires Sized(p) && Sendable(yes) && Sendable(no)
    ensures var (q, r) := Conclude(auto, p, v, yes, no, nonce); Sized(q) && AllSendable(r.packets)
  {
    if v.Accept? {
      var merged := MergeMtu(v.addrs, p.lcp.peerMru);
      var (ipcp, out) := NewIpcp(auto, merged, p.localIp);
      IpcpRenderSized(p.(pendingAddrs := Some(merged), phase := Network, ipcp := Some(ipcp)), out);
    } else {
      LcpEventSized(auto, p, Close, nonce);
    }
  }

  lemma CallSized(auto: Automaton, p: Link, input: Input)
    requires Sized(p) && Arrives(input)
    ensures var (q, r) := Respond(auto, p, input); Sized(q) && AllSendable(r.packets)
  {
    match input
    case OpenLink(n) =>
      LcpEventSized(auto, p.(lcp := p.lcp.(fsm := auto(p.lcp.fsm, Event.Open).0)), Up, n);
    case Frame(payload, n) => FrameSized(auto, p, payload, n);
    case Timeout(owner, n) =>
      if owner.LcpTimer? {
        LcpEventSized(auto, p, RestartTimeout, n);
      } else if p.ipcp.Some? {
        IpcpEventSized(auto, p, RestartTimeout);
      }
    case AuthResult(v, n) =>
      if p.phase.AuthInFlight? && !p.phase.flight.MsChapFlight? {
        var id := p.phase.flight.id;
        ConcludeSized(auto, p, v, PapAnswer(PAP_ACK, id, []), PapAnswer(PAP_NAK, id, Trim(Message(v), 11)), n);
        ConcludeSized(auto, p, v, Packet(CHAP, SUCCESS, id, []), Packet(CHAP, FAILURE, id, Trim(Message(v), 255)), n);
      }
    case MsChapResult(v, response, error, n) =>
      if p.phase.AuthInFlight? && p.phase.flight.MsChapFlight? {
        var id := p.phase.flight.id;
        ConcludeSized(auto, p, v, Packet(CHAP, SUCCESS, id, Trim(OrEmpty(response), 255)),
                      Packet(CHAP, FAILURE, id, Trim(ErrorText(v, error), 255)), n);
      }
  }

  lemma {:induction false} SizedAlong(auto: Automaton, p: Link, h: History, inputs: seq<Input>)
    requires Sized(p) && forall i <- inputs :: Arrives(i)
    ensures Sized(After(auto, p, h, inputs).0)
    decreases |inputs|
  {
    if inputs != [] {
      CallSized(auto, p, inputs[0]);
      var (q, r) := Respond(auto, p, inputs[0]);
      SizedAlong(auto, q, Observe(h, inputs[0], r), inputs[1..]);
    }
  }

  /** The packet reads back from the frame, whose Length field is its size. */
  predicate ReadsBack(p: Packet) {
    && DecodeFrame(Wire(p)) == Some(PppFrame(p.protocol, Envelope(p)))
    && DecodePacket(Envelope(p)) == Some(LcpPacket(p.code, p.id, p.body))
    && FromBe16(Wire(p)[6], Wire(p)[7]) == |Wire(p)| - FRAME_HEADER_LEN
  }

  /** Every frame of every answer in every run reads back as the packet it carries. */
  lemma EveryFrameReadsBack(auto: Automaton, localIp: Ipv4, authMethod: AuthMethod, inputs: seq<Input>, input: Input)
    requires Arrives(input) && forall i <- inputs :: Arrives(i)
    ensures var p := After(auto, NewLink(localIp, authMethod), BLANK, inputs).0;
      forall x <- Respond(auto, p, input).1.packets :: ReadsBack(x)
  {
    SizedAlong(auto, NewLink(localIp, authMethod), BLANK, inputs);
    var p := After(auto, NewLink(localIp, authMethod), BLANK, inputs).0;
    CallSized(auto, p, input);
    forall x <- Respond(auto, p, input).1.packets
      ensures ReadsBack(x)
    {
      assert Sendable(x);
      WireReadsBack(x);
    }
  }

  // ---------------------------------------------------------------------------
  // The session's buffer
  // ---------------------------------------------------------------------------

  /** Longest body that fits the 4095-byte buffer behind the SSTP, PPP and packet headers. */
  const MAX_BODY: nat := SstpFraming.MAX_PACKET_LEN - SstpFraming.HEADER_LEN - FRAME_HEADER_LEN - PACKET_HEADER_LEN

  /** Size of the answer an inbound frame calls for, read off the frame and the addresses
      granted: the options themselves, the Nak or Reject, or the echoed data. */
  function AnswerSize(input: Input, addrs: Option<Addrs>): nat {
    if RequestIn(input, LCP).Some? then |LcpBody(RequestIn(input, LCP).value)|
    else if RequestIn(input, IPCP).Some? && addrs.Some? then |IpcpBody(RequestIn(input, IPCP).value, addrs.value)|
    else if EchoIn(input).Some? then |EchoReplyBody(EchoIn(input).value.data)|
    else 0
  }

  /** In every run with a lawful automaton, over frames an SSTP packet can carry: a frame
      fits the session's buffer if and only if it does not answer the inbound frame, or
      the answer that calls for is at most 4083 bytes. */
  lemma FrameFitsIffAnswerShort(auto: Automaton, localIp: Ipv4, authMethod: AuthMethod, inputs: seq<Input>, input: Input, x: Packet)
    requires Lawful(auto) && Arrives(input) && forall i <- inputs :: Arrives(i)
    requires x in Respond(auto, After(auto, NewLink(localIp, authMethod), BLANK, inputs).0, input).1.packets
    ensures var h := After(auto, NewLink(localIp, authMethod), BLANK, inputs).1;
      SessionWrite.FitsBuffer(Wire(x)) <==> (IsAnswer(x) ==> AnswerSize(input, h.granted) <= MAX_BODY)
  {
    var (p, h) := After(auto, NewLink(localIp, authMethod), BLANK, inputs);
    SizedAlong(auto, NewLink(localIp, authMethod), BLANK, inputs);
    CallSized(auto, p, input);
    assert Sendable(x);
    RepliesAnswerTheRequest(auto, localIp, authMethod, inputs, input);
    assert Answered(input, x, h.granted);
  }

  /** With up to 1361 bytes of options, and up to 4083 of echoed data, the answer fits. */
  lemma ShortRequestsFit(input: Input, addrs: Option<Addrs>)
    requires RequestIn(input, LCP).Some? ==> |RequestIn(input, LCP).value.data| <= MAX_BODY
    requires RequestIn(input, IPCP).Some? ==> |RequestIn(input, IPCP).value.data| <= MAX_BODY / 3
    requires EchoIn(input).Some? ==> |EchoIn(input).value.data| <= MAX_BODY
    ensures AnswerSize(input, addrs) <= MAX_BODY && MAX_BODY / 3 == 1361
  {
    if RequestIn(input, LCP).Some? {
      LcpVerdict.RejectBound(RequestIn(input, LCP).value.data, None);
    } else if RequestIn(input, IPCP).Some? && addrs.Some? {
      BodyBound(addrs.value, RequestIn(input, IPCP).value.data);
    }
  }

  /** The bounds are needed: 2042 well-formed options, asked for without the Address and
      Control bytes in one SSTP packet, call for an answer of 4084 bytes. */
  lemma LongRequestAborts(list: seq<Opt>, nonce: Nonce)
    requires |list| == 2042 && forall i :: 0 <= i < |list| ==> list[i] == Opt(LcpVerdict.PFC, [])
    ensures var payload := Be16(LCP) + Envelope(Packet(LCP, 1, 1, EncodeOptions(list)));
      && SstpFraming.HEADER_LEN + |payload| <= SstpFraming.MAX_PACKET_LEN
      && AnswerSize(Frame(payload, nonce), None) == MAX_BODY + 1
  {
    SameOptions(list);
    var pkt := Packet(LCP, 1, 1, EncodeOptions(list));
    var payload := Be16(LCP) + Envelope(pkt);
    assert StripAddress(payload) == payload && payload[2..] == Envelope(pkt);
    EnvelopeReadsBack(pkt);
    ParseEncoded(list);
  }

  lemma {:induction false} SameOptions(list: seq<Opt>)
    requires forall i :: 0 <= i < |list| ==> list[i] == Opt(LcpVerdict.PFC, [])
    ensures |EncodeOptions(list)| == 2 * |list| && AllEncodable(list) && LcpVerdict.Refused(list) == []
  {
    if list != [] {
      SameOptions(list[..|list| - 1]);
    }
  }
}
