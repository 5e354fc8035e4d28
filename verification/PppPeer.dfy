/** A cooperative peer of one negotiation layer, which knows nothing but the packets it is
    sent: it asks for its list until that is acknowledged, revises it as each refusal says,
    and acknowledges the server's request. LCP and IPCP with the source's own automaton
    against it, whatever order it moves in. */
module PppPeer {
  import opened Bytes
  import opened Fsm
  import opened PppCodec
  import opened PppOptions
  import LcpVerdict
  import opened IpcpVerdict
  import opened PppModel
  import PppFrames
  import SessionWrite

  /** One layer of the peer: the list it asks for, the last refusal it has not acted on,
      whether the list is acknowledged, whether a request of the server is unanswered, and
      how often it has revised the list. */
  datatype Side = Side(list: seq<Opt>, refusal: Option<Packet>, acked: bool, owes: bool, revisions: nat)

  predicate IsOpen(s: Side) {
    s.acked && !s.owes
  }

  function Heard(s: Side, protocol: nat, x: Packet): Side {
    if x.protocol != protocol then s
    else if x.code == 1 then s.(owes := true)
    else if x.code == 2 then s.(acked := true, refusal := None)
    else if x.code == 3 || x.code == 4 then s.(acked := false, refusal := Some(x))
    else s
  }

  /** The packets of one answer, in order. */
  function Hear(s: Side, protocol: nat, ps: seq<Packet>): Side {
    if ps == [] then s else Heard(Hear(s, protocol, ps[..|ps| - 1]), protocol, ps[|ps| - 1])
  }

  /** What was rejected is dropped, what was Nak'd is taken as offered. */
  function Revised(s: Side): Side
    requires s.refusal.Some?
  {
    var said := ParseOptions(s.refusal.value.body).opts;
    s.(list := if s.refusal.value.code == 4 then Dropping(s.list, said) else Adopting(s.list, said),
       refusal := None, revisions := s.revisions + 1)
  }

  lemma HearPush(s: Side, protocol: nat, ps: seq<Packet>, x: Packet)
    ensures Hear(s, protocol, ps + [x]) == Heard(Hear(s, protocol, ps), protocol, x)
  {
    assert (ps + [x])[..|ps|] == ps;
  }

  lemma HearOne(s: Side, protocol: nat, x: Packet)
    ensures Hear(s, protocol, [x]) == Heard(s, protocol, x)
  {
    assert [x] == [] + [x];
    HearPush(s, protocol, [], x);
  }

  lemma HearTwo(s: Side, protocol: nat, x: Packet, y: Packet)
    ensures Hear(s, protocol, [x, y]) == Heard(Heard(s, protocol, x), protocol, y)
  {
    HearOne(s, protocol, x);
    assert [x, y] == [x] + [y];
    HearPush(s, protocol, [x], y);
  }

  ghost predicate NoneOf(protocol: nat, ps: seq<Packet>) {
    forall x <- ps :: x.protocol != protocol
  }

  lemma {:induction false} HearOthers(s: Side, protocol: nat, ps: seq<Packet>)
    requires NoneOf(protocol, ps)
    ensures Hear(s, protocol, ps) == s
  {
    if ps != [] {
      HearOthers(s, protocol, ps[..|ps| - 1]);
    }
  }

  /** Every frame of an answer fits the session's buffer. */
  ghost predicate Fit(ps: seq<Packet>) {
    forall x <- ps :: SessionWrite.FitsBuffer(Wire(x))
  }

  lemma FitsIff(x: Packet)
    ensures SessionWrite.FitsBuffer(Wire(x)) <==> |x.body| <= PppFrames.MAX_BODY
  {
  }

  /** The peer's packet as a call on the driver. */
  function Says(x: Packet, nonce: Nonce): Input {
    Frame(Wire(x), nonce)
  }

  function Asking(protocol: nat, id: byte, list: seq<Opt>): Packet {
    Packet(protocol, 1, id, EncodeOptions(list))
  }

  // ---------------------------------------------------------------------------
  // The automaton against the peer
  // ---------------------------------------------------------------------------

  /** The server's state, as the peer could tell it. */
  function StateOf(acked: bool, owes: bool): State {
    if owes then if acked then AckSent else ReqSent
    else if acked then Opened else AckRcvd
  }

  function Notice(open: bool): Notify {
    if open then UP else QUIET
  }

  lemma AskStep(f: Fsm, acked: bool, owes: bool, good: bool)
    requires f.state == StateOf(acked, owes) && (owes || !acked)
    ensures var (g, out) := Step(f, if good then RcvConfigReqGood else RcvConfigReqBad);
      && g.state == StateOf(good, owes)
      && out == StepOut(g.state, Some(if good then ConfigureAck else ConfigureNak), None, None, Notice(good && !owes))
  {
  }

  lemma ConfirmStep(f: Fsm, acked: bool)
    requires f.state == StateOf(acked, true)
    ensures var (g, out) := Step(f, RcvConfigAck);
      g.state == StateOf(acked, false) && out == StepOut(g.state, None, None, Some(Stop), Notice(acked))
  {
  }

  lemma TickStep(f: Fsm, acked: bool)
    requires f.state == StateOf(acked, true) && f.restart > 0
    ensures var (g, out) := Step(f, RestartTimeout);
      g.state == f.state && out == StepOut(g.state, Some(ConfigureRequest), None, Some(Start), QUIET)
  {
  }

  lemma OpenUp()
    ensures var (g, out) := Step(Step(New(), Event.Open).0, Up);
      g.state.ReqSent? && out == StepOut(ReqSent, Some(ConfigureRequest), None, Some(Start), QUIET)
  {
    assert Step(New(), Event.Open).0.state.Starting?;
  }

  // ---------------------------------------------------------------------------
  // LCP
  // ---------------------------------------------------------------------------

  ghost predicate AllAcceptable(list: seq<Opt>) {
    forall o <- list :: LcpVerdict.Acceptable(o)
  }

  /** A list, its Reject and what is left of it all fit. */
  ghost predicate LcpFits(list: seq<Opt>) {
    AllEncodable(list) && |EncodeOptions(list)| <= PppFrames.MAX_BODY
  }

  /** What the peer still has to do with its list, and that one revision is enough. */
  ghost predicate LcpListed(s: Side) {
    && LcpFits(s.list)
    && (s.acked ==> AllAcceptable(s.list) && s.refusal.None?)
    && (s.refusal.Some? ==>
          && s.revisions == 0 && s.refusal.value.code == 4
          && s.refusal.value.body == LcpVerdict.Judge(EncodeOptions(s.list), None).body)
    && s.revisions <= 1 && (s.revisions == 1 ==> AllAcceptable(s.list))
  }

  /** Peer and server agree on where LCP stands. */
  ghost predicate LcpAgrees(p: Link, s: Side, m: AuthMethod) {
    && p.lcp.authMethod == m && p.lcp.fsm.state == StateOf(s.acked, s.owes) && p.lcp.isOpen == IsOpen(s)
    && p.phase == (if IsOpen(s) then AuthPending else Establish)
    && (IsOpen(s) && !m.UsePap? ==> p.challenge.Some?)
    && LcpListed(s)
  }

  function Challenge(p: Link, up: bool, nonce: Nonce): seq<Packet> {
    if up && !p.lcp.authMethod.UsePap? then [ChallengePacket(p.chapCounter, nonce)] else []
  }

  /** One step of closed LCP, rendered: at most one packet of its own, then the challenge. */
  lemma LcpRendered(p: Link, out: StepOut, open: bool, nonce: Nonce)
    requires out.extra.None? && out.notify == Notice(open) && !p.lcp.isOpen
    ensures var (q, r) := RenderLcp(p, out, nonce);
      && q.lcp.fsm.state == p.lcp.fsm.state && q.lcp.authMethod == p.lcp.authMethod && q.lcp.isOpen == open
      && q.phase == (if open then AuthPending else p.phase)
      && (open && !p.lcp.authMethod.UsePap? ==> q.challenge.Some?)
      && r == Reply(RenderLcpSend(p.lcp, out.send).1 + Challenge(p, open, nonce),
                    Starts(out.timer, LcpTimer), Stops(out.timer, LcpTimer), None, false)
  {
    var f1 := RenderLcpSend(p.lcp, out.send).1;
    assert f1 + [] == f1;
  }

  lemma LcpReads(p: Link, x: Packet, nonce: Nonce)
    requires x.protocol == LCP && PacketLen(x) < U16_LIMIT
    ensures Respond(Step, p, Says(x, nonce)) == (
      var (l, event) := LcpReceives(p.lcp, LcpPacket(x.code, x.id, x.body));
      LcpEvent(Step, p.(lcp := l), event, nonce))
  {
    WireReadsBack(x);
  }

  lemma LcpJudged(list: seq<Opt>, mru: Option<nat>)
    requires AllEncodable(list)
    ensures var v := LcpVerdict.Judge(EncodeOptions(list), mru);
      v.good == AllAcceptable(list) && v.body == LcpVerdict.Judge(EncodeOptions(list), None).body
    ensures |LcpVerdict.Judge(EncodeOptions(list), None).body| <= |EncodeOptions(list)|
  {
    LcpVerdict.ConvergesByTheSecond(list, mru, None);
    LcpVerdict.RejectBound(EncodeOptions(list), None);
  }

  /** What a request leaves in the server. */
  lemma LcpReceivesAsk(lcp: Lcp, id: byte, opts: seq<byte>)
    ensures var (l, event) := LcpReceives(lcp, LcpPacket(1, id, opts));
      var v := LcpVerdict.Judge(opts, lcp.peerMru);
      && event == (if v.good then RcvConfigReqGood else RcvConfigReqBad)
      && l == lcp.(lastCrId := id, lastCrOptions := opts, pendingNak := v.body, nakIsReject := true, peerMru := v.mru)
  {
  }

  /** The server's answer to the bytes of a request, while the layer is not open. */
  lemma LcpAnswers(p: Link, acked: bool, owes: bool, id: byte, opts: seq<byte>, good: bool, nonce: Nonce)
    requires p.lcp.fsm.state == StateOf(acked, owes) && (owes || !acked) && !p.lcp.isOpen && p.phase.Establish?
    requires |opts| <= PppFrames.MAX_BODY && good == LcpVerdict.Judge(opts, p.lcp.peerMru).good
    ensures var (q, r) := Respond(Step, p, Says(Packet(LCP, 1, id, opts), nonce));
      var open := good && !owes;
      && q.lcp.authMethod == p.lcp.authMethod && q.lcp.fsm.state == StateOf(good, owes) && q.lcp.isOpen == open
      && q.phase == (if open then AuthPending else Establish) && (open && !p.lcp.authMethod.UsePap? ==> q.challenge.Some?)
      && r == Reply([if good then Packet(LCP, 2, id, opts) else Packet(LCP, 4, id, LcpVerdict.Judge(opts, p.lcp.peerMru).body)]
                    + Challenge(p, open, nonce), [], [], None, false)
  {
    LcpReads(p, Packet(LCP, 1, id, opts), nonce);
    LcpReceivesAsk(p.lcp, id, opts);
    var (l, event) := LcpReceives(p.lcp, LcpPacket(1, id, opts));
    AskStep(l.fsm, acked, owes, good);
    var (f, out) := Step(l.fsm, event);
    LcpRendered(p.(lcp := l.(fsm := f)), out, good && !owes, nonce);
  }

  lemma LcpConfirms(p: Link, acked: bool, id: byte, body: seq<byte>, nonce: Nonce)
    requires p.lcp.fsm.state == StateOf(acked, true) && !p.lcp.isOpen && p.phase.Establish? && |body| <= PppFrames.MAX_BODY
    ensures var (q, r) := Respond(Step, p, Says(Packet(LCP, 2, id, body), nonce));
      && q.lcp.authMethod == p.lcp.authMethod && q.lcp.fsm.state == StateOf(acked, false) && q.lcp.isOpen == acked
      && q.phase == (if acked then AuthPending else Establish) && (acked && !p.lcp.authMethod.UsePap? ==> q.challenge.Some?)
      && r == Reply(Challenge(p, acked, nonce), [], [LcpTimer], None, false)
  {
    LcpReads(p, Packet(LCP, 2, id, body), nonce);
    ConfirmStep(p.lcp.fsm, acked);
    var (f, out) := Step(p.lcp.fsm, RcvConfigAck);
    LcpRendered(p.(lcp := p.lcp.(fsm := f)), out, acked, nonce);
    assert [] + Challenge(p, acked, nonce) == Challenge(p, acked, nonce);
  }

  lemma LcpTicks(p: Link, acked: bool, nonce: Nonce)
    requires p.lcp.fsm.state == StateOf(acked, true) && p.lcp.fsm.restart > 0 && !p.lcp.isOpen && p.phase.Establish?
    ensures var (q, r) := Respond(Step, p, Timeout(LcpTimer, nonce));
      && q.lcp.authMethod == p.lcp.authMethod && q.lcp.fsm.state == p.lcp.fsm.state && !q.lcp.isOpen && q.phase.Establish?
      && |r.packets| == 1 && r.packets[0].protocol == LCP && r.packets[0].code == 1
      && r.packets[0].body == OwnOptions(p.lcp.authMethod) && r == Reply(r.packets, [LcpTimer], [], None, false)
  {
    TickStep(p.lcp.fsm, acked);
    var (f, out) := Step(p.lcp.fsm, RestartTimeout);
    LcpRendered(p.(lcp := p.lcp.(fsm := f)), out, false, nonce);
  }

  /** What is to be shown of a call on LCP: the two sides agree on what came of it. */
  ghost predicate LcpSettles(p: Link, s: Side, m: AuthMethod, input: Input, h: Side) {
    var (q, r) := Respond(Step, p, input);
    && h == Hear(s, LCP, r.packets) && LcpAgrees(q, h, m)
    && Fit(r.packets) && r.event.None? && NoneOf(IPCP, r.packets)
  }

  lemma HearLcp(s: Side, x: Packet, rest: seq<Packet>)
    requires NoneOf(LCP, rest)
    ensures Hear(s, LCP, [x] + rest) == Heard(s, LCP, x)
    decreases |rest|
  {
    if rest == [] {
      assert [x] + rest == [x];
      HearOne(s, LCP, x);
    } else {
      var init, last := rest[..|rest| - 1], rest[|rest| - 1];
      assert [x] + rest == ([x] + init) + [last];
      HearPush(s, LCP, [x] + init, last);
      HearLcp(s, x, init);
    }
  }

  lemma ChallengeFits(p: Link, up: bool, nonce: Nonce)
    ensures var c := Challenge(p, up, nonce); Fit(c) && NoneOf(LCP, c) && NoneOf(IPCP, c)
  {
  }

  /** The list after the answer to it. */
  lemma LcpHeard(s: Side, x: Packet)
    requires LcpListed(s) && x.protocol == LCP
    requires if AllAcceptable(s.list) then x.code == 2 && x.body == EncodeOptions(s.list)
      else x.code == 4 && x.body == LcpVerdict.Judge(EncodeOptions(s.list), None).body
    ensures var h := Heard(s, LCP, x);
      && LcpListed(h) && SessionWrite.FitsBuffer(Wire(x))
      && h == s.(acked := AllAcceptable(s.list), refusal := if h.acked then None else Some(x))
  {
    LcpJudged(s.list, None);
    FitsIff(x);
  }

  lemma LcpAsked(p: Link, s: Side, m: AuthMethod, id: byte, nonce: Nonce) returns (h: Side)
    requires LcpAgrees(p, s, m) && !IsOpen(s)
    ensures LcpSettles(p, s, m, Says(Asking(LCP, id, s.list), nonce), h)
    ensures h == s.(acked := h.acked, refusal := h.refusal) && (h.acked || h.refusal.Some?) && (s.acked ==> h.acked)
  {
    var good, opts := AllAcceptable(s.list), EncodeOptions(s.list);
    LcpJudged(s.list, p.lcp.peerMru);
    LcpAnswers(p, s.acked, s.owes, id, opts, good, nonce);
    ChallengeFits(p, good && !s.owes, nonce);
    var x := if good then Packet(LCP, 2, id, opts) else Packet(LCP, 4, id, LcpVerdict.Judge(opts, None).body);
    LcpHeard(s, x);
    HearLcp(s, x, Challenge(p, good && !s.owes, nonce));
    h := Heard(s, LCP, x);
  }

  lemma LcpConfirmed(p: Link, s: Side, m: AuthMethod, id: byte, body: seq<byte>, nonce: Nonce)
    requires LcpAgrees(p, s, m) && s.owes && |body| <= PppFrames.MAX_BODY
    ensures LcpSettles(p, s.(owes := false), m, Says(Packet(LCP, 2, id, body), nonce), s.(owes := false))
  {
    LcpConfirms(p, s.acked, id, body, nonce);
    ChallengeFits(p, s.acked, nonce);
    HearOthers(s.(owes := false), LCP, Challenge(p, s.acked, nonce));
  }

  lemma LcpTicked(p: Link, s: Side, m: AuthMethod, nonce: Nonce)
    requires LcpAgrees(p, s, m) && s.owes && p.lcp.fsm.restart > 0
    ensures LcpSettles(p, s, m, Timeout(LcpTimer, nonce), s)
  {
    LcpTicks(p, s.acked, nonce);
    var ps := Respond(Step, p, Timeout(LcpTimer, nonce)).1.packets;
    assert ps == [ps[0]];
    HearOne(s, LCP, ps[0]);
    FitsIff(ps[0]);
  }

  lemma SendKeepsState(lcp: Lcp, send: Option<Send>)
    ensures RenderLcpSend(lcp, send).0.fsm.state == lcp.fsm.state
  {
  }

  /** An Ack that nothing is owed for: the server asks once more. */
  lemma AgainStep(f: Fsm)
    requires f.state.AckRcvd? || f.state.Opened?
    ensures var (g, out) := Step(f, RcvConfigAck);
      && g.state.ReqSent?
      && out == StepOut(ReqSent, Some(ConfigureRequest), None, None, if f.state.Opened? then DOWN else QUIET)
  {
  }

  predicate IsRequest(x: Packet, protocol: nat, body: seq<byte>) {
    x.protocol == protocol && x.code == 1 && x.body == body
  }

  lemma RequestRendered(lcp: Lcp)
    ensures var (l, ps) := RenderLcpSend(lcp, Some(ConfigureRequest));
      && l == lcp.(fsm := l.fsm) && l.fsm.state == lcp.fsm.state
      && |ps| == 1 && ps == [ps[0]] && IsRequest(ps[0], LCP, OwnOptions(lcp.authMethod))
  {
  }

  lemma LcpRepeats(p: Link, id: byte, body: seq<byte>, nonce: Nonce)
    requires (p.lcp.fsm.state.Opened? || p.lcp.fsm.state.AckRcvd?) && |body| <= PppFrames.MAX_BODY
    ensures var (q, r) := Respond(Step, p, Says(Packet(LCP, 2, id, body), nonce));
      && q.lcp.fsm.state.ReqSent? && q.lcp.authMethod == p.lcp.authMethod && q.phase == p.phase && q.ipcp == p.ipcp
      && q.lcp.isOpen == (p.lcp.isOpen && p.lcp.fsm.state.AckRcvd?)
      && |r.packets| == 1 && IsRequest(r.packets[0], LCP, OwnOptions(p.lcp.authMethod)) && r == Reply(r.packets, [], [], None, false)
  {
    LcpReads(p, Packet(LCP, 2, id, body), nonce);
    AgainStep(p.lcp.fsm);
    var (f, out) := Step(p.lcp.fsm, RcvConfigAck);
    RequestRendered(p.lcp.(fsm := f));
  }

  lemma LcpReconfirmed(p: Link, s: Side, m: AuthMethod, id: byte, body: seq<byte>, nonce: Nonce)
    requires LcpAgrees(p, s, m) && !s.owes && !s.acked && |body| <= PppFrames.MAX_BODY
    ensures LcpSettles(p, s, m, Says(Packet(LCP, 2, id, body), nonce), s.(owes := true))
  {
    LcpRepeats(p, id, body, nonce);
    var ps := Respond(Step, p, Says(Packet(LCP, 2, id, body), nonce)).1.packets;
    assert ps == [ps[0]];
    HearOne(s, LCP, ps[0]);
    FitsIff(ps[0]);
  }

  /** A Configure-Ack counts whatever its identifier. The sides still agree after it if and
      only if the layer is not open: then at most the server asks once more. Open, LCP goes
      down, and the peer, which only sees another request, cannot tell. */
  lemma AckWelcomeIffNotOpen(p: Link, s: Side, m: AuthMethod, id: byte, body: seq<byte>, nonce: Nonce)
    requires LcpAgrees(p, s, m) && |body| <= PppFrames.MAX_BODY
    ensures (exists h :: LcpSettles(p, s.(owes := false), m, Says(Packet(LCP, 2, id, body), nonce), h)) <==> !IsOpen(s)
    ensures var q := Respond(Step, p, Says(Packet(LCP, 2, id, body), nonce)).0;
      IsOpen(s) ==> q.lcp.fsm.state.ReqSent? && p.lcp.isOpen && !q.lcp.isOpen
  {
    if s.owes {
      LcpConfirmed(p, s, m, id, body, nonce);
    } else if !s.acked {
      LcpReconfirmed(p, s, m, id, body, nonce);
      assert s.(owes := false) == s;
    } else {
      LcpRepeats(p, id, body, nonce);
      var ps := Respond(Step, p, Says(Packet(LCP, 2, id, body), nonce)).1.packets;
      assert ps == [ps[0]];
      HearOne(s.(owes := false), LCP, ps[0]);
    }
  }

  /** The revised list is acknowledged when it is next asked for. */
  lemma LcpRevised(p: Link, s: Side, m: AuthMethod)
    requires LcpAgrees(p, s, m) && s.refusal.Some?
    ensures LcpAgrees(p, Revised(s), m) && Revised(s).revisions == 1
  {
    LcpVerdict.ConvergesByTheSecond(s.list, None, None);
    var said := ParseOptions(s.refusal.value.body).opts;
    DroppingShorter(s.list, said);
    LcpJudged(Dropping(s.list, said), None);
  }

  lemma {:induction false} DroppingShorter(os: seq<Opt>, rejected: seq<Opt>)
    ensures |EncodeOptions(Dropping(os, rejected))| <= |EncodeOptions(os)|
  {
    if os != [] {
      DroppingShorter(os[..|os| - 1], rejected);
      EncodePush(Dropping(os[..|os| - 1], rejected), os[|os| - 1]);
    }
  }

  // ---------------------------------------------------------------------------
  // IPCP
  // ---------------------------------------------------------------------------

  /** A list, the answer to it, and as many revisions of it as follow, all fit. */
  ghost predicate IpcpFits(addrs: Addrs, list: seq<Opt>, revisions: nat)
    decreases revisions
  {
    var v := Judge(addrs, EncodeOptions(list));
    && |EncodeOptions(list)| <= PppFrames.MAX_BODY && |v.body| <= PppFrames.MAX_BODY
    && (revisions > 0 ==> IpcpFits(addrs, PeerNext(list, v), revisions - 1))
  }

  /** What the peer still has to do with its list, and that two revisions are enough. */
  ghost predicate IpcpListed(s: Side, addrs: Addrs) {
    var v := Judge(addrs, EncodeOptions(s.list));
    && AllEncodable(s.list) && s.revisions <= 2 && IpcpFits(addrs, s.list, 2 - s.revisions)
    && (s.acked ==> v.good && s.refusal.None?)
    && (s.refusal.Some? ==>
          && s.revisions < 2 && !v.good && s.refusal.value.body == v.body
          && s.refusal.value.code == (if v.isReject then 4 else 3))
    && (s.revisions >= 1 ==> NoneRejected(addrs, s.list)) && (s.revisions == 2 ==> v.good)
  }

  predicate IpcpShape(p: Link, s: Side, addrs: Addrs) {
    && p.phase.Network? && p.ipcp.Some? && p.ipcp.value.addrs == addrs && p.pendingAddrs == Some(addrs)
    && p.ipcp.value.fsm.state == StateOf(s.acked, s.owes) && p.ipcp.value.isOpen == IsOpen(s)
  }

  /** Peer and server agree on where IPCP stands. */
  ghost predicate IpcpAgrees(p: Link, s: Side, addrs: Addrs) {
    IpcpShape(p, s, addrs) && IpcpListed(s, addrs)
  }

  lemma IpcpRendered(p: Link, out: StepOut, open: bool)
    requires p.ipcp.Some? && p.pendingAddrs.Some? && !p.ipcp.value.isOpen
    requires out.extra.None? && out.notify == Notice(open)
    ensures var (q, r) := RenderIpcp(p, out);
      && q.ipcp.Some? && q == p.(ipcp := q.ipcp)
      && q.ipcp.value.addrs == p.ipcp.value.addrs && q.ipcp.value.fsm.state == p.ipcp.value.fsm.state
      && q.ipcp.value.isOpen == open
      && r == Reply(RenderIpcpSend(p.ipcp.value, out.send).1, Starts(out.timer, IpcpTimer), Stops(out.timer, IpcpTimer),
                    if open then Some(NetworkUp(p.pendingAddrs.value)) else None, false)
  {
    var f1 := RenderIpcpSend(p.ipcp.value, out.send).1;
    assert f1 + [] == f1;
  }

  lemma IpcpReads(p: Link, x: Packet, nonce: Nonce)
    requires p.phase.Network? && p.ipcp.Some? && x.protocol == IPCP && PacketLen(x) < U16_LIMIT
    ensures Respond(Step, p, Says(x, nonce)) == (
      var (i, event) := IpcpReceives(p.ipcp.value, LcpPacket(x.code, x.id, x.body));
      IpcpEvent(Step, p.(ipcp := Some(i)), event))
  {
    WireReadsBack(x);
  }

  lemma IpcpReceivesAsk(ipcp: Ipcp, id: byte, opts: seq<byte>)
    ensures var (i, event) := IpcpReceives(ipcp, LcpPacket(1, id, opts));
      var v := Judge(ipcp.addrs, opts);
      && event == (if v.good then RcvConfigReqGood else RcvConfigReqBad)
      && i == ipcp.(lastCrId := id, lastCrOptions := opts, pendingNak := v.body, nakIsReject := v.isReject)
  {
  }

  /** IPCP of `q` is that of `p` moved to `state`. */
  predicate Moved(p: Link, q: Link, state: State, open: bool)
    requires p.ipcp.Some?
  {
    && q.ipcp.Some? && q == p.(ipcp := q.ipcp) && q.ipcp.value.addrs == p.ipcp.value.addrs
    && q.ipcp.value.fsm.state == state && q.ipcp.value.isOpen == open
  }

  function Reported(p: Link, open: bool): Option<PppEvent>
    requires p.pendingAddrs.Some?
  {
    if open then Some(NetworkUp(p.pendingAddrs.value)) else None
  }

  predicate IpcpStands(p: Link, acked: bool, owes: bool) {
    && p.phase.Network? && p.ipcp.Some? && p.pendingAddrs.Some? && !p.ipcp.value.isOpen
    && p.ipcp.value.fsm.state == StateOf(acked, owes) && (owes || !acked)
  }

  lemma IpcpAnswers(p: Link, acked: bool, owes: bool, id: byte, opts: seq<byte>, v: IpcpVerdict.Verdict, nonce: Nonce)
    requires IpcpStands(p, acked, owes) && |opts| <= PppFrames.MAX_BODY && v == Judge(p.ipcp.value.addrs, opts)
    ensures var (q, r) := Respond(Step, p, Says(Packet(IPCP, 1, id, opts), nonce));
      var open := v.good && !owes;
      && Moved(p, q, StateOf(v.good, owes), open)
      && r == Reply([if v.good then Packet(IPCP, 2, id, opts) else Packet(IPCP, if v.isReject then 4 else 3, id, v.body)],
                    [], [], Reported(p, open), false)
  {
    IpcpReads(p, Packet(IPCP, 1, id, opts), nonce);
    IpcpReceivesAsk(p.ipcp.value, id, opts);
    var (i, event) := IpcpReceives(p.ipcp.value, LcpPacket(1, id, opts));
    AskStep(i.fsm, acked, owes, v.good);
    var (f, out) := Step(i.fsm, event);
    IpcpRendered(p.(ipcp := Some(i.(fsm := f))), out, v.good && !owes);
  }

  lemma IpcpConfirms(p: Link, acked: bool, id: byte, body: seq<byte>, nonce: Nonce)
    requires IpcpStands(p, acked, true) && |body| <= PppFrames.MAX_BODY
    ensures var (q, r) := Respond(Step, p, Says(Packet(IPCP, 2, id, body), nonce));
      Moved(p, q, StateOf(acked, false), acked) && r == Reply([], [], [IpcpTimer], Reported(p, acked), false)
  {
    IpcpReads(p, Packet(IPCP, 2, id, body), nonce);
    ConfirmStep(p.ipcp.value.fsm, acked);
    var (f, out) := Step(p.ipcp.value.fsm, RcvConfigAck);
    IpcpRendered(p.(ipcp := Some(p.ipcp.value.(fsm := f))), out, acked);
  }

  lemma IpcpTicks(p: Link, acked: bool, nonce: Nonce)
    requires IpcpStands(p, acked, true) && p.ipcp.value.fsm.restart > 0
    ensures var (q, r) := Respond(Step, p, Timeout(IpcpTimer, nonce));
      && Moved(p, q, p.ipcp.value.fsm.state, false)
      && |r.packets| == 1 && r.packets[0].protocol == IPCP && r.packets[0].code == 1 && |r.packets[0].body| == 6
      && r == Reply(r.packets, [IpcpTimer], [], None, false)
  {
    TickStep(p.ipcp.value.fsm, acked);
    var (f, out) := Step(p.ipcp.value.fsm, RestartTimeout);
    IpcpRendered(p.(ipcp := Some(p.ipcp.value.(fsm := f))), out, false);
  }

  /** A call on IPCP keeps the sides in step and fits, and the network comes up exactly
      when the layer opens. */
  ghost predicate IpcpInStep(p: Link, s: Side, addrs: Addrs, input: Input, h: Side) {
    var (q, r) := Respond(Step, p, input);
    && h == Hear(s, IPCP, r.packets) && IpcpShape(q, h, addrs) && Fit(r.packets) && NoneOf(LCP, r.packets) && q.lcp == p.lcp
    && r.event == (if IsOpen(h) then Some(NetworkUp(addrs)) else None)
  }

  /** What is to be shown of a call on IPCP. */
  ghost predicate IpcpSettles(p: Link, s: Side, addrs: Addrs, input: Input, h: Side) {
    IpcpInStep(p, s, addrs, input, h) && IpcpListed(h, addrs)
  }

  lemma AskedInStep(p: Link, s: Side, addrs: Addrs, id: byte, opts: seq<byte>, v: IpcpVerdict.Verdict, nonce: Nonce, x: Packet)
    requires IpcpShape(p, s, addrs) && !IsOpen(s) && |opts| <= PppFrames.MAX_BODY && v == Judge(addrs, opts)
    requires x == if v.good then Packet(IPCP, 2, id, opts) else Packet(IPCP, if v.isReject then 4 else 3, id, v.body)
    requires SessionWrite.FitsBuffer(Wire(x))
    ensures IpcpInStep(p, s, addrs, Says(Packet(IPCP, 1, id, opts), nonce), Heard(s, IPCP, x))
  {
    IpcpAnswers(p, s.acked, s.owes, id, opts, v, nonce);
    HearOne(s, IPCP, x);
  }

  lemma ConfirmedInStep(p: Link, s: Side, addrs: Addrs, id: byte, body: seq<byte>, nonce: Nonce)
    requires IpcpShape(p, s, addrs) && s.owes && |body| <= PppFrames.MAX_BODY
    ensures IpcpInStep(p, s.(owes := false), addrs, Says(Packet(IPCP, 2, id, body), nonce), s.(owes := false))
  {
    IpcpConfirms(p, s.acked, id, body, nonce);
  }

  lemma TickedInStep(p: Link, s: Side, addrs: Addrs, nonce: Nonce)
    requires IpcpShape(p, s, addrs) && s.owes && p.ipcp.value.fsm.restart > 0
    ensures IpcpInStep(p, s, addrs, Timeout(IpcpTimer, nonce), s)
  {
    IpcpTicks(p, s.acked, nonce);
    var ps := Respond(Step, p, Timeout(IpcpTimer, nonce)).1.packets;
    assert ps == [ps[0]];
    HearOne(s, IPCP, ps[0]);
    FitsIff(ps[0]);
  }

  lemma ListedEitherWay(s: Side, addrs: Addrs, owes: bool)
    requires IpcpListed(s, addrs)
    ensures IpcpListed(s.(owes := owes), addrs)
  {
  }

  predicate AnswersTo(x: Packet, opts: seq<byte>, v: IpcpVerdict.Verdict) {
    && x.protocol == IPCP
    && if v.good then x.code == 2 && x.body == opts else x.code == (if v.isReject then 4 else 3) && x.body == v.body
  }

  lemma AnswerFits(addrs: Addrs, list: seq<Opt>, revisions: nat, x: Packet)
    requires IpcpFits(addrs, list, revisions) && AnswersTo(x, EncodeOptions(list), Judge(addrs, EncodeOptions(list)))
    ensures SessionWrite.FitsBuffer(Wire(x)) && |EncodeOptions(list)| <= PppFrames.MAX_BODY
  {
    FitsIff(x);
  }

  lemma IpcpHeard(s: Side, addrs: Addrs, v: IpcpVerdict.Verdict, x: Packet)
    requires v == Judge(addrs, EncodeOptions(s.list)) && AnswersTo(x, EncodeOptions(s.list), v) && IpcpListed(s, addrs)
    ensures IpcpListed(s.(acked := v.good, refusal := if v.good then None else Some(x)), addrs)
  {
  }

  lemma AnswerHeard(s: Side, opts: seq<byte>, v: IpcpVerdict.Verdict, x: Packet)
    requires AnswersTo(x, opts, v) && (s.refusal.Some? ==> !v.good) && (s.acked ==> v.good)
    ensures Heard(s, IPCP, x) == s.(acked := v.good, refusal := if v.good then None else Some(x))
  {
  }

  lemma IpcpAsked(p: Link, s: Side, addrs: Addrs, id: byte, nonce: Nonce) returns (h: Side)
    requires IpcpAgrees(p, s, addrs) && !IsOpen(s)
    ensures IpcpSettles(p, s, addrs, Says(Asking(IPCP, id, s.list), nonce), h)
    ensures h == s.(acked := h.acked, refusal := h.refusal) && (h.acked || h.refusal.Some?) && (s.acked ==> h.acked)
  {
    var opts := EncodeOptions(s.list);
    var v := Judge(addrs, opts);
    var x := if v.good then Packet(IPCP, 2, id, opts) else Packet(IPCP, if v.isReject then 4 else 3, id, v.body);
    AnswerFits(addrs, s.list, 2 - s.revisions, x);
    AnswerHeard(s, opts, v, x);
    IpcpHeard(s, addrs, v, x);
    AskedInStep(p, s, addrs, id, opts, v, nonce, x);
    h := Heard(s, IPCP, x);
  }

  lemma IpcpConfirmed(p: Link, s: Side, addrs: Addrs, id: byte, body: seq<byte>, nonce: Nonce)
    requires IpcpAgrees(p, s, addrs) && s.owes && |body| <= PppFrames.MAX_BODY
    ensures IpcpSettles(p, s.(owes := false), addrs, Says(Packet(IPCP, 2, id, body), nonce), s.(owes := false))
  {
    ConfirmedInStep(p, s, addrs, id, body, nonce);
    ListedEitherWay(s, addrs, false);
  }

  lemma IpcpTicked(p: Link, s: Side, addrs: Addrs, nonce: Nonce)
    requires IpcpAgrees(p, s, addrs) && s.owes && p.ipcp.value.fsm.restart > 0
    ensures IpcpSettles(p, s, addrs, Timeout(IpcpTimer, nonce), s)
  {
    TickedInStep(p, s, addrs, nonce);
  }

  lemma IpcpRequestRendered(ipcp: Ipcp)
    ensures var (i, ps) := RenderIpcpSend(ipcp, Some(ConfigureRequest));
      && i == ipcp.(fsm := i.fsm) && i.fsm.state == ipcp.fsm.state
      && |ps| == 1 && ps == [ps[0]] && IsRequest(ps[0], IPCP, EncodeOption(Opt(IP_ADDRESS, ipcp.localIp)))
  {
  }

  lemma IpcpRepeats(p: Link, id: byte, body: seq<byte>, nonce: Nonce)
    requires p.phase.Network? && p.ipcp.Some? && |body| <= PppFrames.MAX_BODY
    requires p.ipcp.value.fsm.state.Opened? || p.ipcp.value.fsm.state.AckRcvd?
    ensures var (q, r) := Respond(Step, p, Says(Packet(IPCP, 2, id, body), nonce));
      && Moved(p, q, ReqSent, p.ipcp.value.isOpen)
      && |r.packets| == 1 && r.packets[0].protocol == IPCP && r.packets[0].code == 1 && |r.packets[0].body| == 6
      && r == Reply(r.packets, [], [], None, false)
  {
    IpcpReads(p, Packet(IPCP, 2, id, body), nonce);
    AgainStep(p.ipcp.value.fsm);
    var (f, out) := Step(p.ipcp.value.fsm, RcvConfigAck);
    IpcpRequestRendered(p.ipcp.value.(fsm := f));
  }

  lemma ReconfirmedInStep(p: Link, s: Side, addrs: Addrs, id: byte, body: seq<byte>, nonce: Nonce)
    requires IpcpShape(p, s, addrs) && !s.owes && |body| <= PppFrames.MAX_BODY
    ensures var input := Says(Packet(IPCP, 2, id, body), nonce);
      if s.acked then forall h :: !IpcpInStep(p, s, addrs, input, h) else IpcpInStep(p, s, addrs, input, s.(owes := true))
  {
    IpcpRepeats(p, id, body, nonce);
    var ps := Respond(Step, p, Says(Packet(IPCP, 2, id, body), nonce)).1.packets;
    assert ps == [ps[0]];
    HearOne(s, IPCP, ps[0]);
    FitsIff(ps[0]);
  }

  lemma IpcpReconfirmed(p: Link, s: Side, addrs: Addrs, id: byte, body: seq<byte>, nonce: Nonce)
    requires IpcpAgrees(p, s, addrs) && !s.owes && !s.acked && |body| <= PppFrames.MAX_BODY
    ensures IpcpSettles(p, s, addrs, Says(Packet(IPCP, 2, id, body), nonce), s.(owes := true))
  {
    ReconfirmedInStep(p, s, addrs, id, body, nonce);
    ListedEitherWay(s, addrs, true);
  }

  /** The same for IPCP, whose open flag stays: the network is not reported again. */
  lemma IpcpAckWelcomeIffNotOpen(p: Link, s: Side, addrs: Addrs, id: byte, body: seq<byte>, nonce: Nonce)
    requires IpcpAgrees(p, s, addrs) && |body| <= PppFrames.MAX_BODY
    ensures (exists h :: IpcpSettles(p, s.(owes := false), addrs, Says(Packet(IPCP, 2, id, body), nonce), h)) <==> !IsOpen(s)
    ensures var q := Respond(Step, p, Says(Packet(IPCP, 2, id, body), nonce)).0;
      IsOpen(s) ==> q.ipcp.Some? && q.ipcp.value.fsm.state.ReqSent? && q.ipcp.value.isOpen
  {
    if s.owes {
      IpcpConfirmed(p, s, addrs, id, body, nonce);
    } else {
      assert s.(owes := false) == s;
      ReconfirmedInStep(p, s, addrs, id, body, nonce);
      if !s.acked {
        IpcpReconfirmed(p, s, addrs, id, body, nonce);
      } else {
        IpcpRepeats(p, id, body, nonce);
      }
    }
  }

  /** Where a revision leads, by what the verdict on the list was. */
  lemma NextList(addrs: Addrs, list: seq<Opt>, revisions: nat)
    requires AllEncodable(list) && (revisions == 1 ==> NoneRejected(addrs, list))
    ensures var next := PeerNext(list, Judge(addrs, EncodeOptions(list)));
      && AllEncodable(next) && NoneRejected(addrs, next)
      && (revisions == 1 ==> Judge(addrs, EncodeOptions(next)).good)
  {
    if NoneRejected(addrs, list) {
      AfterNak(addrs, list);
    } else {
      AfterReject(addrs, list);
    }
  }

  lemma RevisedFollows(s: Side, v: IpcpVerdict.Verdict)
    requires s.refusal.Some? && !v.good && s.refusal.value.body == v.body && s.refusal.value.code == (if v.isReject then 4 else 3)
    ensures Revised(s).list == PeerNext(s.list, v)
  {
  }

  lemma NextFits(addrs: Addrs, list: seq<Opt>, revisions: nat)
    requires revisions > 0 && IpcpFits(addrs, list, revisions)
    ensures IpcpFits(addrs, PeerNext(list, Judge(addrs, EncodeOptions(list))), revisions - 1)
  {
  }

  lemma ListedAfresh(t: Side, addrs: Addrs)
    requires AllEncodable(t.list) && NoneRejected(addrs, t.list) && !t.acked && t.refusal.None? && 1 <= t.revisions <= 2
    requires IpcpFits(addrs, t.list, 2 - t.revisions) && (t.revisions == 2 ==> Judge(addrs, EncodeOptions(t.list)).good)
    ensures IpcpListed(t, addrs)
  {
  }

  lemma IpcpRevisedList(s: Side, addrs: Addrs)
    requires IpcpListed(s, addrs) && s.refusal.Some? && !s.acked
    ensures IpcpListed(Revised(s), addrs)
  {
    NextList(addrs, s.list, s.revisions);
    NextFits(addrs, s.list, 2 - s.revisions);
    RevisedFollows(s, Judge(addrs, EncodeOptions(s.list)));
    ListedAfresh(Revised(s), addrs);
  }

  /** A revision is one step of the peer that follows the verdicts. */
  lemma IpcpRevised(p: Link, s: Side, addrs: Addrs)
    requires IpcpAgrees(p, s, addrs) && s.refusal.Some?
    ensures IpcpAgrees(p, Revised(s), addrs) && Revised(s).revisions == s.revisions + 1
  {
    IpcpRevisedList(s, addrs);
  }

  // ---------------------------------------------------------------------------
  // Which lists fit
  // ---------------------------------------------------------------------------

  lemma {:induction false} AdoptingBounded(os: seq<Opt>, naks: seq<Opt>)
    requires forall n <- naks :: |n.value| == 4
    ensures |EncodeOptions(Adopting(os, naks))| <= 3 * |EncodeOptions(os)|
  {
    if os != [] {
      AdoptingBounded(os[..|os| - 1], naks);
      EncodePush(Adopting(os[..|os| - 1], naks), Adopted(os[|os| - 1], naks));
    }
  }

  /** Adopting a Nak at most triples a list, and the result is acknowledged as it is. */
  lemma NakdFits(addrs: Addrs, os: seq<Opt>, revisions: nat)
    requires AllEncodable(os) && NoneRejected(addrs, os) && |EncodeOptions(os)| <= PppFrames.MAX_BODY / 3
    ensures IpcpFits(addrs, os, revisions)
  {
    AfterNak(addrs, os);
    BodyBound(addrs, EncodeOptions(os));
    var v := Judge(addrs, EncodeOptions(os));
    if !v.good {
      ParseEncoded(os);
      NaksAre(addrs, os);
      NaksEncodable(addrs, os);
      RejectsAre(addrs, os);
      ParseEncoded(Naks(addrs, os));
      forall n <- Naks(addrs, os)
        ensures |n.value| == 4
      {
        assert NakFor(addrs, os, n);
      }
      AdoptingBounded(os, Naks(addrs, os));
    }
    if revisions > 0 {
      GoodFits(addrs, PeerNext(os, v), revisions - 1);
    }
  }

  lemma {:induction false} GoodFits(addrs: Addrs, os: seq<Opt>, revisions: nat)
    requires Judge(addrs, EncodeOptions(os)).good && |EncodeOptions(os)| <= PppFrames.MAX_BODY
    ensures IpcpFits(addrs, os, revisions)
  {
    if revisions > 0 {
      GoodFits(addrs, os, revisions - 1);
    }
  }

  /** Up to 1361 bytes of options every answer and every later request fits. */
  lemma ShortListsFit(addrs: Addrs, os: seq<Opt>, revisions: nat)
    requires AllEncodable(os) && |EncodeOptions(os)| <= PppFrames.MAX_BODY / 3
    ensures IpcpFits(addrs, os, revisions)
  {
    if NoneRejected(addrs, os) {
      NakdFits(addrs, os, revisions);
    } else {
      AfterReject(addrs, os);
      BodyBound(addrs, EncodeOptions(os));
      var v := Judge(addrs, EncodeOptions(os));
      DroppingShorter(os, ParseOptions(v.body).opts);
      if revisions > 0 {
        NakdFits(addrs, PeerNext(os, v), revisions - 1);
      }
    }
  }

  /** The Nak of a list of bare IP-Address options is three times as long. */
  lemma {:induction false} BareListNak(addrs: Addrs, os: seq<Opt>)
    requires forall i :: 0 <= i < |os| ==> os[i] == Opt(IP_ADDRESS, [])
    ensures AllEncodable(os) && |EncodeOptions(os)| == 2 * |os|
    ensures Rejects(addrs, os) == [] && |EncodeOptions(Naks(addrs, os))| == 6 * |os|
  {
    if os != [] {
      BareListNak(addrs, os[..|os| - 1]);
      EncodePush(Naks(addrs, os[..|os| - 1]), Opt(IP_ADDRESS, addrs.ip));
    }
  }

  /** Such a list fits if and only if it has at most 680 options, though one packet
      carries 2041 of them. */
  lemma BareListFitsIff(addrs: Addrs, os: seq<Opt>)
    requires |os| <= 2041 && forall i :: 0 <= i < |os| ==> os[i] == Opt(IP_ADDRESS, [])
    ensures |EncodeOptions(os)| <= PppFrames.MAX_BODY
    ensures IpcpFits(addrs, os, 2) <==> |os| <= 680
  {
    BareListNak(addrs, os);
    ParseEncoded(os);
    if |os| <= 680 {
      ShortListsFit(addrs, os, 2);
    } else {
      assert |Judge(addrs, EncodeOptions(os)).body| == 6 * |os|;
    }
  }
}
