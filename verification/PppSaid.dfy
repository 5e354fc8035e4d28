/** What the driver says about authentication and unknown protocols, against the bytes that
    came in, in the numbers of RFC 1334, RFC 1661, RFC 1994 and RFC 2759. None of it speaks
    through the driver's own helpers. */
module PppSaid {
  import opened Bytes
  import opened Fsm
  import opened PppCodec
  import opened PppModel
  import Utf8

  predicate IsVerdict(input: Input) {
    input.AuthResult? || input.MsChapResult?
  }

  /** A verdict by the method in flight. */
  predicate Awaited(p: Link, input: Input) {
    IsVerdict(input) && p.phase.AuthInFlight? && p.phase.flight.MsChapFlight? == input.MsChapResult?
  }

  predicate AsksForAuth(event: Option<PppEvent>) {
    event.Some? && !event.value.NetworkUp?
  }

  predicate IsChallenge(p: Packet) {
    p.protocol == 0xC223 && p.code == 1
  }

  predicate IsProtocolReject(p: Packet) {
    p.protocol == 0xC021 && p.code == 8
  }

  function Ascii(s: string): seq<byte> {
    seq(|s|, i requires 0 <= i < |s| => s[i] as int % 256)
  }

  /** `r` is the text, cut to at most `n` bytes. */
  predicate CutOf(r: seq<byte>, text: seq<byte>, n: nat) {
    r <= text && |r| == (if |text| < n then |text| else n)
  }

  // ---------------------------------------------------------------------------
  // Verdicts
  // ---------------------------------------------------------------------------

  /** The text of a Failure. */
  function Reason(input: Input): seq<byte>
    requires IsVerdict(input) && input.verdict.Reject?
  {
    if input.AuthResult? then input.verdict.message
    else if input.error.Some? then input.error.value
    else Ascii("E=691 R=0 V=3 M=") + Utf8.Lossy(input.verdict.message)
  }

  /** Authenticate-Ack is 2 and Nak 3, with a counted message of at most 11 bytes; CHAP
      Success is 3 and Failure 4, cut to 255. A Success carries the response given. */
  predicate VerdictSaid(input: Input, x: Packet, finished: bool)
    requires IsVerdict(input)
  {
    if input.verdict.Accept? then
      if x.protocol == 0xC023 then x.code == 2 && x.body == [0]
      else
        && x.protocol == 0xC223 && x.code == 3
        && CutOf(x.body, if input.MsChapResult? && input.response.Some? then input.response.value else [], 255)
    else
      && finished
      && if x.protocol == 0xC023 then
           x.code == 3 && |x.body| >= 1 && x.body[0] == |x.body| - 1 && CutOf(x.body[1..], Reason(input), 11)
         else x.protocol == 0xC223 && x.code == 4 && CutOf(x.body, Reason(input), 255)
  }

  // ---------------------------------------------------------------------------
  // Credentials
  // ---------------------------------------------------------------------------

  /** Peer-ID and Password behind their counts, from byte 4 on. */
  predicate PapCarries(i: seq<byte>, peerId: seq<byte>, password: seq<byte>) {
    var n, m := |peerId|, |password|;
    && |i| >= 6 + n + m && i[0] == 1
    && i[4] == n && i[5..5 + n] == peerId
    && i[5 + n] == m && i[6 + n..6 + n + m] == password
  }

  /** A value of `n` bytes from byte 5 on, and the name up to the Length. */
  predicate ChapCarries(i: seq<byte>, id: byte, n: nat, name: seq<byte>) {
    && |i| >= 5 + n && (i[0] == 1 || i[0] == 2) && i[1] == id && i[4] == n
    && var len := FromBe16(i[2], i[3]); 5 + n <= len <= |i| && name == i[5 + n..len]
  }

  predicate CredentialsSaid(f: PppFrame, e: PppEvent) {
    match e
    case NeedPapAuth(peerId, password) => f.protocol == 0xC023 && PapCarries(f.info, peerId, password)
    case NeedChapAuth(user, id, _, response) =>
      f.protocol == 0xC223 && ChapCarries(f.info, id, 16, user) && response == f.info[5..21]
    case NeedMsChapV2Auth(user, id, _, peerChallenge, ntResponse, flags) =>
      && f.protocol == 0xC223 && ChapCarries(f.info, id, 49, user)
      && peerChallenge == f.info[5..21] && (forall k :: 21 <= k < 29 ==> f.info[k] == 0)
      && ntResponse == f.info[29..53] && flags == f.info[53]
    case NetworkUp(_) => true
  }

  // ---------------------------------------------------------------------------
  // Challenges and Protocol-Rejects
  // ---------------------------------------------------------------------------

  /** The sixteen random bytes, and the server's name. */
  predicate ChallengeSaid(input: Input, x: Packet) {
    x.body == [16] + input.nonce + Ascii("sstp-server")
  }

  /** None of LCP, PAP, CHAP and IPCP. */
  predicate IsUnknown(f: PppFrame) {
    f.protocol != 0xC021 && f.protocol != 0xC023 && f.protocol != 0xC223 && f.protocol != 0x8021
  }

  /** The frame from its protocol field on, cut so that the packet has at most 1500 bytes. */
  predicate RejectSaid(input: Input, x: Packet) {
    && input.Frame? && DecodeFrame(input.payload).Some?
    && var f := DecodeFrame(input.payload).value;
    IsUnknown(f) && f.protocol < 0x10000 && CutOf(x.body, [f.protocol / 256, f.protocol % 256] + f.info, 1496)
  }

  /** All of it, of one answer. */
  ghost predicate Said(input: Input, reply: Reply) {
    && (IsVerdict(input) && reply.packets != [] ==> VerdictSaid(input, reply.packets[0], reply.finished))
    && (AsksForAuth(reply.event) ==>
          && input.Frame? && DecodeFrame(input.payload).Some?
          && CredentialsSaid(DecodeFrame(input.payload).value, reply.event.value))
    && forall x <- reply.packets :: PacketSaid(input, x)
  }

  predicate PacketSaid(input: Input, x: Packet) {
    (IsChallenge(x) ==> ChallengeSaid(input, x)) && (IsProtocolReject(x) ==> RejectSaid(input, x))
  }

  // ---------------------------------------------------------------------------
  // It is what the driver says
  // ---------------------------------------------------------------------------

  lemma Spelled()
    ensures SERVER_NAME == Ascii("sstp-server") && ERROR_PREFIX == Ascii("E=691 R=0 V=3 M=")
  {
  }

  lemma TrimCuts(s: seq<byte>, n: nat)
    ensures CutOf(Trim(s, n), s, n)
  {
  }

  ghost predicate AllSaid(input: Input, ps: seq<Packet>) {
    forall x <- ps :: PacketSaid(input, x)
  }

  lemma LcpSendSaid(lcp: Lcp, send: Option<Send>, input: Input)
    ensures AllSaid(input, RenderLcpSend(lcp, send).1)
  {
  }

  lemma LcpEventSaid(auto: Automaton, p: Link, event: Event, input: Input)
    ensures var r := LcpEvent(auto, p, event, input.nonce).1; AllSaid(input, r.packets) && r.event.None?
  {
    var (f, out) := auto(p.lcp.fsm, event);
    var l0 := p.lcp.(fsm := f);
    LcpSendSaid(l0, out.send, input);
    var (l1, f1) := RenderLcpSend(l0, out.send);
    LcpSendSaid(l1, out.extra, input);
    Spelled();
  }

  lemma IpcpSendSaid(ipcp: Ipcp, send: Option<Send>, input: Input)
    ensures AllSaid(input, RenderIpcpSend(ipcp, send).1)
  {
  }

  lemma IpcpSaid(p: Link, out: StepOut, input: Input)
    requires p.ipcp.Some?
    ensures var r := RenderIpcp(p, out).1; AllSaid(input, r.packets) && !AsksForAuth(r.event)
  {
    IpcpSendSaid(p.ipcp.value, out.send, input);
    IpcpSendSaid(RenderIpcpSend(p.ipcp.value, out.send).0, out.extra, input);
  }

  lemma PapSaid(f: PppFrame)
    requires f.protocol == PAP && DecodePap(f.info).Some?
    ensures var r := DecodePap(f.info).value; CredentialsSaid(f, NeedPapAuth(r.peerId, r.password))
  {
    var i := f.info;
    var data := DecodePacket(i).value.data;
    var n: int := data[0];
    var m: int := data[1 + n];
    assert forall k :: 0 <= k < |data| ==> data[k] == i[4 + k];
    assert data[1..1 + n] == i[5..5 + n] && data[n + 2..n + 2 + m] == i[6 + n..6 + n + m];
  }

  lemma ChapBytes(f: PppFrame, id: byte, value: seq<byte>, name: seq<byte>)
    requires DecodeChap(f.info) == Some(ChapValue(id, value, name))
    ensures ChapCarries(f.info, id, |value|, name) && value == f.info[5..5 + |value|]
  {
    var i := f.info;
    var data := DecodePacket(i).value.data;
    var n := |value|;
    assert forall k :: 0 <= k < |data| ==> data[k] == i[4 + k];
    assert value == i[5..5 + n] && name == i[5 + n..FromBe16(i[2], i[3])];
  }

  lemma ChapSaid(p: Link, f: PppFrame)
    requires f.protocol == CHAP
    ensures var r := HandleChap(p, f.info).1; r.packets == [] && (r.event.Some? ==> AsksForAuth(r.event) && CredentialsSaid(f, r.event.value))
  {
    var d := DecodeChap(f.info);
    if d.Some? {
      var v := d.value;
      ChapBytes(f, v.id, v.value, v.name);
      if p.challenge.Some? && p.lcp.authMethod.UseMsChapV2? && MsChapShape(v.value) {
        assert forall k :: 0 <= k < 49 ==> v.value[k] == f.info[5 + k];
        assert v.value[..16] == f.info[5..21] && v.value[24..48] == f.info[29..53];
        assert forall k :: 21 <= k < 29 ==> f.info[k] == v.value[k - 5];
      }
    }
  }

  lemma RejectedSaid(p: Link, input: Input)
    requires input.Frame? && DecodeFrame(input.payload).Some? && IsUnknown(DecodeFrame(input.payload).value)
    ensures var f := DecodeFrame(input.payload).value;
      var r := ProtocolReject(p, f.protocol, f.info).1;
      if p.lcp.isOpen then |r.packets| == 1 && IsProtocolReject(r.packets[0]) && RejectSaid(input, r.packets[0]) else r == SILENT
  {
  }

  lemma FrameSaid(auto: Automaton, p: Link, input: Input)
    requires input.Frame?
    ensures Said(input, Respond(auto, p, input).1)
  {
    var d := DecodeFrame(input.payload);
    if d.None? {
      return;
    }
    var f := d.value;
    if f.protocol == LCP {
      if DecodePacket(f.info).Some? {
        var (l, event) := LcpReceives(p.lcp, DecodePacket(f.info).value);
        LcpEventSaid(auto, p.(lcp := l), event, input);
      }
    } else if f.protocol == IPCP {
      if p.phase.Network? && DecodePacket(f.info).Some? && p.ipcp.Some? {
        var (i, event) := IpcpReceives(p.ipcp.value, DecodePacket(f.info).value);
        var (g, out) := auto(i.fsm, event);
        IpcpSaid(p.(ipcp := Some(i.(fsm := g))), out, input);
      }
    } else if f.protocol == PAP {
      if DecodePap(f.info).Some? {
        PapSaid(f);
      }
    } else if f.protocol == CHAP {
      ChapSaid(p, f);
    } else {
      RejectedSaid(p, input);
    }
  }

  lemma ConcludeSaid(auto: Automaton, p: Link, input: Input, yes: Packet, no: Packet)
    requires IsVerdict(input) && !IsChallenge(yes) && !IsChallenge(no) && !IsProtocolReject(yes) && !IsProtocolReject(no)
    requires if input.verdict.Accept? then VerdictSaid(input, yes, false) else VerdictSaid(input, no, true)
    ensures var (q, r) := Conclude(auto, p, input.verdict, yes, no, input.nonce);
      && Said(input, r) && r.packets != []
      && (if input.verdict.Accept? then q.phase.Network? else q.phase.Dead? && r.finished)
  {
    if input.verdict.Accept? {
      var merged := MergeMtu(input.verdict.addrs, p.lcp.peerMru);
      var (ipcp, out) := NewIpcp(auto, merged, p.localIp);
      IpcpSaid(p.(pendingAddrs := Some(merged), phase := Network, ipcp := Some(ipcp)), out, input);
    } else {
      LcpEventSaid(auto, p, Close, input);
    }
  }

  /** A verdict is answered exactly when its method is in flight; any other changes
      nothing. An Accept leads to the network phase, a Reject ends the session. */
  lemma VerdictIsSaid(auto: Automaton, p: Link, input: Input)
    requires IsVerdict(input)
    ensures var (q, r) := Respond(auto, p, input);
      && Said(input, r)
      && if Awaited(p, input) then
           r.packets != [] && (if input.verdict.Accept? then q.phase.Network? else q.phase.Dead? && r.finished)
         else q == p && r == SILENT
  {
    if Awaited(p, input) {
      var id, m := p.phase.flight.id, Message(input.verdict);
      Spelled();
      TrimCuts(m, 11);
      TrimCuts(m, 255);
      if input.MsChapResult? {
        TrimCuts(OrEmpty(input.response), 255);
        TrimCuts(ErrorText(input.verdict, input.error), 255);
        ConcludeSaid(auto, p, input, Packet(CHAP, SUCCESS, id, Trim(OrEmpty(input.response), 255)),
                     Packet(CHAP, FAILURE, id, Trim(ErrorText(input.verdict, input.error), 255)));
      } else if p.phase.flight.PapFlight? {
        var no := PapAnswer(PAP_NAK, id, Trim(m, 11));
        assert no.body[1..] == Trim(m, 11);
        ConcludeSaid(auto, p, input, PapAnswer(PAP_ACK, id, []), no);
      } else {
        ConcludeSaid(auto, p, input, Packet(CHAP, SUCCESS, id, []), Packet(CHAP, FAILURE, id, Trim(m, 255)));
      }
    }
  }

  lemma CallSaid(auto: Automaton, p: Link, input: Input)
    ensures Said(input, Respond(auto, p, input).1)
  {
    match input
    case OpenLink(_) =>
      LcpEventSaid(auto, p.(lcp := p.lcp.(fsm := auto(p.lcp.fsm, Event.Open).0)), Up, input);
    case Frame(_, _) => FrameSaid(auto, p, input);
    case Timeout(owner, _) =>
      if owner.LcpTimer? {
        LcpEventSaid(auto, p, RestartTimeout, input);
      } else if p.ipcp.Some? {
        var (g, out) := auto(p.ipcp.value.fsm, RestartTimeout);
        IpcpSaid(p.(ipcp := Some(p.ipcp.value.(fsm := g))), out, input);
      }
    case AuthResult(_, _) => VerdictIsSaid(auto, p, input);
    case MsChapResult(_, _, _, _) => VerdictIsSaid(auto, p, input);
  }

  // ---------------------------------------------------------------------------
  // Numbering
  // ---------------------------------------------------------------------------

  /** Packets of a kind among those sent. */
  function ChallengesIn(ps: seq<Packet>): nat {
    if ps == [] then 0 else ChallengesIn(ps[..|ps| - 1]) + if IsChallenge(ps[|ps| - 1]) then 1 else 0
  }

  function RejectsIn(ps: seq<Packet>): nat {
    if ps == [] then 0 else RejectsIn(ps[..|ps| - 1]) + if IsProtocolReject(ps[|ps| - 1]) then 1 else 0
  }

  /** Challenges and Protocol-Rejects carry the next number of their own count. */
  ghost predicate NumberedFrom(ps: seq<Packet>, challenge: byte, reject: byte) {
    forall x <- ps :: (IsChallenge(x) ==> x.id == challenge) && (IsProtocolReject(x) ==> x.id == reject)
  }

  /** How the two counts move with the packets sent. */
  ghost predicate Moves(challenge: byte, reject: byte, ps: seq<Packet>, nextChallenge: byte, nextReject: byte) {
    && NumberedFrom(ps, challenge, reject)
    && nextChallenge == (challenge + ChallengesIn(ps)) % 256 && nextReject == (reject + RejectsIn(ps)) % 256
  }

  ghost predicate Numbered(p: Link, q: Link, ps: seq<Packet>) {
    Moves(p.chapCounter, p.extraCounter, ps, q.chapCounter, q.extraCounter)
  }

  ghost predicate Plain(ps: seq<Packet>) {
    forall x <- ps :: !IsChallenge(x) && !IsProtocolReject(x)
  }

  lemma {:induction false} PlainCounts(ps: seq<Packet>)
    requires Plain(ps)
    ensures ChallengesIn(ps) == 0 && RejectsIn(ps) == 0
  {
    if ps != [] {
      assert !IsChallenge(ps[|ps| - 1]);
      PlainCounts(ps[..|ps| - 1]);
    }
  }

  lemma LastCounts(ps: seq<Packet>, x: Packet)
    requires Plain(ps)
    ensures ChallengesIn(ps + [x]) == (if IsChallenge(x) then 1 else 0) && RejectsIn(ps + [x]) == (if IsProtocolReject(x) then 1 else 0)
  {
    assert (ps + [x])[..|ps|] == ps;
    PlainCounts(ps);
  }

  lemma PlainMoves(challenge: byte, reject: byte, ps: seq<Packet>)
    requires Plain(ps)
    ensures Moves(challenge, reject, ps, challenge, reject)
  {
    PlainCounts(ps);
  }

  lemma LastMoves(challenge: byte, reject: byte, ps: seq<Packet>, x: Packet)
    requires Plain(ps)
    ensures IsChallenge(x) && x.id == challenge ==> Moves(challenge, reject, ps + [x], (challenge + 1) % 256, reject)
    ensures IsProtocolReject(x) && x.id == reject ==> Moves(challenge, reject, ps + [x], challenge, (reject + 1) % 256)
  {
    LastCounts(ps, x);
  }

  lemma PlainNumbers(p: Link, q: Link, ps: seq<Packet>)
    requires Plain(ps) && q.chapCounter == p.chapCounter && q.extraCounter == p.extraCounter
    ensures Numbered(p, q, ps)
  {
    PlainMoves(p.chapCounter, p.extraCounter, ps);
  }

  lemma SendsPlain(lcp: Lcp, out: StepOut)
    ensures Plain(SendsOf(lcp, out).1)
  {
    var l1 := RenderLcpSend(lcp, out.send).0;
    assert Plain(RenderLcpSend(lcp, out.send).1) && Plain(RenderLcpSend(l1, out.extra).1);
  }

  /** What an LCP step sends behind a verdict packet, if there is one. */
  lemma LcpNumbers(p: Link, out: StepOut, nonce: Nonce, first: seq<Packet>)
    requires Plain(first)
    ensures var (q, r) := RenderLcp(p, out, nonce); Numbered(p, q, first + r.packets) && Numbered(p, q, r.packets)
  {
    SendsPlain(p.lcp, out);
    var sends := SendsOf(p.lcp, out).1;
    if Challenges(p, out) {
      var c := ChallengePacket(p.chapCounter, nonce);
      Assoc(first, sends, [c]);
      LastMoves(p.chapCounter, p.extraCounter, first + sends, c);
      LastMoves(p.chapCounter, p.extraCounter, sends, c);
    } else {
      assert sends + [] == sends;
      PlainMoves(p.chapCounter, p.extraCounter, first + sends);
      PlainMoves(p.chapCounter, p.extraCounter, sends);
    }
  }

  lemma LcpEventNumbers(auto: Automaton, p: Link, event: Event, nonce: Nonce, first: seq<Packet>)
    requires Plain(first)
    ensures var (q, r) := LcpEvent(auto, p, event, nonce); Numbered(p, q, first + r.packets) && Numbered(p, q, r.packets)
  {
    var (f, out) := auto(p.lcp.fsm, event);
    LcpNumbers(p.(lcp := p.lcp.(fsm := f)), out, nonce, first);
  }

  lemma IpcpPlain(p: Link, out: StepOut)
    requires p.ipcp.Some?
    ensures var (q, r) := RenderIpcp(p, out);
      Plain(r.packets) && q.chapCounter == p.chapCounter && q.extraCounter == p.extraCounter
  {
    var i1 := RenderIpcpSend(p.ipcp.value, out.send).0;
    assert Plain(RenderIpcpSend(p.ipcp.value, out.send).1) && Plain(RenderIpcpSend(i1, out.extra).1);
  }

  lemma IpcpEventNumbers(auto: Automaton, p: Link, event: Event)
    requires p.ipcp.Some?
    ensures var (q, r) := IpcpEvent(auto, p, event); Numbered(p, q, r.packets)
  {
    var (f, out) := auto(p.ipcp.value.fsm, event);
    var p1 := p.(ipcp := Some(p.ipcp.value.(fsm := f)));
    IpcpPlain(p1, out);
    var (q, r) := RenderIpcp(p1, out);
    PlainNumbers(p, q, r.packets);
  }

  lemma ConcludeNumbers(auto: Automaton, p: Link, v: Verdict, yes: Packet, no: Packet, nonce: Nonce)
    requires Plain([yes]) && Plain([no])
    ensures var (q, r) := Conclude(auto, p, v, yes, no, nonce); Numbered(p, q, r.packets)
  {
    if v.Accept? {
      var merged := MergeMtu(v.addrs, p.lcp.peerMru);
      var (ipcp, out) := NewIpcp(auto, merged, p.localIp);
      var p1 := p.(pendingAddrs := Some(merged), phase := Network, ipcp := Some(ipcp));
      IpcpPlain(p1, out);
      var (q, r) := RenderIpcp(p1, out);
      PlainNumbers(p, q, [yes] + r.packets);
    } else {
      LcpEventNumbers(auto, p, Close, nonce, [no]);
    }
  }

  lemma SameCounts(p: Link, p1: Link, q: Link, ps: seq<Packet>)
    requires Numbered(p1, q, ps) && p1.chapCounter == p.chapCounter && p1.extraCounter == p.extraCounter
    ensures Numbered(p, q, ps)
  {
  }

  lemma LcpFrameNumbers(auto: Automaton, p: Link, info: seq<byte>, nonce: Nonce)
    ensures var (q, r) := HandleLcp(auto, p, info, nonce); Numbered(p, q, r.packets)
  {
    if DecodePacket(info).Some? {
      var (l, event) := LcpReceives(p.lcp, DecodePacket(info).value);
      var p1 := p.(lcp := l);
      LcpEventNumbers(auto, p1, event, nonce, []);
      var (q, r) := LcpEvent(auto, p1, event, nonce);
      SameCounts(p, p1, q, r.packets);
    } else {
      PlainNumbers(p, p, []);
    }
  }

  lemma IpcpFrameNumbers(auto: Automaton, p: Link, info: seq<byte>)
    ensures var (q, r) := HandleIpcp(auto, p, info); Numbered(p, q, r.packets)
  {
    if p.ipcp.Some? && DecodePacket(info).Some? {
      var (i, event) := IpcpReceives(p.ipcp.value, DecodePacket(info).value);
      var p1 := p.(ipcp := Some(i));
      IpcpEventNumbers(auto, p1, event);
      var (q, r) := IpcpEvent(auto, p1, event);
      SameCounts(p, p1, q, r.packets);
    } else {
      PlainNumbers(p, p, []);
    }
  }

  lemma OneReject(challenge: byte, reject: byte, x: Packet)
    requires IsProtocolReject(x) && x.id == reject
    ensures Moves(challenge, reject, [x], challenge, (reject + 1) % 256)
  {
    assert [x] == [] + [x];
    LastMoves(challenge, reject, [], x);
  }

  lemma RejectNumbers(p: Link, protocol: nat, info: seq<byte>)
    ensures var (q, r) := ProtocolReject(p, protocol, info); Numbered(p, q, r.packets)
  {
    if p.lcp.isOpen {
      OneReject(p.chapCounter, p.extraCounter, ProtocolReject(p, protocol, info).1.packets[0]);
    } else {
      PlainNumbers(p, p, []);
    }
  }

  lemma AuthFrameNumbers(p: Link, info: seq<byte>)
    ensures var (q, r) := HandlePap(p, info); Numbered(p, q, r.packets)
    ensures var (q, r) := HandleChap(p, info); Numbered(p, q, r.packets)
  {
    PlainNumbers(p, HandlePap(p, info).0, []);
    PlainNumbers(p, HandleChap(p, info).0, []);
  }

  lemma FrameNumbers(auto: Automaton, p: Link, payload: seq<byte>, nonce: Nonce)
    ensures var (q, r) := OnFrame(auto, p, payload, nonce); Numbered(p, q, r.packets)
  {
    PlainNumbers(p, p, []);
    match DecodeFrame(payload)
    case None =>
    case Some(f) =>
      if f.protocol == LCP {
        LcpFrameNumbers(auto, p, f.info, nonce);
      } else if f.protocol == IPCP {
        IpcpFrameNumbers(auto, p, f.info);
      } else if f.protocol == PAP || f.protocol == CHAP {
        AuthFrameNumbers(p, f.info);
      } else {
        RejectNumbers(p, f.protocol, f.info);
      }
  }

  lemma VerdictNumbers(auto: Automaton, p: Link, input: Input)
    requires IsVerdict(input)
    ensures var (q, r) := Respond(auto, p, input); Numbered(p, q, r.packets)
  {
    if !Awaited(p, input) {
      PlainNumbers(p, p, []);
      return;
    }
    var v, n, id := input.verdict, input.nonce, p.phase.flight.id;
    if input.AuthResult? {
      ConcludeNumbers(auto, p, v, PapAnswer(PAP_ACK, id, []), PapAnswer(PAP_NAK, id, Trim(Message(v), 11)), n);
      ConcludeNumbers(auto, p, v, Packet(CHAP, SUCCESS, id, []), Packet(CHAP, FAILURE, id, Trim(Message(v), 255)), n);
    } else {
      ConcludeNumbers(auto, p, v, Packet(CHAP, SUCCESS, id, Trim(OrEmpty(input.response), 255)),
                      Packet(CHAP, FAILURE, id, Trim(ErrorText(v, input.error), 255)), n);
    }
  }

  lemma TimeoutNumbers(auto: Automaton, p: Link, owner: Owner, nonce: Nonce)
    ensures var (q, r) := OnTimer(auto, p, owner, nonce); Numbered(p, q, r.packets)
  {
    if owner.LcpTimer? {
      LcpEventNumbers(auto, p, RestartTimeout, nonce, []);
    } else if p.ipcp.Some? {
      IpcpEventNumbers(auto, p, RestartTimeout);
    } else {
      PlainNumbers(p, p, []);
    }
  }

  lemma CallNumbers(auto: Automaton, p: Link, input: Input)
    ensures var (q, r) := Respond(auto, p, input); Numbered(p, q, r.packets)
  {
    match input
    case OpenLink(n) =>
      var p1 := p.(lcp := p.lcp.(fsm := auto(p.lcp.fsm, Event.Open).0));
      LcpEventNumbers(auto, p1, Up, n, []);
      var (q, r) := LcpEvent(auto, p1, Up, n);
      SameCounts(p, p1, q, r.packets);
    case Frame(payload, n) => FrameNumbers(auto, p, payload, n);
    case Timeout(owner, n) => TimeoutNumbers(auto, p, owner, n);
    case AuthResult(_, _) => VerdictNumbers(auto, p, input);
    case MsChapResult(_, _, _, _) => VerdictNumbers(auto, p, input);
  }

  // ---------------------------------------------------------------------------
  // When it says anything
  // ---------------------------------------------------------------------------

  /** Credentials are looked at only while authenticating, IPCP only in the network phase,
      and an unknown protocol is rejected exactly while LCP is open. */
  lemma OnlyInItsPhase(auto: Automaton, p: Link, input: Input)
    requires input.Frame? && DecodeFrame(input.payload).Some?
    ensures var f, r := DecodeFrame(input.payload).value, Respond(auto, p, input).1;
      && (f.protocol == 0xC023 || f.protocol == 0xC223 ==> r.packets == [] && (r.event.Some? ==> p.phase.AuthPending? || p.phase.AuthInFlight?))
      && (r.event.Some? && r.event.value.NeedChapAuth? ==> p.lcp.authMethod.UseChapMd5?)
      && (r.event.Some? && r.event.value.NeedMsChapV2Auth? ==> p.lcp.authMethod.UseMsChapV2?)
      && (f.protocol == 0x8021 && r != SILENT ==> p.phase.Network?)
      && (IsUnknown(f) ==> if p.lcp.isOpen then |r.packets| == 1 && IsProtocolReject(r.packets[0]) else r == SILENT)
  {
    var f := DecodeFrame(input.payload).value;
    if f.protocol == CHAP {
      ChapSaid(p, f);
    } else if f.protocol == LCP && DecodePacket(f.info).Some? {
      var (l, event) := LcpReceives(p.lcp, DecodePacket(f.info).value);
      LcpEventSaid(auto, p.(lcp := l), event, input);
    } else if IsUnknown(f) {
      RejectedSaid(p, input);
    }
  }

  /** The comment on `handle_chap` has a peer's Challenge dropped. It is taken for a Response:
      with the right size, either code raises the event. */
  lemma ChallengeTakenForResponse(p: Link, code: byte, id: byte, value: seq<byte>, name: seq<byte>)
    requires code == 1 || code == 2
    requires p.lcp.authMethod.UseChapMd5? && p.challenge.Some? && |value| == 16 && |name| < 256
    ensures HandleChap(p, Envelope(ChapValuePacket(code, id, value, name))).1.event
      == Some(NeedChapAuth(name, id, p.challenge.value, value))
  {
    ChapReadsBack(code, id, value, name);
  }
}
