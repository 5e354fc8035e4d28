/** The driver with its own automaton against a cooperative peer, move by move: the peer
    asks, retransmits, revises, acknowledges every copy of the server's requests and repeats
    its credentials in any order it likes, the server's timer fires in between, and whatever lists it starts from and whichever method it
    authenticates by, the network comes up. */
module PppHandshake {
  import opened Bytes
  import opened Fsm
  import opened PppCodec
  import opened PppOptions
  import opened IpcpVerdict
  import opened PppModel
  import PppFrames
  import opened PppPeer

  // ---------------------------------------------------------------------------
  // Authentication
  // ---------------------------------------------------------------------------

  /** What a peer authenticates with. */
  datatype Credentials =
    | ByPap(request: PapRequest)
    | ByChap(id: byte, response: seq<byte>, name: seq<byte>)
    | ByMsChap(id: byte, response: seq<byte>, name: seq<byte>)

  predicate Proper(c: Credentials) {
    match c
    case ByPap(r) => |r.peerId| < 256 && |r.password| < 256
    case ByChap(_, response, name) => |response| == 16 && |name| < 256
    case ByMsChap(_, response, name) => MsChapShape(response) && |name| < 256
  }

  function MethodOf(c: Credentials): AuthMethod {
    match c
    case ByPap(_) => UsePap
    case ByChap(_, _, _) => UseChapMd5
    case ByMsChap(_, _, _) => UseMsChapV2
  }

  function Presents(c: Credentials): Packet {
    match c
    case ByPap(r) => PapRequestPacket(r)
    case ByChap(id, response, name) => ChapValuePacket(2, id, response, name)
    case ByMsChap(id, response, name) => ChapValuePacket(2, id, response, name)
  }

  /** The verdict as the session hands it over. */
  function Accepting(m: AuthMethod, addrs: Addrs, response: Option<seq<byte>>, error: Option<seq<byte>>, nonce: Nonce): Input {
    if m.UseMsChapV2? then MsChapResult(Accept(addrs), response, error, nonce) else AuthResult(Accept(addrs), nonce)
  }

  predicate InFlightFor(phase: Phase, m: AuthMethod) {
    && phase.AuthInFlight?
    && (match m
        case UsePap => phase.flight.PapFlight?
        case UseChapMd5 => phase.flight.ChapFlight?
        case UseMsChapV2 => phase.flight.MsChapFlight?)
  }

  /** The credentials are put to the authentication server, and nothing else happens. */
  ghost predicate Asks(p: Link, c: Credentials, nonce: Nonce) {
    var (q, r) := Respond(Step, p, Says(Presents(c), nonce));
    && q == p.(phase := q.phase) && InFlightFor(q.phase, MethodOf(c))
    && r.event.Some? && !r.event.value.NetworkUp? && r == Reply([], [], [], r.event, false)
  }

  lemma PapReads(p: Link, r: PapRequest, nonce: Nonce)
    requires Authenticating(p.phase) && Proper(ByPap(r))
    ensures var x := PapRequestPacket(r);
      Respond(Step, p, Says(x, nonce)) == HandlePap(p, Envelope(x)) && DecodePap(Envelope(x)) == Some(r)
  {
    WireReadsBack(PapRequestPacket(r));
    PapReadsBack(r);
  }

  lemma PapAsks(p: Link, r: PapRequest, nonce: Nonce)
    requires Authenticating(p.phase) && Proper(ByPap(r))
    ensures Asks(p, ByPap(r), nonce)
  {
    PapReads(p, r, nonce);
  }

  lemma ChapReads(p: Link, id: byte, response: seq<byte>, name: seq<byte>, nonce: Nonce)
    requires Authenticating(p.phase) && |response| < 256 && |name| < 256
    ensures var x := ChapValuePacket(2, id, response, name);
      && Respond(Step, p, Says(x, nonce)) == HandleChap(p, Envelope(x))
      && DecodeChap(Envelope(x)) == Some(ChapValue(id, response, name))
  {
    WireReadsBack(ChapValuePacket(2, id, response, name));
    ChapReadsBack(2, id, response, name);
  }

  /** The server authenticates by this method and has sent what that takes. */
  predicate Challenged(p: Link, m: AuthMethod) {
    p.lcp.authMethod == m && (m.UsePap? || p.challenge.Some?)
  }

  lemma Authenticates(p: Link, c: Credentials, nonce: Nonce)
    requires Authenticating(p.phase) && Proper(c) && Challenged(p, MethodOf(c))
    ensures Asks(p, c, nonce)
  {
    match c
    case ByPap(r) => PapAsks(p, r, nonce);
    case ByChap(id, response, name) => ChapReads(p, id, response, name, nonce);
    case ByMsChap(id, response, name) => ChapReads(p, id, response, name, nonce);
  }

  /** Credentials that come again once the network phase is entered. */
  lemma TooLate(p: Link, c: Credentials, nonce: Nonce)
    requires p.phase.Network? && Proper(c)
    ensures Respond(Step, p, Says(Presents(c), nonce)) == (p, SILENT)
  {
    WireReadsBack(Presents(c));
  }

  lemma Advanced(p: Link, addrs: Addrs)
    ensures var (q, r) := AdvanceToNetwork(Step, p, addrs);
      && q.lcp == p.lcp && IpcpShape(q, Side([], None, false, true, 0), MergeMtu(addrs, p.lcp.peerMru))
      && |r.packets| == 1 && r.packets[0].protocol == IPCP && r.packets[0].code == 1 && |r.packets[0].body| == 6
      && r == Reply(r.packets, [IpcpTimer], [], None, false)
  {
    OpenUp();
    var merged := MergeMtu(addrs, p.lcp.peerMru);
    var (ipcp, out) := NewIpcp(Step, merged, p.localIp);
    IpcpRendered(p.(pendingAddrs := Some(merged), phase := Network, ipcp := Some(ipcp)), out, false);
  }

  /** An accepted peer gets its answer and the server's IPCP request. */
  lemma Accepted(p: Link, m: AuthMethod, addrs: Addrs, response: Option<seq<byte>>, error: Option<seq<byte>>, nonce: Nonce)
    requires InFlightFor(p.phase, m)
    ensures var (q, r) := Respond(Step, p, Accepting(m, addrs, response, error, nonce));
      && q.lcp == p.lcp && IpcpShape(q, Side([], None, false, true, 0), MergeMtu(addrs, p.lcp.peerMru))
      && |r.packets| == 2 && (r.packets[0].protocol == PAP || r.packets[0].protocol == CHAP) && |r.packets[0].body| < 256
      && r.packets[1].protocol == IPCP && r.packets[1].code == 1 && |r.packets[1].body| == 6
      && r == Reply(r.packets, [IpcpTimer], [], None, false)
  {
    Advanced(p, addrs);
  }

  // ---------------------------------------------------------------------------
  // The conversation
  // ---------------------------------------------------------------------------

  /** What the peer brings along, and the addresses it will be given. */
  datatype Plan = Plan(credentials: Credentials, addrs: Addrs, lcpList: seq<Opt>, ipcpList: seq<Opt>)

  /** Every list is well formed, and it, the answers to it and its revisions fit one packet. */
  ghost predicate Fitting(plan: Plan) {
    && Proper(plan.credentials) && LcpFits(plan.lcpList)
    && AllEncodable(plan.ipcpList) && IpcpFits(plan.addrs, plan.ipcpList, 2)
  }

  /** The link and the peer's two layers, how far authentication has got, the networks
      reported up, and whether every frame so far fitted the session's buffer. */
  datatype Talk = Talk(p: Link, lcp: Side, ipcp: Side, presented: bool, admitted: bool, ups: seq<Addrs>, fits: bool)

  datatype Stage = OnLcp | OnAuth | OnVerdict | OnIpcp

  function StageOf(t: Talk): Stage {
    if !IsOpen(t.lcp) then OnLcp else if !t.presented then OnAuth else if !t.admitted then OnVerdict else OnIpcp
  }

  datatype Move =
    | Ask(id: byte, nonce: Nonce)                                              // ask for the current list, or again
    | Revise                                                                   // act on the last refusal
    | Confirm(id: byte, body: seq<byte>, nonce: Nonce)                         // acknowledge a request of the server, or again
    | Tick(nonce: Nonce)                                                       // the server's restart timer fires
    | Present(nonce: Nonce)                                                    // send the credentials, or again
    | Admit(response: Option<seq<byte>>, error: Option<seq<byte>>, nonce: Nonce)  // the verdict comes back

  function Unasked(list: seq<Opt>): Side {
    Side(list, None, false, false, 0)
  }

  function Active(t: Talk): Side {
    if StageOf(t).OnLcp? then t.lcp else t.ipcp
  }

  function WithActive(t: Talk, s: Side): Talk {
    if StageOf(t).OnLcp? then t.(lcp := s) else t.(ipcp := s)
  }

  predicate Negotiates(t: Talk) {
    StageOf(t).OnLcp? || StageOf(t).OnIpcp?
  }

  /** Timeouts the layer in turn has left before it gives up. */
  function Restarts(t: Talk): nat {
    if StageOf(t).OnLcp? then t.p.lcp.fsm.restart
    else if t.p.ipcp.Some? then t.p.ipcp.value.fsm.restart
    else 0
  }

  /** The peer asks and acknowledges until its layer is open, and sends its credentials
      once LCP is. */
  predicate Legal(t: Talk, move: Move) {
    match move
    case Ask(_, _) => Negotiates(t) && !IsOpen(Active(t))
    case Revise => Negotiates(t) && Active(t).refusal.Some?
    case Confirm(_, body, _) => Negotiates(t) && !IsOpen(Active(t)) && |body| <= PppFrames.MAX_BODY
    case Tick(_) => Negotiates(t) && Active(t).owes && Restarts(t) > 0
    case Present(_) => !StageOf(t).OnLcp?
    case Admit(_, _, _) => StageOf(t).OnVerdict?
  }

  /** The call a move makes on the driver. */
  function Calls(t: Talk, plan: Plan, move: Move): Input
    requires !move.Revise?
  {
    var protocol := if StageOf(t).OnLcp? then LCP else IPCP;
    match move
    case Ask(id, n) => Says(Asking(protocol, id, Active(t).list), n)
    case Confirm(id, body, n) => Says(Packet(protocol, 2, id, body), n)
    case Tick(n) => Timeout(if StageOf(t).OnLcp? then LcpTimer else IpcpTimer, n)
    case Present(n) => Says(Presents(plan.credentials), n)
    case Admit(response, error, n) => Accepting(MethodOf(plan.credentials), plan.addrs, response, error, n)
  }

  /** The peer's own part of a move. */
  function Moves(t: Talk, move: Move): Talk {
    match move
    case Revise => if Active(t).refusal.Some? then WithActive(t, Revised(Active(t))) else t
    case Confirm(_, _, _) => WithActive(t, Active(t).(owes := false))
    case Present(_) => t.(presented := true)
    case Admit(_, _, _) => t.(admitted := true)
    case _ => t
  }

  function UpsIn(event: Option<PppEvent>): seq<Addrs> {
    if event.Some? && event.value.NetworkUp? then [event.value.addrs] else []
  }

  /** The answer as the peer takes it. */
  ghost function Takes(t: Talk, q: Link, r: Reply): Talk {
    t.(p := q, lcp := Hear(t.lcp, LCP, r.packets), ipcp := Hear(t.ipcp, IPCP, r.packets),
       ups := t.ups + UpsIn(r.event), fits := t.fits && Fit(r.packets))
  }

  ghost function Advance(t: Talk, plan: Plan, move: Move): Talk {
    if move.Revise? then Moves(t, move)
    else
      var (q, r) := Respond(Step, t.p, Calls(t, plan, move));
      Takes(Moves(t, move), q, r)
  }

  ghost function Begins(localIp: Ipv4, plan: Plan, nonce: Nonce): Talk {
    var (q, r) := Respond(Step, NewLink(localIp, MethodOf(plan.credentials)), OpenLink(nonce));
    Takes(Talk(q, Unasked(plan.lcpList), Unasked(plan.ipcpList), false, false, [], true), q, r)
  }

  ghost predicate Reaches(plan: Plan, t: Talk, moves: seq<Move>, u: Talk)
    decreases |moves|
  {
    if moves == [] then t == u else Legal(t, moves[0]) && Reaches(plan, Advance(t, plan, moves[0]), moves[1..], u)
  }

  // ---------------------------------------------------------------------------
  // Progress
  // ---------------------------------------------------------------------------

  /** Moves that get on: not a repetition, not a timeout. */
  predicate Useful(t: Talk, move: Move) {
    match move
    case Ask(_, _) => !Active(t).acked && Active(t).refusal.None?
    case Confirm(_, _, _) => Active(t).owes
    case Present(_) => StageOf(t).OnAuth?
    case Tick(_) => false
    case _ => true
  }

  function Weight(t: Talk, move: Move): nat {
    if Useful(t, move) then 1 else 0
  }

  /** An Ack that nothing is owed for makes the server ask once more. */
  function Detour(t: Talk, move: Move): nat {
    if move.Confirm? && !Active(t).owes then 1 else 0
  }

  /** Useful moves left in one layer, when at most `max` revisions are needed. */
  function ToGo(s: Side, max: nat): nat {
    var left := 2 * Saturating(max, s.revisions);
    (if s.owes then 1 else 0) + if s.acked then 0 else if s.refusal.Some? then left else 1 + left
  }

  const AT_MOST: nat := 12

  function Remaining(t: Talk): nat {
    match StageOf(t)
    case OnLcp => ToGo(t.lcp, 1) + 8
    case OnAuth => 8
    case OnVerdict => 7
    case OnIpcp => ToGo(t.ipcp, 2)
  }

  ghost function UsefulMoves(plan: Plan, t: Talk, moves: seq<Move>): nat
    decreases |moves|
  {
    if moves == [] then 0 else Weight(t, moves[0]) + UsefulMoves(plan, Advance(t, plan, moves[0]), moves[1..])
  }

  ghost function Detours(plan: Plan, t: Talk, moves: seq<Move>): nat
    decreases |moves|
  {
    if moves == [] then 0 else Detour(t, moves[0]) + Detours(plan, Advance(t, plan, moves[0]), moves[1..])
  }

  /** The network is up. */
  predicate Done(t: Talk) {
    StageOf(t).OnIpcp? && IsOpen(t.ipcp)
  }

  /** A useful move for a conversation that is not done. */
  function Next(t: Talk, nonce: Nonce): Move {
    if StageOf(t).OnAuth? then Present(nonce)
    else if StageOf(t).OnVerdict? then Admit(None, None, nonce)
    else if Active(t).owes then Confirm(0, [], nonce)
    else if Active(t).refusal.Some? then Revise
    else Ask(0, nonce)
  }

  // ---------------------------------------------------------------------------
  // The invariant
  // ---------------------------------------------------------------------------

  function Merged(t: Talk, plan: Plan): Addrs {
    MergeMtu(plan.addrs, t.p.lcp.peerMru)
  }

  /** The sides agree, the network was reported exactly when done, and every frame fitted. */
  ghost predicate Agrees(t: Talk, plan: Plan) {
    var m := MethodOf(plan.credentials);
    && t.fits
    && match StageOf(t)
       case OnLcp => LcpAgrees(t.p, t.lcp, m) && t.ipcp == Unasked(plan.ipcpList) && t.ups == [] && !t.presented && !t.admitted
       case OnAuth => LcpAgrees(t.p, t.lcp, m) && t.ipcp == Unasked(plan.ipcpList) && t.ups == [] && !t.admitted
       case OnVerdict => InFlightFor(t.p.phase, m) && Challenged(t.p, m) && t.ipcp == Unasked(plan.ipcpList) && t.ups == []
       case OnIpcp => IpcpAgrees(t.p, t.ipcp, Merged(t, plan)) && t.ups == if IsOpen(t.ipcp) then [Merged(t, plan)] else []
  }

  /** What is to be shown of a move. */
  ghost predicate GetsOn(t: Talk, plan: Plan, move: Move) {
    var u := Advance(t, plan, move);
    Agrees(u, plan) && Remaining(u) + Weight(t, move) <= Remaining(t) + Detour(t, move)
  }

  lemma LcpAdvances(t: Talk, plan: Plan, move: Move, s: Side, h: Side, q: Link, r: Reply)
    requires !move.Revise? && Moves(t, move) == t.(lcp := s) && t.fits
    requires Respond(Step, t.p, Calls(t, plan, move)) == (q, r)
    requires h == Hear(s, LCP, r.packets) && Fit(r.packets) && r.event.None? && NoneOf(IPCP, r.packets)
    ensures Advance(t, plan, move) == t.(p := q, lcp := h)
  {
    HearOthers(t.ipcp, IPCP, r.packets);
    assert t.ups + [] == t.ups;
  }

  /** LCP moves, given the peer's LCP side before and after the answer. */
  lemma LcpGetsOn(t: Talk, plan: Plan, move: Move, s: Side, h: Side)
    requires Agrees(t, plan) && StageOf(t).OnLcp? && !move.Revise? && Moves(t, move) == t.(lcp := s)
    requires LcpSettles(t.p, s, MethodOf(plan.credentials), Calls(t, plan, move), h)
    requires ToGo(h, 1) + Weight(t, move) <= ToGo(t.lcp, 1) + Detour(t, move)
    ensures GetsOn(t, plan, move)
  {
    var (q, r) := Respond(Step, t.p, Calls(t, plan, move));
    LcpAdvances(t, plan, move, s, h, q, r);
  }

  /** Asking brings an answer: a step on, unless it is a retransmission. */
  lemma AskedToGo(s: Side, h: Side, max: nat)
    requires h == s.(acked := h.acked, refusal := h.refusal) && (h.acked || h.refusal.Some?) && (s.acked ==> h.acked)
    ensures ToGo(h, max) + (if !s.acked && s.refusal.None? then 1 else 0) <= ToGo(s, max)
  {
  }

  lemma RevisedToGo(s: Side, max: nat)
    requires s.refusal.Some? && !s.acked && s.revisions < max
    ensures ToGo(Revised(s), max) + 1 == ToGo(s, max)
  {
  }

  lemma LcpAskMove(t: Talk, plan: Plan, id: byte, n: Nonce)
    requires Agrees(t, plan) && StageOf(t).OnLcp?
    ensures GetsOn(t, plan, Ask(id, n))
  {
    var h := LcpAsked(t.p, t.lcp, MethodOf(plan.credentials), id, n);
    AskedToGo(t.lcp, h, 1);
    LcpGetsOn(t, plan, Ask(id, n), t.lcp, h);
  }

  lemma LcpConfirmMove(t: Talk, plan: Plan, id: byte, body: seq<byte>, n: Nonce)
    requires Agrees(t, plan) && StageOf(t).OnLcp? && |body| <= PppFrames.MAX_BODY
    ensures GetsOn(t, plan, Confirm(id, body, n))
  {
    var s := t.lcp.(owes := false);
    if t.lcp.owes {
      LcpConfirmed(t.p, t.lcp, MethodOf(plan.credentials), id, body, n);
      LcpGetsOn(t, plan, Confirm(id, body, n), s, s);
    } else {
      assert s == t.lcp;
      LcpReconfirmed(t.p, t.lcp, MethodOf(plan.credentials), id, body, n);
      LcpGetsOn(t, plan, Confirm(id, body, n), s, s.(owes := true));
    }
  }

  lemma LcpTickMove(t: Talk, plan: Plan, n: Nonce)
    requires Agrees(t, plan) && StageOf(t).OnLcp? && t.lcp.owes && t.p.lcp.fsm.restart > 0
    ensures GetsOn(t, plan, Tick(n))
  {
    LcpTicked(t.p, t.lcp, MethodOf(plan.credentials), n);
    LcpGetsOn(t, plan, Tick(n), t.lcp, t.lcp);
  }

  lemma LcpReviseMove(t: Talk, plan: Plan)
    requires Agrees(t, plan) && StageOf(t).OnLcp? && t.lcp.refusal.Some?
    ensures GetsOn(t, plan, Revise)
  {
    LcpRevised(t.p, t.lcp, MethodOf(plan.credentials));
  }

  lemma LcpMoves(t: Talk, plan: Plan, move: Move)
    requires Agrees(t, plan) && StageOf(t).OnLcp? && Legal(t, move)
    ensures GetsOn(t, plan, move)
  {
    match move
    case Ask(id, n) => LcpAskMove(t, plan, id, n);
    case Revise => LcpReviseMove(t, plan);
    case Confirm(id, body, n) => LcpConfirmMove(t, plan, id, body, n);
    case Tick(n) => LcpTickMove(t, plan, n);
  }

  lemma IpcpAdvances(t: Talk, plan: Plan, move: Move, s: Side, h: Side)
    requires StageOf(t).OnIpcp? && !move.Revise? && Moves(t, move) == t.(ipcp := s) && t.fits && t.ups == []
    requires IpcpInStep(t.p, s, Merged(t, plan), Calls(t, plan, move), h)
    ensures var q := Respond(Step, t.p, Calls(t, plan, move)).0;
      Advance(t, plan, move) == t.(p := q, ipcp := h, ups := if IsOpen(h) then [Merged(t, plan)] else [])
  {
    var (q, r) := Respond(Step, t.p, Calls(t, plan, move));
    HearOthers(t.lcp, LCP, r.packets);
    var ups := if IsOpen(h) then [Merged(t, plan)] else [];
    assert [] + ups == ups;
  }

  lemma IpcpGetsOn(t: Talk, plan: Plan, move: Move, s: Side, h: Side)
    requires Agrees(t, plan) && StageOf(t).OnIpcp? && !IsOpen(t.ipcp) && !move.Revise? && Moves(t, move) == t.(ipcp := s)
    requires IpcpSettles(t.p, s, Merged(t, plan), Calls(t, plan, move), h)
    requires ToGo(h, 2) + Weight(t, move) <= ToGo(t.ipcp, 2) + Detour(t, move)
    ensures GetsOn(t, plan, move)
  {
    IpcpAdvances(t, plan, move, s, h);
  }

  lemma IpcpAskMove(t: Talk, plan: Plan, id: byte, n: Nonce)
    requires Agrees(t, plan) && StageOf(t).OnIpcp? && !IsOpen(t.ipcp)
    ensures GetsOn(t, plan, Ask(id, n))
  {
    var h := IpcpAsked(t.p, t.ipcp, Merged(t, plan), id, n);
    AskedToGo(t.ipcp, h, 2);
    IpcpGetsOn(t, plan, Ask(id, n), t.ipcp, h);
  }

  lemma IpcpConfirmMove(t: Talk, plan: Plan, id: byte, body: seq<byte>, n: Nonce)
    requires Agrees(t, plan) && StageOf(t).OnIpcp? && !IsOpen(t.ipcp) && |body| <= PppFrames.MAX_BODY
    ensures GetsOn(t, plan, Confirm(id, body, n))
  {
    var s := t.ipcp.(owes := false);
    if t.ipcp.owes {
      IpcpConfirmed(t.p, t.ipcp, Merged(t, plan), id, body, n);
      IpcpGetsOn(t, plan, Confirm(id, body, n), s, s);
    } else {
      assert s == t.ipcp;
      IpcpReconfirmed(t.p, t.ipcp, Merged(t, plan), id, body, n);
      IpcpGetsOn(t, plan, Confirm(id, body, n), s, s.(owes := true));
    }
  }

  lemma IpcpTickMove(t: Talk, plan: Plan, n: Nonce)
    requires Agrees(t, plan) && StageOf(t).OnIpcp? && t.ipcp.owes && Restarts(t) > 0
    ensures GetsOn(t, plan, Tick(n))
  {
    IpcpTicked(t.p, t.ipcp, Merged(t, plan), n);
    IpcpGetsOn(t, plan, Tick(n), t.ipcp, t.ipcp);
  }

  lemma IpcpReviseMove(t: Talk, plan: Plan)
    requires Agrees(t, plan) && StageOf(t).OnIpcp? && t.ipcp.refusal.Some?
    ensures GetsOn(t, plan, Revise)
  {
    IpcpRevised(t.p, t.ipcp, Merged(t, plan));
    var h := Revised(t.ipcp);
    assert Advance(t, plan, Revise) == t.(ipcp := h);
    RevisedToGo(t.ipcp, 2);
  }

  lemma IpcpMoves(t: Talk, plan: Plan, move: Move)
    requires Proper(plan.credentials) && Agrees(t, plan) && StageOf(t).OnIpcp? && Legal(t, move)
    ensures GetsOn(t, plan, move)
  {
    match move
    case Ask(id, n) => IpcpAskMove(t, plan, id, n);
    case Revise => IpcpReviseMove(t, plan);
    case Confirm(id, body, n) => IpcpConfirmMove(t, plan, id, body, n);
    case Tick(n) => IpcpTickMove(t, plan, n);
    case Present(n) => LatePresentMove(t, plan, n);
  }

  lemma LatePresentMove(t: Talk, plan: Plan, n: Nonce)
    requires Proper(plan.credentials) && Agrees(t, plan) && StageOf(t).OnIpcp?
    ensures GetsOn(t, plan, Present(n))
  {
    TooLate(t.p, plan.credentials, n);
    SilentTaken(t, plan, n);
    SameGetsOn(t, plan, Present(n));
  }

  lemma SameGetsOn(t: Talk, plan: Plan, move: Move)
    requires Agrees(t, plan) && Advance(t, plan, move) == t && !Useful(t, move)
    ensures GetsOn(t, plan, move)
  {
  }

  lemma SilentTaken(t: Talk, plan: Plan, n: Nonce)
    requires t.presented && t.fits && Respond(Step, t.p, Calls(t, plan, Present(n))) == (t.p, SILENT)
    ensures Advance(t, plan, Present(n)) == t
  {
    HearOthers(t.lcp, LCP, []);
    HearOthers(t.ipcp, IPCP, []);
    assert t.ups + [] == t.ups;
  }

  lemma {:induction false} SameRuling(addrs: Addrs, mtu: Option<nat>, os: seq<Opt>)
    ensures var other := addrs.(mtu := mtu);
      Rejects(other, os) == Rejects(addrs, os) && Naks(other, os) == Naks(addrs, os)
  {
    if os != [] {
      SameRuling(addrs, mtu, os[..|os| - 1]);
    }
  }

  lemma {:induction false} FitsAnyMtu(addrs: Addrs, mtu: Option<nat>, os: seq<Opt>, revisions: nat)
    requires IpcpFits(addrs, os, revisions)
    ensures IpcpFits(addrs.(mtu := mtu), os, revisions)
    decreases revisions
  {
    SameRuling(addrs, mtu, ParseOptions(EncodeOptions(os)).opts);
    if revisions > 0 {
      FitsAnyMtu(addrs, mtu, PeerNext(os, Judge(addrs, EncodeOptions(os))), revisions - 1);
    }
  }

  lemma ListedAtFirst(addrs: Addrs, mru: Option<nat>, list: seq<Opt>)
    requires AllEncodable(list) && IpcpFits(addrs, list, 2)
    ensures IpcpListed(Unasked(list).(owes := true), MergeMtu(addrs, mru))
  {
    FitsAnyMtu(addrs, MergeMtu(addrs, mru).mtu, list, 2);
    assert addrs.(mtu := MergeMtu(addrs, mru).mtu) == MergeMtu(addrs, mru);
  }

  lemma PresentMoves(t: Talk, plan: Plan, move: Move)
    requires Fitting(plan) && Agrees(t, plan) && (StageOf(t).OnAuth? || StageOf(t).OnVerdict?) && move.Present?
    ensures GetsOn(t, plan, move)
  {
    Authenticates(t.p, plan.credentials, move.nonce);
    var (q, r) := Respond(Step, t.p, Calls(t, plan, move));
    assert Advance(t, plan, move) == t.(presented := true, p := q);
  }

  lemma Admits(t: Talk, plan: Plan, move: Move)
    requires StageOf(t).OnVerdict? && move.Admit? && InFlightFor(t.p.phase, MethodOf(plan.credentials)) && t.fits && t.ups == []
    ensures var q, h := Respond(Step, t.p, Calls(t, plan, move)).0, t.ipcp.(owes := true);
      && Advance(t, plan, move) == t.(admitted := true, p := q, ipcp := h) && q.lcp == t.p.lcp
      && IpcpShape(q, Side([], None, false, true, 0), Merged(t, plan))
  {
    Accepted(t.p, MethodOf(plan.credentials), plan.addrs, move.response, move.error, move.nonce);
    var (q, r) := Respond(Step, t.p, Calls(t, plan, move));
    var x, y := r.packets[0], r.packets[1];
    assert r.packets == [x, y];
    FitsIff(x);
    FitsIff(y);
    HearTwo(t.lcp, LCP, x, y);
    HearTwo(t.ipcp, IPCP, x, y);
  }

  lemma AdmitMoves(t: Talk, plan: Plan, move: Move)
    requires Fitting(plan) && Agrees(t, plan) && StageOf(t).OnVerdict? && move.Admit?
    ensures GetsOn(t, plan, move)
  {
    Admits(t, plan, move);
    ListedAtFirst(plan.addrs, t.p.lcp.peerMru, plan.ipcpList);
  }

  lemma EveryMoveGetsOn(t: Talk, plan: Plan, move: Move)
    requires Fitting(plan) && Agrees(t, plan) && Legal(t, move)
    ensures GetsOn(t, plan, move)
  {
    match StageOf(t)
    case OnLcp => LcpMoves(t, plan, move);
    case OnAuth => PresentMoves(t, plan, move);
    case OnVerdict =>
      if move.Present? {
        PresentMoves(t, plan, move);
      } else {
        AdmitMoves(t, plan, move);
      }
    case OnIpcp => IpcpMoves(t, plan, move);
  }

  lemma BeginsWell(localIp: Ipv4, plan: Plan, nonce: Nonce)
    requires Fitting(plan)
    ensures var t := Begins(localIp, plan, nonce); Agrees(t, plan) && Remaining(t) == AT_MOST
  {
    var m := MethodOf(plan.credentials);
    OpenUp();
    var f := Step(New(), Event.Open).0;
    var (g, out) := Step(f, Up);
    var p := NewLink(localIp, m);
    LcpRendered(p.(lcp := p.lcp.(fsm := g)), out, false, nonce);
    var (q, r) := Respond(Step, p, OpenLink(nonce));
    assert r.packets == [r.packets[0]];
    FitsIff(r.packets[0]);
    HearOne(Unasked(plan.lcpList), LCP, r.packets[0]);
    HearOthers(Unasked(plan.ipcpList), IPCP, r.packets);
  }

  lemma {:induction false} AgreesAlong(plan: Plan, t: Talk, moves: seq<Move>, u: Talk)
    requires Fitting(plan) && Agrees(t, plan) && Reaches(plan, t, moves, u)
    ensures Agrees(u, plan) && UsefulMoves(plan, t, moves) + Remaining(u) <= Remaining(t) + Detours(plan, t, moves)
    decreases |moves|
  {
    if moves != [] {
      EveryMoveGetsOn(t, plan, moves[0]);
      AgreesAlong(plan, Advance(t, plan, moves[0]), moves[1..], u);
    }
  }

  /** There is always a useful move until the network is up. */
  lemma NeverStuck(t: Talk, plan: Plan, nonce: Nonce)
    requires Agrees(t, plan) && !Done(t)
    ensures Legal(t, Next(t, nonce)) && Useful(t, Next(t, nonce))
  {
  }

  lemma EndsWell(plan: Plan, t: Talk, nonce: Nonce)
    requires Agrees(t, plan)
    ensures t.fits && t.ups == (if Done(t) then [Merged(t, plan)] else []) && (Remaining(t) == 0 ==> Done(t))
    ensures !Done(t) ==> Legal(t, Next(t, nonce)) && Useful(t, Next(t, nonce))
  {
    if !Done(t) {
      NeverStuck(t, plan, nonce);
    }
  }

  /** Every cooperative session comes up. In every conversation, whatever the order of its
      moves: every frame fits; the network is reported exactly when both layers are open,
      once, with the addresses granted; there are at most twelve useful moves, and one more
      for each Ack that nothing was owed for; and until the network is up one of them can
      be made. */
  lemma EveryCooperativeSessionComesUp(localIp: Ipv4, plan: Plan, nonce: Nonce, moves: seq<Move>, t: Talk)
    requires Fitting(plan) && Reaches(plan, Begins(localIp, plan, nonce), moves, t)
    ensures t.fits
    ensures t.ups == if Done(t) then [Merged(t, plan)] else []
    ensures var start := Begins(localIp, plan, nonce);
      var most := AT_MOST + Detours(plan, start, moves);
      UsefulMoves(plan, start, moves) <= most && (UsefulMoves(plan, start, moves) == most ==> Done(t))
    ensures !Done(t) ==> Legal(t, Next(t, nonce)) && Useful(t, Next(t, nonce))
  {
    BeginsWell(localIp, plan, nonce);
    AgreesAlong(plan, Begins(localIp, plan, nonce), moves, t);
    EndsWell(plan, t, nonce);
  }

  /** Beyond the bound it does not: a peer whose IPCP list is 681 or more bare IP-Address
      options, which one packet carries, gets a Nak that does not fit the buffer. */
  lemma BareListAborts(t: Talk, plan: Plan, id: byte, nonce: Nonce)
    requires StageOf(t).OnIpcp? && IpcpShape(t.p, t.ipcp, Merged(t, plan)) && !IsOpen(t.ipcp)
    requires 681 <= |t.ipcp.list| <= 2041 && forall i :: 0 <= i < |t.ipcp.list| ==> t.ipcp.list[i] == Opt(IP_ADDRESS, [])
    ensures Legal(t, Ask(id, nonce)) && !Advance(t, plan, Ask(id, nonce)).fits
  {
    var addrs, opts := Merged(t, plan), EncodeOptions(t.ipcp.list);
    BareListNak(addrs, t.ipcp.list);
    ParseEncoded(t.ipcp.list);
    var v := Judge(addrs, opts);
    IpcpAnswers(t.p, t.ipcp.acked, t.ipcp.owes, id, opts, v, nonce);
    var (q, r) := Respond(Step, t.p, Calls(t, plan, Ask(id, nonce)));
    FitsIff(r.packets[0]);
    assert r.packets[0] in r.packets;
  }
}
