/** The option-negotiation automaton (src/ppp/fsm.rs), one cell per state and event. */
module Fsm {
  import opened Bytes

  const MAX_CONFIGURE: nat := 10
  const MAX_TERMINATE: nat := 2
  const MAX_FAILURE: nat := 5

  datatype State =
    | Initial | Starting | Closed | Stopped | Closing
    | Stopping | ReqSent | AckRcvd | AckSent | Opened

  datatype Event =
    | Up | Down | Open | Close | RestartTimeout
    | RcvConfigReqGood | RcvConfigReqBad | RcvConfigAck | RcvConfigNak
    | RcvTerminateReq | RcvTerminateAck
    | RcvCodeRejPermitted | RcvCodeRejCatastrophic | RcvUnknownCode | RcvEcho

  datatype Send =
    | ConfigureRequest | ConfigureAck | ConfigureNak
    | TerminateReq | TerminateAck | CodeReject | EchoReply

  datatype Timer = Start | Stop

  datatype Notify = Notify(up: bool, down: bool, started: bool, finished: bool)

  datatype StepOut = StepOut(newState: State, send: Option<Send>, extra: Option<Send>, timer: Option<Timer>, notify: Notify)

  /** What a cell does to the restart counter before its sends are counted. */
  datatype Counter = Keep | InitConfigure | InitTerminate | Zero

  datatype Fsm = Fsm(state: State, identifier: byte, restart: nat, failure: nat)

  const QUIET := Notify(false, false, false, false)
  const UP := Notify(true, false, false, false)
  const DOWN := Notify(false, true, false, false)
  const STARTED := Notify(false, false, true, false)
  const FINISHED := Notify(false, false, false, true)

  function New(): Fsm {
    Fsm(Initial, 0, 0, 0)
  }

  function Just(s: State): (StepOut, Counter) {
    (StepOut(s, None, None, None, QUIET), Keep)
  }

  function Sends(s: State, send: Send): (StepOut, Counter) {
    (StepOut(s, Some(send), None, None, QUIET), Keep)
  }

  function Notifies(s: State, n: Notify): (StepOut, Counter) {
    (StepOut(s, None, None, None, n), Keep)
  }

  /** A Configure-Request goes out with the timer started, and a reply after it. */
  function Renegotiate(s: State, extra: Option<Send>, n: Notify, c: Counter): (StepOut, Counter) {
    (StepOut(s, Some(ConfigureRequest), extra, Some(Start), n), c)
  }

  function Terminate(s: State, n: Notify): (StepOut, Counter) {
    (StepOut(s, Some(TerminateReq), None, Some(Start), n), InitTerminate)
  }

  predicate Negotiating(s: State) {
    s.Closing? || s.Stopping? || s.ReqSent? || s.AckRcvd? || s.AckSent?
  }

  function OnLowerLayer(from: State, up: bool): (StepOut, Counter) {
    if up then
      match from
      case Initial => Just(Closed)
      case Starting => Renegotiate(ReqSent, None, QUIET, InitConfigure)
      case _ => Just(from)
    else
      match from
      case Closed => Just(Initial)
      case Stopped => Notifies(Starting, STARTED)
      case Closing => Just(Initial)
      case Stopping => Just(Starting)
      case ReqSent => Just(Starting)
      case AckRcvd => Just(Starting)
      case AckSent => Just(Starting)
      case Opened => Notifies(Starting, DOWN)
      case _ => Just(from)
  }

  function OnOpen(from: State): (StepOut, Counter) {
    match from
    case Initial => Notifies(Starting, STARTED)
    case Closed => Renegotiate(ReqSent, None, QUIET, InitConfigure)
    case _ => Just(from)
  }

  function OnClose(from: State): (StepOut, Counter) {
    match from
    case Initial => Just(Initial)
    case Starting => Notifies(Initial, FINISHED)
    case Closed => Just(Closed)
    case Stopped => Just(Closed)
    case Closing => Just(Closing)
    case Stopping => Just(Closing)
    case ReqSent => Terminate(Closing, QUIET)
    case AckRcvd => Terminate(Closing, QUIET)
    case AckSent => Terminate(Closing, QUIET)
    case Opened => Terminate(Closing, DOWN)
  }

  function OnRestartTimeout(from: State, restart: nat): (StepOut, Counter) {
    if !Negotiating(from) then Just(from)
    else if restart > 0 then
      if from.Closing? || from.Stopping? then
        (StepOut(from, Some(TerminateReq), None, Some(Start), QUIET), Keep)
      else
        Renegotiate(if from.AckSent? then AckSent else ReqSent, None, QUIET, Keep)
    else Notifies(if from.Closing? then Closed else Stopped, FINISHED)
  }

  function OnRequest(from: State, good: bool): (StepOut, Counter) {
    var reply := if good then ConfigureAck else ConfigureNak;
    match from
    case Initial => Just(from)
    case Starting => Just(from)
    case Closed => Sends(Closed, TerminateAck)
    case Stopped => Renegotiate(if good then AckSent else ReqSent, Some(reply), QUIET, InitConfigure)
    case Closing => Just(from)
    case Stopping => Just(from)
    case ReqSent => Sends(if good then AckSent else ReqSent, reply)
    case AckRcvd =>
      if good then (StepOut(Opened, Some(reply), None, None, UP), Keep) else Sends(AckRcvd, reply)
    case AckSent => Sends(if good then AckSent else ReqSent, reply)
    case Opened => Renegotiate(if good then AckSent else ReqSent, Some(reply), DOWN, Keep)
  }

  function OnAck(from: State): (StepOut, Counter) {
    match from
    case Initial => Just(from)
    case Starting => Just(from)
    case Closed => Sends(from, CodeReject)
    case Stopped => Sends(from, CodeReject)
    case Closing => Just(from)
    case Stopping => Just(from)
    case ReqSent => (StepOut(AckRcvd, None, None, Some(Stop), QUIET), InitConfigure)
    case AckRcvd => Sends(ReqSent, ConfigureRequest)
    case AckSent => (StepOut(Opened, None, None, Some(Stop), UP), InitConfigure)
    case Opened => (StepOut(ReqSent, Some(ConfigureRequest), None, None, DOWN), Keep)
  }

  function OnNak(from: State): (StepOut, Counter) {
    match from
    case Initial => Just(from)
    case Starting => Just(from)
    case Closed => Sends(from, CodeReject)
    case Stopped => Sends(from, CodeReject)
    case Closing => Just(from)
    case Stopping => Just(from)
    case ReqSent => (StepOut(from, Some(ConfigureRequest), None, None, QUIET), InitConfigure)
    case AckRcvd => Sends(ReqSent, ConfigureRequest)
    case AckSent => (StepOut(from, Some(ConfigureRequest), None, None, QUIET), InitConfigure)
    case Opened => (StepOut(ReqSent, Some(ConfigureRequest), None, None, DOWN), Keep)
  }

  function OnTerminateReq(from: State): (StepOut, Counter) {
    match from
    case Initial => Just(from)
    case Starting => Just(from)
    case Opened => (StepOut(Stopping, Some(TerminateAck), None, Some(Start), DOWN), Zero)
    case _ => Sends(if from.ReqSent? || from.AckRcvd? || from.AckSent? then ReqSent else from, TerminateAck)
  }

  function OnTerminateAck(from: State): (StepOut, Counter) {
    match from
    case Closing => Notifies(Closed, FINISHED)
    case Stopping => Notifies(Stopped, FINISHED)
    case AckRcvd => Just(ReqSent)
    case Opened => (StepOut(ReqSent, Some(ConfigureRequest), None, None, DOWN), Keep)
    case _ => Just(from)
  }

  function OnCatastrophe(from: State): (StepOut, Counter) {
    match from
    case Initial => Just(from)
    case Starting => Just(from)
    case Closed => Notifies(Closed, FINISHED)
    case Closing => Notifies(Closed, FINISHED)
    case Opened => Terminate(Stopping, DOWN)
    case _ => Notifies(Stopped, FINISHED)
  }

  function Cell(f: Fsm, event: Event): (StepOut, Counter) {
    match event
    case Up => OnLowerLayer(f.state, true)
    case Down => OnLowerLayer(f.state, false)
    case Open => OnOpen(f.state)
    case Close => OnClose(f.state)
    case RestartTimeout => OnRestartTimeout(f.state, f.restart)
    case RcvConfigReqGood => OnRequest(f.state, true)
    case RcvConfigReqBad => OnRequest(f.state, false)
    case RcvConfigAck => OnAck(f.state)
    case RcvConfigNak => OnNak(f.state)
    case RcvTerminateReq => OnTerminateReq(f.state)
    case RcvTerminateAck => OnTerminateAck(f.state)
    case RcvCodeRejPermitted => Just(f.state)
    case RcvCodeRejCatastrophic => OnCatastrophe(f.state)
    case RcvUnknownCode => Sends(f.state, CodeReject)
    case RcvEcho => if f.state.Opened? then Sends(Opened, EchoReply) else Just(f.state)
  }

  /** Sends that consume one count. */
  function Counted(send: Option<Send>): nat {
    if send == Some(ConfigureRequest) || send == Some(TerminateReq) then 1 else 0
  }

  function Saturating(n: nat, d: nat): nat {
    if n < d then 0 else n - d
  }

  function Step(f: Fsm, event: Event): (Fsm, StepOut) {
    var (out, counter) := Cell(f, event);
    var budget := match counter
      case Keep => f.restart
      case InitConfigure => MAX_CONFIGURE
      case InitTerminate => MAX_TERMINATE
      case Zero => 0;
    var failure := if counter.InitConfigure? then MAX_FAILURE else f.failure;
    (Fsm(out.newState, f.identifier, Saturating(Saturating(budget, Counted(out.send)), Counted(out.extra)), failure), out)
  }

  function BumpIdentifier(f: Fsm): Fsm {
    f.(identifier := (f.identifier + 1) % 256)
  }

  // ---------------------------------------------------------------------------
  // What an automaton for this driver owes (section 4.1 of RFC 1661)
  // ---------------------------------------------------------------------------

  type Automaton = (Fsm, Event) -> (Fsm, StepOut)

  predicate Emits(out: StepOut, send: Send) {
    out.send == Some(send) || out.extra == Some(send)
  }

  /** Configure-Ack answers only an acceptable request, Nak or Reject only an
      unacceptable one, Echo-Reply only an echo. */
  ghost predicate Lawful(auto: Automaton) {
    forall f: Fsm, event: Event ::
      && (Emits(auto(f, event).1, ConfigureAck) ==> event.RcvConfigReqGood?)
      && (Emits(auto(f, event).1, ConfigureNak) ==> event.RcvConfigReqBad?)
      && (Emits(auto(f, event).1, EchoReply) ==> event.RcvEcho?)
  }

  lemma RepliesOnlyToRequests(f: Fsm, event: Event)
    requires !event.RcvConfigReqGood? && !event.RcvConfigReqBad?
    ensures var out := Cell(f, event).0;
      !Emits(out, ConfigureAck) && !Emits(out, ConfigureNak) && (Emits(out, EchoReply) ==> event.RcvEcho?)
  {
    match event
    case Up => case Down => case Open => case Close => case RestartTimeout =>
    case RcvConfigAck => case RcvConfigNak => case RcvTerminateReq => case RcvTerminateAck =>
    case RcvCodeRejPermitted => case RcvCodeRejCatastrophic => case RcvUnknownCode => case RcvEcho =>
  }

  lemma ReplyMatchesVerdict(f: Fsm, good: bool)
    ensures var out := OnRequest(f.state, good).0;
      (Emits(out, ConfigureAck) ==> good) && (Emits(out, ConfigureNak) ==> !good) && !Emits(out, EchoReply)
  {
  }

  lemma TableIsLawful()
    ensures Lawful(Step)
  {
    forall f: Fsm, event: Event
      ensures Emits(Step(f, event).1, ConfigureAck) ==> event.RcvConfigReqGood?
      ensures Emits(Step(f, event).1, ConfigureNak) ==> event.RcvConfigReqBad?
      ensures Emits(Step(f, event).1, EchoReply) ==> event.RcvEcho?
    {
      assert Step(f, event).1 == Cell(f, event).0;
      if event.RcvConfigReqGood? || event.RcvConfigReqBad? {
        ReplyMatchesVerdict(f, event.RcvConfigReqGood?);
      } else {
        RepliesOnlyToRequests(f, event);
      }
    }
  }

  // ---------------------------------------------------------------------------
  // The published table
  // ---------------------------------------------------------------------------

  /** The actions of the table in section 4.1 of RFC 1661. */
  datatype Action = Tlu | Tld | Tls | Tlf | Irc | Zrc | Scr | Sca | Scn | Str | Sta | Scj | Ser

  datatype Entry = Dash | Go(actions: set<Action>, next: State)

  function RowClosed(e: Event): Entry {
    match e
    case Down => Go({}, Initial)
    case Open => Go({Irc, Scr}, ReqSent)
    case Close => Go({}, Closed)
    case RcvConfigReqGood => Go({Sta}, Closed)
    case RcvConfigReqBad => Go({Sta}, Closed)
    case RcvConfigAck => Go({Sta}, Closed)
    case RcvConfigNak => Go({Sta}, Closed)
    case RcvTerminateReq => Go({Sta}, Closed)
    case RcvTerminateAck => Go({}, Closed)
    case RcvUnknownCode => Go({Scj}, Closed)
    case RcvCodeRejPermitted => Go({}, Closed)
    case RcvCodeRejCatastrophic => Go({Tlf}, Closed)
    case RcvEcho => Go({}, Closed)
    case _ => Dash
  }

  function RowStopped(e: Event): Entry {
    match e
    case Down => Go({Tls}, Starting)
    case Open => Go({}, Stopped)
    case Close => Go({}, Closed)
    case RcvConfigReqGood => Go({Irc, Scr, Sca}, AckSent)
    case RcvConfigReqBad => Go({Irc, Scr, Scn}, ReqSent)
    case RcvConfigAck => Go({Sta}, Stopped)
    case RcvConfigNak => Go({Sta}, Stopped)
    case RcvTerminateReq => Go({Sta}, Stopped)
    case RcvTerminateAck => Go({}, Stopped)
    case RcvUnknownCode => Go({Scj}, Stopped)
    case RcvCodeRejPermitted => Go({}, Stopped)
    case RcvCodeRejCatastrophic => Go({Tlf}, Stopped)
    case RcvEcho => Go({}, Stopped)
    case _ => Dash
  }

  /** Closing and Stopping: `down` and `done` are where they go on Down and at the end. */
  function RowTerminating(e: Event, self: State, more: bool, down: State, done: State): Entry {
    match e
    case Up => Dash
    case Down => Go({}, down)
    case Open => Go({}, Stopping)
    case Close => Go({}, Closing)
    case RestartTimeout => if more then Go({Str}, self) else Go({Tlf}, done)
    case RcvTerminateReq => Go({Sta}, self)
    case RcvTerminateAck => Go({Tlf}, done)
    case RcvUnknownCode => Go({Scj}, self)
    case RcvCodeRejCatastrophic => Go({Tlf}, done)
    case _ => Go({}, self)
  }

  function RowReqSent(e: Event, more: bool): Entry {
    match e
    case Up => Dash
    case Down => Go({}, Starting)
    case Open => Go({}, ReqSent)
    case Close => Go({Irc, Str}, Closing)
    case RestartTimeout => if more then Go({Scr}, ReqSent) else Go({Tlf}, Stopped)
    case RcvConfigReqGood => Go({Sca}, AckSent)
    case RcvConfigReqBad => Go({Scn}, ReqSent)
    case RcvConfigAck => Go({Irc}, AckRcvd)
    case RcvConfigNak => Go({Irc, Scr}, ReqSent)
    case RcvTerminateReq => Go({Sta}, ReqSent)
    case RcvTerminateAck => Go({}, ReqSent)
    case RcvUnknownCode => Go({Scj}, ReqSent)
    case RcvCodeRejPermitted => Go({}, ReqSent)
    case RcvCodeRejCatastrophic => Go({Tlf}, Stopped)
    case RcvEcho => Go({}, ReqSent)
  }

  function RowAckRcvd(e: Event, more: bool): Entry {
    match e
    case Up => Dash
    case Down => Go({}, Starting)
    case Open => Go({}, AckRcvd)
    case Close => Go({Irc, Str}, Closing)
    case RestartTimeout => if more then Go({Scr}, ReqSent) else Go({Tlf}, Stopped)
    case RcvConfigReqGood => Go({Sca, Tlu}, Opened)
    case RcvConfigReqBad => Go({Scn}, AckRcvd)
    case RcvConfigAck => Go({Scr}, ReqSent)
    case RcvConfigNak => Go({Scr}, ReqSent)
    case RcvTerminateReq => Go({Sta}, ReqSent)
    case RcvTerminateAck => Go({}, ReqSent)
    case RcvUnknownCode => Go({Scj}, AckRcvd)
    case RcvCodeRejPermitted => Go({}, ReqSent)
    case RcvCodeRejCatastrophic => Go({Tlf}, Stopped)
    case RcvEcho => Go({}, AckRcvd)
  }

  function RowAckSent(e: Event, more: bool): Entry {
    match e
    case Up => Dash
    case Down => Go({}, Starting)
    case Open => Go({}, AckSent)
    case Close => Go({Irc, Str}, Closing)
    case RestartTimeout => if more then Go({Scr}, AckSent) else Go({Tlf}, Stopped)
    case RcvConfigReqGood => Go({Sca}, AckSent)
    case RcvConfigReqBad => Go({Scn}, ReqSent)
    case RcvConfigAck => Go({Irc, Tlu}, Opened)
    case RcvConfigNak => Go({Irc, Scr}, AckSent)
    case RcvTerminateReq => Go({Sta}, ReqSent)
    case RcvTerminateAck => Go({}, AckSent)
    case RcvUnknownCode => Go({Scj}, AckSent)
    case RcvCodeRejPermitted => Go({}, AckSent)
    case RcvCodeRejCatastrophic => Go({Tlf}, Stopped)
    case RcvEcho => Go({}, AckSent)
  }

  function RowOpened(e: Event): Entry {
    match e
    case Up => Dash
    case Down => Go({Tld}, Starting)
    case Open => Go({}, Opened)
    case Close => Go({Tld, Irc, Str}, Closing)
    case RestartTimeout => Dash
    case RcvConfigReqGood => Go({Tld, Scr, Sca}, AckSent)
    case RcvConfigReqBad => Go({Tld, Scr, Scn}, ReqSent)
    case RcvConfigAck => Go({Tld, Scr}, ReqSent)
    case RcvConfigNak => Go({Tld, Scr}, ReqSent)
    case RcvTerminateReq => Go({Tld, Zrc, Sta}, Stopping)
    case RcvTerminateAck => Go({Tld, Scr}, ReqSent)
    case RcvUnknownCode => Go({Scj}, Opened)
    case RcvCodeRejPermitted => Go({}, Opened)
    case RcvCodeRejCatastrophic => Go({Tld, Irc, Str}, Stopping)
    case RcvEcho => Go({Ser}, Opened)
  }

  /** The table; `more` separates TO+ from TO-, and restart options are not taken. */
  function Published(s: State, e: Event, more: bool): Entry {
    match s
    case Initial =>
      (match e
       case Up => Go({}, Closed)
       case Open => Go({Tls}, Starting)
       case Close => Go({}, Initial)
       case _ => Dash)
    case Starting =>
      (match e
       case Up => Go({Irc, Scr}, ReqSent)
       case Open => Go({}, Starting)
       case Close => Go({Tlf}, Initial)
       case _ => Dash)
    case Closed => RowClosed(e)
    case Stopped => RowStopped(e)
    case Closing => RowTerminating(e, Closing, more, Initial, Closed)
    case Stopping => RowTerminating(e, Stopping, more, Starting, Stopped)
    case ReqSent => RowReqSent(e, more)
    case AckRcvd => RowAckRcvd(e, more)
    case AckSent => RowAckSent(e, more)
    case Opened => RowOpened(e)
  }

  function SendAction(send: Option<Send>): set<Action> {
    match send
    case None => {}
    case Some(ConfigureRequest) => {Scr}
    case Some(ConfigureAck) => {Sca}
    case Some(ConfigureNak) => {Scn}
    case Some(TerminateReq) => {Str}
    case Some(TerminateAck) => {Sta}
    case Some(CodeReject) => {Scj}
    case Some(EchoReply) => {Ser}
  }

  /** What the automaton does, in the table's terms. */
  function Actions(cell: (StepOut, Counter)): set<Action> {
    var (out, c) := cell;
    SendAction(out.send) + SendAction(out.extra)
    + (if out.notify.up then {Tlu} else {}) + (if out.notify.down then {Tld} else {})
    + (if out.notify.started then {Tls} else {}) + (if out.notify.finished then {Tlf} else {})
    + (match c case Keep => {} case InitConfigure => {Irc} case InitTerminate => {Irc} case Zero => {Zrc})
  }

  predicate Agrees(cell: (StepOut, Counter), from: State, entry: Entry) {
    match entry
    case Dash => Actions(cell) == {} && cell.0.newState == from
    case Go(actions, next) => Actions(cell) == actions && cell.0.newState == next
  }

  /** The cells in which the automaton departs from the table. */
  predicate Departs(s: State, e: Event) {
    || (s.Closing? && e.Open?)
    || ((s.Closed? || s.Stopped?) && (e.RcvConfigAck? || e.RcvConfigNak?))
    || (s.AckRcvd? && e.RcvCodeRejPermitted?)
    || ((s.Initial? || s.Starting?) && e.RcvUnknownCode?)
  }

  ghost predicate CellAgrees(f: Fsm, e: Event) {
    Agrees(Cell(f, e), f.state, Published(f.state, e, f.restart > 0)) <==> !Departs(f.state, e)
  }

  lemma RequestCells(f: Fsm, e: Event)
    requires e.RcvConfigReqGood? || e.RcvConfigReqBad?
    ensures CellAgrees(f, e)
  {
    ActionMembers(Cell(f, e));
  }

  lemma ReplyCells(f: Fsm, e: Event)
    requires e.RcvConfigAck? || e.RcvConfigNak?
    ensures CellAgrees(f, e)
  {
    ActionMembers(Cell(f, e));
  }

  lemma AdminCells(f: Fsm, e: Event)
    requires e.Up? || e.Down? || e.Open? || e.Close?
    ensures CellAgrees(f, e)
  {
    ActionMembers(Cell(f, e));
  }

  lemma TimeoutCells(f: Fsm)
    ensures CellAgrees(f, RestartTimeout)
  {
    ActionMembers(Cell(f, RestartTimeout));
  }

  lemma TerminateCells(f: Fsm, e: Event)
    requires e.RcvTerminateReq? || e.RcvTerminateAck? || e.RcvCodeRejCatastrophic?
    ensures CellAgrees(f, e)
  {
    ActionMembers(Cell(f, e));
  }

  lemma OtherCells(f: Fsm, e: Event)
    requires e.RcvCodeRejPermitted? || e.RcvUnknownCode? || e.RcvEcho?
    ensures CellAgrees(f, e)
  {
    ActionMembers(Cell(f, e));
  }

  lemma ActionMembers(cell: (StepOut, Counter))
    ensures forall a :: a in Actions(cell) <==> (
      || a in SendAction(cell.0.send) || a in SendAction(cell.0.extra)
      || (a == Tlu && cell.0.notify.up) || (a == Tld && cell.0.notify.down)
      || (a == Tls && cell.0.notify.started) || (a == Tlf && cell.0.notify.finished)
      || (a == Irc && (cell.1.InitConfigure? || cell.1.InitTerminate?)) || (a == Zrc && cell.1.Zero?))
  {
  }

  /** The automaton is the published table, sends, notifications, counter and next
      state alike, in exactly the cells outside `Departs`. */
  lemma TableAgreement(f: Fsm, e: Event)
    ensures Agrees(Cell(f, e), f.state, Published(f.state, e, f.restart > 0)) <==> !Departs(f.state, e)
  {
    match e
    case RcvConfigReqGood => RequestCells(f, e);
    case RcvConfigReqBad => RequestCells(f, e);
    case RcvConfigAck => ReplyCells(f, e);
    case RcvConfigNak => ReplyCells(f, e);
    case Up => AdminCells(f, e);
    case Down => AdminCells(f, e);
    case Open => AdminCells(f, e);
    case Close => AdminCells(f, e);
    case RestartTimeout => TimeoutCells(f);
    case RcvTerminateReq => TerminateCells(f, e);
    case RcvTerminateAck => TerminateCells(f, e);
    case RcvCodeRejCatastrophic => TerminateCells(f, e);
    case RcvCodeRejPermitted => OtherCells(f, e);
    case RcvUnknownCode => OtherCells(f, e);
    case RcvEcho => OtherCells(f, e);
  }
}
