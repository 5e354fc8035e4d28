/** The driver's classes over whole runs, judged from outside: by the calls made and the
    bytes, timers and events that came back. */
module PppDrive {
  import opened Bytes
  import opened Fsm
  import opened PppCodec
  import opened PppOptions
  import opened PppModel
  import opened PppRuns
  import opened PppSaid
  import opened PppReplies
  import opened PppFrames
  import opened PppDriver
  import SessionWrite

  /** The packet a frame carries, if it decodes. */
  function PacketOf(frame: seq<byte>): Option<Packet> {
    match DecodeFrame(frame)
    case None => None
    case Some(f) =>
      match DecodePacket(f.info)
      case None => None
      case Some(p) => Some(Packet(f.protocol, p.code, p.id, p.data))
  }

  /** Every frame decodes. */
  ghost predicate Decodes(step: PppStep) {
    forall i :: 0 <= i < |step.frames| ==> PacketOf(step.frames[i]).Some?
  }

  /** The answer read back from its bytes. */
  function ReadBack(step: PppStep): (r: Reply)
    ensures |r.packets| == |step.frames|
  {
    Reply(seq(|step.frames|, i requires 0 <= i < |step.frames| => PacketOrNone(step.frames[i])),
          step.starts, step.stops, step.event, step.finished)
  }

  function PacketOrNone(frame: seq<byte>): Packet {
    if PacketOf(frame).Some? then PacketOf(frame).value else Packet(0, 0, 0, [])
  }

  lemma ReadBackEncoded(r: Reply)
    requires AllSendable(r.packets)
    ensures Decodes(Encoded(r)) && ReadBack(Encoded(r)) == r
  {
    var step := Encoded(r);
    forall i | 0 <= i < |step.frames|
      ensures PacketOf(step.frames[i]) == Some(r.packets[i])
    {
      assert Sendable(r.packets[i]);
      WireReadsBack(r.packets[i]);
    }
    assert ReadBack(step).packets == r.packets;
  }

  /** What an observer knows after the first `k` answers. */
  ghost function Seen(inputs: seq<Input>, steps: seq<PppStep>, k: nat): History
    requires k <= |inputs| && k <= |steps|
  {
    if k == 0 then BLANK else Observe(Seen(inputs, steps, k - 1), inputs[k - 1], ReadBack(steps[k - 1]))
  }

  /** The Length field is the size of the packet. */
  predicate LengthExact(f: seq<byte>) {
    |f| >= FRAME_HEADER_LEN + PACKET_HEADER_LEN && FromBe16(f[6], f[7]) == |f| - FRAME_HEADER_LEN
  }

  /** What holds of one answer, in terms of its bytes and of what was seen before. */
  ghost predicate Sound(auto: Automaton, h: History, input: Input, step: PppStep) {
    && Decodes(step)
    && (forall i :: 0 <= i < |step.frames| ==> LengthExact(step.frames[i]))
    && var r := ReadBack(step);
    && Right(input, r, h, Observe(h, input, r)) && Observe(h, input, r).upsSince <= 1
    && (Lawful(auto) ==> AllAnswered(input, r.packets, h.granted))
    && (Lawful(auto) ==> forall i :: 0 <= i < |step.frames| ==>
         (SessionWrite.FitsBuffer(step.frames[i]) <==> (IsAnswer(r.packets[i]) ==> AnswerSize(input, h.granted) <= MAX_BODY)))
  }

  lemma {:induction false} AfterPush(auto: Automaton, p: Link, h: History, inputs: seq<Input>, input: Input)
    ensures var (q, g) := After(auto, p, h, inputs);
      var (q1, r) := Respond(auto, q, input);
      After(auto, p, h, inputs + [input]) == (q1, Observe(g, input, r))
    decreases |inputs|
  {
    if inputs == [] {
      assert inputs + [input] == [input] && [input][1..] == [];
    } else {
      var (q, r) := Respond(auto, p, inputs[0]);
      AfterPush(auto, q, Observe(h, inputs[0], r), inputs[1..], input);
      assert (inputs + [input])[1..] == inputs[1..] + [input];
    }
  }

  /** The run theorems, at one call. */
  lemma AnswerIsSound(auto: Automaton, localIp: Ipv4, authMethod: AuthMethod, inputs: seq<Input>, input: Input)
    requires Arrives(input) && forall i <- inputs :: Arrives(i)
    ensures var (p, h) := After(auto, NewLink(localIp, authMethod), BLANK, inputs);
      var step := Encoded(Respond(auto, p, input).1);
      Sound(auto, h, input, step) && ReadBack(step) == Respond(auto, p, input).1
  {
    var (p, h) := After(auto, NewLink(localIp, authMethod), BLANK, inputs);
    var r := Respond(auto, p, input).1;
    SizedAlong(auto, NewLink(localIp, authMethod), BLANK, inputs);
    CallSized(auto, p, input);
    ReadBackEncoded(r);
    EveryAnswerIsRight(auto, localIp, authMethod, inputs, input);
    forall i | 0 <= i < |r.packets|
      ensures LengthExact(Encoded(r).frames[i])
      ensures Lawful(auto) ==>
        (SessionWrite.FitsBuffer(Wire(r.packets[i])) <==> (IsAnswer(r.packets[i]) ==> AnswerSize(input, h.granted) <= MAX_BODY))
    {
      assert Sendable(r.packets[i]);
      WireReadsBack(r.packets[i]);
      if Lawful(auto) {
        FrameFitsIffAnswerShort(auto, localIp, authMethod, inputs, input, r.packets[i]);
      }
    }
    if Lawful(auto) {
      RepliesAnswerTheRequest(auto, localIp, authMethod, inputs, input);
    }
  }

  lemma {:induction false} SeenPrefix(inputs: seq<Input>, steps: seq<PppStep>, step: PppStep, k: nat)
    requires k <= |inputs| && k <= |steps|
    ensures Seen(inputs, steps + [step], k) == Seen(inputs, steps, k)
  {
    if k > 0 {
      SeenPrefix(inputs, steps, step, k - 1);
    }
  }

  /** Every answer so far is sound. */
  ghost predicate AllSound(auto: Automaton, inputs: seq<Input>, steps: seq<PppStep>) {
    && |steps| <= |inputs|
    && forall k :: 0 <= k < |steps| ==> Sound(auto, Seen(inputs, steps, k), inputs[k], steps[k])
  }

  lemma SoundPush(auto: Automaton, inputs: seq<Input>, steps: seq<PppStep>, step: PppStep)
    requires AllSound(auto, inputs, steps) && |steps| < |inputs|
    requires Sound(auto, Seen(inputs, steps, |steps|), inputs[|steps|], step)
    ensures AllSound(auto, inputs, steps + [step])
  {
    var all := steps + [step];
    SeenPrefix(inputs, steps, step, |steps|);
    forall k | 0 <= k < |all|
      ensures Sound(auto, Seen(inputs, all, k), inputs[k], all[k])
    {
      SeenPrefix(inputs, steps, step, k);
      if k < |steps| {
        assert all[k] == steps[k];
      }
    }
  }

  /** The driver and the observer are where the run on values is. */
  ghost predicate InStep(auto: Automaton, start: Link, inputs: seq<Input>, steps: seq<PppStep>, p: Link) {
    |steps| <= |inputs| && After(auto, start, BLANK, inputs[..|steps|]) == (p, Seen(inputs, steps, |steps|))
  }

  lemma AnswerSoundAt(auto: Automaton, localIp: Ipv4, authMethod: AuthMethod, before: seq<Input>, input: Input, p: Link, h: History)
    requires Arrives(input) && forall i <- before :: Arrives(i)
    requires After(auto, NewLink(localIp, authMethod), BLANK, before) == (p, h)
    ensures var r := Respond(auto, p, input).1; Sound(auto, h, input, Encoded(r)) && ReadBack(Encoded(r)) == r
  {
    AnswerIsSound(auto, localIp, authMethod, before, input);
  }

  lemma AfterPushAt(auto: Automaton, start: Link, before: seq<Input>, input: Input, p: Link, h: History)
    requires After(auto, start, BLANK, before) == (p, h)
    ensures After(auto, start, BLANK, before + [input])
      == (Respond(auto, p, input).0, Observe(h, input, Respond(auto, p, input).1))
  {
    AfterPush(auto, start, BLANK, before, input);
  }

  lemma SeenNext(inputs: seq<Input>, steps: seq<PppStep>, step: PppStep)
    requires |steps| < |inputs|
    ensures Seen(inputs, steps + [step], |steps| + 1) == Observe(Seen(inputs, steps, |steps|), inputs[|steps|], ReadBack(step))
  {
    SeenPrefix(inputs, steps, step, |steps|);
  }

  lemma InStepAt(auto: Automaton, start: Link, inputs: seq<Input>, all: seq<PppStep>, q: Link, h: History)
    requires |all| <= |inputs| && h == Seen(inputs, all, |all|)
    requires After(auto, start, BLANK, inputs[..|all|]) == (q, h)
    ensures InStep(auto, start, inputs, all, q)
  {
  }

  lemma PrefixPush(inputs: seq<Input>, k: nat)
    requires k < |inputs|
    ensures inputs[..k] + [inputs[k]] == inputs[..k + 1]
  {
  }

  lemma InStepPush(auto: Automaton, start: Link, inputs: seq<Input>, steps: seq<PppStep>, step: PppStep, q: Link, h: History)
    requires |steps| < |inputs| && h == Seen(inputs, steps + [step], |steps| + 1)
    requires After(auto, start, BLANK, inputs[..|steps|] + [inputs[|steps|]]) == (q, h)
    ensures InStep(auto, start, inputs, steps + [step], q)
  {
    PrefixPush(inputs, |steps|);
    InStepAt(auto, start, inputs, steps + [step], q, h);
  }

  lemma StepPush(auto: Automaton, localIp: Ipv4, authMethod: AuthMethod, inputs: seq<Input>, steps: seq<PppStep>, p: Link)
    requires forall i <- inputs :: Arrives(i)
    requires InStep(auto, NewLink(localIp, authMethod), inputs, steps, p) && AllSound(auto, inputs, steps) && |steps| < |inputs|
    ensures var step := Encoded(Respond(auto, p, inputs[|steps|]).1);
      && AllSound(auto, inputs, steps + [step])
      && InStep(auto, NewLink(localIp, authMethod), inputs, steps + [step], Respond(auto, p, inputs[|steps|]).0)
  {
    var k := |steps|;
    var step := Encoded(Respond(auto, p, inputs[k]).1);
    AnswerSoundAt(auto, localIp, authMethod, inputs[..k], inputs[k], p, Seen(inputs, steps, k));
    SoundPush(auto, inputs, steps, step);
    AfterPushAt(auto, NewLink(localIp, authMethod), inputs[..k], inputs[k], p, Seen(inputs, steps, k));
    SeenNext(inputs, steps, step);
    InStepPush(auto, NewLink(localIp, authMethod), inputs, steps, step, Respond(auto, p, inputs[k]).0,
               Seen(inputs, steps + [step], k + 1));
  }

  /** What the driver on values answers to `input` after `before`. */
  ghost function AnswerAfter(auto: Automaton, start: Link, before: seq<Input>, input: Input): PppStep {
    Encoded(Respond(auto, After(auto, start, BLANK, before).0, input).1)
  }

  ghost predicate AllFaithful(auto: Automaton, start: Link, inputs: seq<Input>, steps: seq<PppStep>) {
    && |steps| <= |inputs|
    && forall k :: 0 <= k < |steps| ==> steps[k] == AnswerAfter(auto, start, inputs[..k], inputs[k])
  }

  lemma FaithfulPush(auto: Automaton, start: Link, inputs: seq<Input>, steps: seq<PppStep>, step: PppStep)
    requires AllFaithful(auto, start, inputs, steps) && |steps| < |inputs|
    requires step == AnswerAfter(auto, start, inputs[..|steps|], inputs[|steps|])
    ensures AllFaithful(auto, start, inputs, steps + [step])
  {
    var all := steps + [step];
    forall k | 0 <= k < |all|
      ensures all[k] == AnswerAfter(auto, start, inputs[..k], inputs[k])
    {
      assert all[k] == if k < |steps| then steps[k] else step;
    }
  }

  /** A driver made and driven over any sequence of calls: its answers are, to the byte,
      those of the driver on values. Of every one of them: its frames
      decode, with Length equal to their size; NetworkUp follows an Accept, at most once
      each, with that one's addresses; verdict packets and CHAP events refer to the last
      credentials and the last challenge; under a lawful automaton each Ack, Nak, Reject
      and Echo-Reply answers the frame just received, and a frame fits the session's buffer
      exactly when that answer is short enough. */
  method Drive(auto: Automaton, localIp: Ipv4, authMethod: AuthMethod, inputs: seq<Input>) returns (steps: seq<PppStep>)
    requires forall i <- inputs :: Arrives(i)
    ensures |steps| == |inputs| && AllSound(auto, inputs, steps)
    ensures AllFaithful(auto, NewLink(localIp, authMethod), inputs, steps)
  {
    var ppp := new Ppp(localIp, authMethod);
    steps := [];
    ghost var start := NewLink(localIp, authMethod);
    assert inputs[..0] == [];
    for k := 0 to |inputs|
      invariant fresh(ppp) && fresh(ppp.lcp) && (ppp.ipcp != null ==> fresh(ppp.ipcp))
      invariant |steps| == k && AllSound(auto, inputs, steps) && InStep(auto, start, inputs, steps, ppp.View())
      invariant AllFaithful(auto, start, inputs, steps)
    {
      StepPush(auto, localIp, authMethod, inputs, steps, ppp.View());
      var step := ppp.Handle(auto, inputs[k]);
      FaithfulPush(auto, start, inputs, steps, step);
      steps := steps + [step];
    }
  }
}
