/** The worker of TxChannel, given any answers of the socket, is a run of the
    interleaving machine in which nobody else moves: what holds of every run of the
    machine holds of it. */
module TxRefine {
  import opened Bytes
  import opened TxMachine
  import opened TxChannel

  lemma {:induction false} RunJoin(s: State, a: seq<Step>, t: State, b: seq<Step>, u: State)
    requires Run(s, a, t) && Run(t, b, u)
    ensures Run(s, a + b, u)
    decreases |a|
  {
    if a == [] {
      assert a + b == b;
    } else {
      RunJoin(Next(s, a[0]), a[1..], t, b, u);
      assert (a + b)[0] == a[0] && (a + b)[1..] == a[1..] + b;
    }
  }

  lemma RunOne(s: State, step: WorkStep)
    requires WorkEnabled(s, step)
    ensures Run(s, [Work(step)], WorkNext(s, step))
  {
    var t := WorkNext(s, step);
    assert [Work(step)][1..] == [];
    assert Run(t, [], t);
  }

  lemma RunThen(s: State, step: WorkStep, b: seq<Step>, u: State)
    requires WorkEnabled(s, step) && Run(WorkNext(s, step), b, u)
    ensures Run(s, [Work(step)] + b, u)
  {
    RunOne(s, step);
    RunJoin(s, [Work(step)], WorkNext(s, step), b, u);
  }

  /** The machine with a batch built. */
  function Built(s: State, b: Batch, loops: nat, drained: bool): State {
    s.(txQ := b.left, worker := if |b.packets| == 0 then Tail(drained) else Send(b.packets, b.total, loops, drained))
  }

  /** The batch the worker in Build will end up with. */
  function Target(s: State): Batch
    requires s.worker.Build? && |s.worker.batch| <= TX_BATCH_MAX
  {
    TakeBatch(Batch(s.worker.batch, s.worker.total, s.txQ))
  }

  predicate Taking(s: State) {
    && s.worker.Build? && |s.worker.batch| < TX_BATCH_MAX && |s.txQ| > 0
    && (|s.worker.batch| > 0 ==> s.worker.total + WireLen(s.txQ[0]) <= TX_BATCH_BYTES_MAX)
  }

  lemma TakingKeepsTarget(s: State)
    requires Taking(s)
    ensures var t := WorkNext(s, Dequeue);
      && t == s.(txQ := s.txQ[1..], worker := t.worker)
      && t.worker.Build? && |t.worker.batch| == |s.worker.batch| + 1
      && t.worker.loops == s.worker.loops && t.worker.drained == s.worker.drained
      && Target(t) == Target(s)
  {
  }

  lemma NotTakingStops(s: State) returns (steps: seq<Step>)
    requires s.worker.Build? && |s.worker.batch| <= TX_BATCH_MAX && !Taking(s)
    ensures Run(s, steps, Built(s, Target(s), s.worker.loops, s.worker.drained))
  {
    var w, t := s.worker, WorkNext(s, Dequeue);
    assert Target(s) == Batch(w.batch, w.total, s.txQ);
    if |w.batch| == TX_BATCH_MAX || |s.txQ| == 0 {
      RunOne(s, Dequeue);
      steps := [Work(Dequeue)];
    } else {
      assert t == s.(txQ := s.txQ[1..], worker := PutBack(w.batch, w.total, s.txQ[0], w.loops, w.drained));
      RunOne(t, Return);
      assert [s.txQ[0]] + s.txQ[1..] == s.txQ;
      RunThen(s, Dequeue, [Work(Return)], WorkNext(t, Return));
      steps := [Work(Dequeue)] + [Work(Return)];
    }
  }

  lemma {:induction false} BuildRun(s: State) returns (steps: seq<Step>)
    requires s.worker.Build? && |s.worker.batch| <= TX_BATCH_MAX
    ensures Run(s, steps, Built(s, Target(s), s.worker.loops, s.worker.drained))
    decreases |s.txQ|
  {
    if Taking(s) {
      TakingKeepsTarget(s);
      var t := WorkNext(s, Dequeue);
      var rest := BuildRun(t);
      RunThen(s, Dequeue, rest, Built(s, Target(s), s.worker.loops, s.worker.drained));
      steps := [Work(Dequeue)] + rest;
    } else {
      steps := NotTakingStops(s);
    }
  }

  lemma {:induction false} UnwindRun(s: State) returns (steps: seq<Step>)
    requires s.worker.Unwind?
    ensures Run(s, steps, s.(txQ := s.worker.batch + s.txQ, worker := Tail(s.worker.drained)))
    decreases |s.worker.batch|
  {
    var batch := s.worker.batch;
    var n := |batch|;
    if n == 0 {
      assert batch + s.txQ == s.txQ;
      RunOne(s, ReHead);
      steps := [Work(ReHead)];
    } else {
      var t := WorkNext(s, ReHead);
      var rest := UnwindRun(t);
      assert batch[..n - 1] + t.txQ == batch + s.txQ by {
        assert batch == batch[..n - 1] + [batch[n - 1]];
        Assoc(batch[..n - 1], [batch[n - 1]], s.txQ);
      }
      RunThen(s, ReHead, rest, s.(txQ := batch + s.txQ, worker := Tail(s.worker.drained)));
      steps := [Work(ReHead)] + rest;
    }
  }

  /** The machine where the send loop ends; `sent` are the packets sent before. */
  function Ended(s: State, end: LoopEnd, sent: seq<Skb>, wire: seq<Sent>): State {
    s.(txQ := end.queue, worker := Tail(end.drained), pending := s.pending || end.requeued,
       owed := s.owed || end.owed, closing := end.aborted.Some?, broken := end.aborted.Some?,
       wire := wire, sent := sent)
  }

  /** Every way the worker can go through its send loop, for every queue and all
      answers, is a run of the machine; the frames it puts on the wire are those of the
      packets it sends, in order. */
  lemma {:induction false} SendLoopIsARun(s: State, script: seq<SendResult>, before: seq<Skb>) returns (steps: seq<Step>)
    requires s.worker.Top? && s.worker.loops < TX_LOOPS && s.worker.drained == (s.worker.loops > 0)
    requires !s.closing && !s.broken
    ensures var end := SendLoop(s.txQ, script, s.worker.loops, before);
      && before <= end.sent
      && var now := end.sent[|before|..];
         Run(s, steps, Ended(s, end, s.sent + now, s.wire + AsData(now)))
    decreases TX_LOOPS - s.worker.loops
  {
    var w := s.worker;
    var t0 := WorkNext(s, LoopTop);
    var built := BuildRun(t0);
    var b := TakeBatch(Batch([], 0, s.txQ));
    var t1 := Built(t0, b, w.loops, w.drained);
    RunThen(s, LoopTop, built, t1);
    steps := [Work(LoopTop)] + built;
    var end := SendLoop(s.txQ, script, w.loops, before);
    if |b.packets| == 0 {
      Nothing(s, before);
    } else {
      var rest := TransmitRun(t1, script, before, s.txQ);
      RunJoin(s, steps, t1, rest, Ended(s, end, s.sent + end.sent[|before|..], s.wire + AsData(end.sent[|before|..])));
      steps := steps + rest;
    }
  }

  lemma Nothing(s: State, before: seq<Skb>)
    ensures s.sent + before[|before|..] == s.sent && s.wire + AsData(before[|before|..]) == s.wire
  {
  }

  /** A batch is ready; `queue` is what it was built from. */
  predicate Ready(s: State, queue: seq<Skb>) {
    && s.worker.Send? && s.worker.loops < TX_LOOPS && s.worker.drained == (s.worker.loops > 0)
    && !s.closing && !s.broken && |s.worker.batch| > 0
    && TakeBatch(Batch([], 0, queue)) == Batch(s.worker.batch, s.worker.total, s.txQ)
  }

  lemma {:induction false} TransmitRun(s: State, script: seq<SendResult>, before: seq<Skb>, queue: seq<Skb>) returns (steps: seq<Step>)
    requires Ready(s, queue)
    ensures var end := SendLoop(queue, script, s.worker.loops, before);
      && before <= end.sent
      && var now := end.sent[|before|..];
         Run(s, steps, Ended(s, end, s.sent + now, s.wire + AsData(now)))
    decreases TX_LOOPS - s.worker.loops, 0
  {
    var w := s.worker;
    var outcome := OutcomeOf(Answer(script), w.total);
    var end := SendLoop(queue, script, w.loops, before);
    Nothing(s, before);
    if !outcome.Accepted? {
      steps := RefusedRun(s, script, before, queue);
    } else if w.loops + 1 == TX_LOOPS {
      assert end.sent == before + w.batch && (before + w.batch)[|before|..] == w.batch;
      RunOne(s, Transmit(outcome));
      steps := [Work(Transmit(outcome))];
    } else {
      var t := s.(wire := s.wire + AsData(w.batch), sent := s.sent + w.batch, worker := Top(w.loops + 1, true));
      var rest := SendLoopIsARun(t, Later(script), before + w.batch);
      assert end == SendLoop(t.txQ, Later(script), w.loops + 1, before + w.batch);
      SentGrows(before, w.batch, end.sent, s.sent, s.wire);
      RunThen(s, Transmit(outcome), rest, Ended(s, end, s.sent + end.sent[|before|..], s.wire + AsData(end.sent[|before|..])));
      steps := [Work(Transmit(outcome))] + rest;
    }
  }

  lemma RefusedRun(s: State, script: seq<SendResult>, before: seq<Skb>, queue: seq<Skb>) returns (steps: seq<Step>)
    requires Ready(s, queue) && !OutcomeOf(Answer(script), s.worker.total).Accepted?
    ensures var end := SendLoop(queue, script, s.worker.loops, before);
      end.sent == before && Run(s, steps, Ended(s, end, s.sent, s.wire))
  {
    var w := s.worker;
    if OutcomeOf(Answer(script), w.total).Again? {
      TakeBatchSplits(Batch([], 0, queue));
      assert [] + queue == queue;
      var t := s.(owed := true, worker := Unwind(w.batch, w.drained));
      var rest := UnwindRun(t);
      RunThen(s, Transmit(Again), rest, t.(txQ := queue, worker := Tail(w.drained)));
      steps := [Work(Transmit(Again))] + rest;
    } else {
      var t := s.(broken := true, worker := Abort(w.drained));
      RunOne(t, SetClosing);
      RunThen(s, Transmit(Failed), [Work(SetClosing)], t.(closing := true, worker := Tail(w.drained)));
      steps := [Work(Transmit(Failed))] + [Work(SetClosing)];
    }
  }

  lemma SentGrows(before: seq<Skb>, batch: seq<Skb>, all: seq<Skb>, sent: seq<Skb>, wire: seq<Sent>)
    requires before + batch <= all
    ensures before <= all
    ensures (sent + batch) + all[|before + batch|..] == sent + all[|before|..]
    ensures (wire + AsData(batch)) + AsData(all[|before + batch|..]) == wire + AsData(all[|before|..])
  {
    var rest := all[|before + batch|..];
    assert all[|before|..] == batch + rest;
    assert AsData(batch + rest) == AsData(batch) + AsData(rest);
    Assoc(sent, batch, rest);
    Assoc(wire, AsData(batch), AsData(rest));
  }
}
