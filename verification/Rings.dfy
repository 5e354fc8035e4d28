/** The two rings of the kernel session: the event ring read through the session
    file (kmod/sstp_event.c) and the control-frame ring (kmod/sstp_demux.c). Each is
    a fixed array with modular head and tail and one slot kept free; each is proved
    to be a bounded first-in first-out queue. */
module Rings {
  import opened Bytes

  const EVENT_QUEUE_CAP: nat := 16
  const CTRL_Q_CAP: nat := 8

  datatype EventType = PeerClosed | TlsFatalAlert | TlsRekeyNeeded | ProtocolError | ControlPacket

  datatype Event = Event(kind: EventType, arg: nat)

  /** A control frame's body. */
  datatype Skb = Skb(data: seq<byte>)

  // ---------------------------------------------------------------------------
  // The queues the rings stand for
  // ---------------------------------------------------------------------------

  predicate EventsFull(q: seq<Event>) {
    |q| == EVENT_QUEUE_CAP - 1
  }

  /** A full queue keeps its length: the newest entry is replaced if it has the same
      type, otherwise the new event is lost. */
  function EmitTo(q: seq<Event>, e: Event): (r: seq<Event>)
    ensures |q| < EVENT_QUEUE_CAP ==> |r| < EVENT_QUEUE_CAP
    ensures |r| == |q| + (if EventsFull(q) then 0 else 1)
  {
    if !EventsFull(q) then q + [e]
    else if q[|q| - 1].kind == e.kind then q[..|q| - 1] + [e]
    else q
  }

  /** A full control queue drops the new frame. */
  function EnqueueTo(q: seq<Skb>, skb: Skb): seq<Skb> {
    if |q| == CTRL_Q_CAP - 1 then q else q + [skb]
  }

  /** The occupied part of a ring, oldest first. */
  function Occupied<T>(slots: seq<T>, head: nat, tail: nat): seq<T>
    requires head < |slots| && tail < |slots|
  {
    if tail <= head then slots[tail..head] else slots[tail..] + slots[..head]
  }

  /** The slot after `i` in a ring of `n`: `(i + 1) % n`. */
  function Next(i: nat, n: nat): (r: nat)
    requires i < n
    ensures r < n
  {
    if i + 1 == n then 0 else i + 1
  }

  lemma OccupiedSize<T>(slots: seq<T>, head: nat, tail: nat)
    requires head < |slots| && tail < |slots|
    ensures |Occupied(slots, head, tail)| < |slots|
    ensures |Occupied(slots, head, tail)| == |slots| - 1 <==> Next(head, |slots|) == tail
  {
  }

  lemma OccupiedPush<T>(slots: seq<T>, head: nat, tail: nat, x: T)
    requires head < |slots| && tail < |slots| && Next(head, |slots|) != tail
    ensures Occupied(slots[head := x], Next(head, |slots|), tail) == Occupied(slots, head, tail) + [x]
  {
  }

  lemma OccupiedPop<T>(slots: seq<T>, head: nat, tail: nat, x: T)
    requires head < |slots| && tail < |slots| && head != tail
    ensures Occupied(slots, head, tail) == [slots[tail]] + Occupied(slots[tail := x], head, Next(tail, |slots|))
  {
  }

  /** In a full ring the slot behind the head holds the newest entry. */
  lemma OccupiedNewest<T>(slots: seq<T>, head: nat, tail: nat, prev: nat, x: T)
    requires head < |slots| && tail < |slots| && prev < |slots| && |slots| >= 2
    requires Next(head, |slots|) == tail && Next(prev, |slots|) == head
    ensures var q := Occupied(slots, head, tail);
      && |q| == |slots| - 1 && slots[prev] == q[|q| - 1]
      && Occupied(slots[prev := x], head, tail) == q[..|q| - 1] + [x]
  {
  }

  // ---------------------------------------------------------------------------
  // The rings
  // ---------------------------------------------------------------------------

  class EventRing {
    const events: array<Event>
    var head: nat
    var tail: nat
    var dropped: nat

    ghost predicate Valid()
      reads this
    {
      events.Length == EVENT_QUEUE_CAP && head < EVENT_QUEUE_CAP && tail < EVENT_QUEUE_CAP
    }

    function Queue(): (q: seq<Event>)
      requires Valid()
      reads this, events
      ensures |q| < EVENT_QUEUE_CAP
    {
      Occupied(events[..], head, tail)
    }

    constructor ()
      ensures Valid() && Queue() == [] && dropped == 0 && fresh(events)
    {
      events := new Event[EVENT_QUEUE_CAP](_ => Event(PeerClosed, 0));
      head, tail, dropped := 0, 0, 0;
    }

    method Emit(e: Event)
      requires Valid()
      modifies this`head, this`dropped, events
      ensures Valid() && Queue() == EmitTo(old(Queue()), e)
      ensures |old(Queue())| < 15 ==> Queue() == old(Queue()) + [e] && dropped == old(dropped)
      ensures |old(Queue())| == 15 ==>
        && dropped == old(dropped) + 1
        && Queue() == if old(Queue())[14].kind == e.kind then old(Queue())[..14] + [e] else old(Queue())
    {
      ghost var slots, was := events[..], Queue();
      var next := (head + 1) % EVENT_QUEUE_CAP;
      if next == tail {
        var prev := (head + EVENT_QUEUE_CAP - 1) % EVENT_QUEUE_CAP;
        OccupiedNewest(slots, head, tail, prev, e);
        if head != tail && events[prev].kind == e.kind {
          events[prev] := e;
          assert events[..] == slots[prev := e];
        }
        dropped := dropped + 1;
        return;
      }
      OccupiedPush(slots, head, tail, e);
      events[head] := e;
      assert events[..] == slots[head := e];
      head := next;
    }

    /** `read` on a non-blocking session file: one event, or nothing. */
    method Read() returns (r: Option<Event>)
      requires Valid()
      modifies this`tail
      ensures Valid()
      ensures r.None? <==> old(Queue()) == []
      ensures r.None? ==> Queue() == old(Queue())
      ensures r.Some? ==> old(Queue()) == [r.value] + Queue()
    {
      if head == tail {
        return None;
      }
      OccupiedPop(events[..], head, tail, events[tail]);
      r := Some(events[tail]);
      assert events[..][tail := events[tail]] == events[..];
      tail := (tail + 1) % EVENT_QUEUE_CAP;
    }
  }

  predicate AllSome(s: seq<Option<Skb>>) {
    forall i :: 0 <= i < |s| ==> s[i].Some?
  }

  /** The frames in a run of occupied slots. */
  function Values(s: seq<Option<Skb>>): (q: seq<Skb>)
    requires AllSome(s)
    ensures |q| == |s| && forall i :: 0 <= i < |s| ==> s[i] == Some(q[i])
  {
    seq(|s|, i requires 0 <= i < |s| => s[i].value)
  }

  lemma ValuesPush(s: seq<Option<Skb>>, skb: Skb)
    requires AllSome(s)
    ensures AllSome(s + [Some(skb)]) && Values(s + [Some(skb)]) == Values(s) + [skb]
  {
  }

  lemma ValuesPop(first: Option<Skb>, s: seq<Option<Skb>>)
    requires AllSome([first] + s)
    ensures first.Some? && AllSome(s) && Values([first] + s) == [first.value] + Values(s)
  {
    var all := [first] + s;
    assert all[0] == first && forall i :: 0 <= i < |s| ==> s[i] == all[i + 1];
    var l, r := Values(all), [first.value] + Values(s);
    forall i | 0 <= i < |l|
      ensures l[i] == r[i]
    {
      if i > 0 {
        assert all[i] == s[i - 1];
      }
    }
  }

  lemma SlotTaken(slots: seq<Option<Skb>>, head: nat, tail: nat, skb: Skb)
    requires head < |slots| && tail < |slots| && Next(head, |slots|) != tail
    requires AllSome(Occupied(slots, head, tail))
    ensures var after := Occupied(slots[head := Some(skb)], Next(head, |slots|), tail);
      AllSome(after) && Values(after) == Values(Occupied(slots, head, tail)) + [skb]
  {
    OccupiedPush(slots, head, tail, Some(skb));
    ValuesPush(Occupied(slots, head, tail), skb);
  }

  class CtrlRing {
    const slots: array<Option<Skb>>
    var head: nat
    var tail: nat

    ghost predicate Valid()
      reads this, slots
    {
      && slots.Length == CTRL_Q_CAP && head < CTRL_Q_CAP && tail < CTRL_Q_CAP
      && AllSome(Occupied(slots[..], head, tail))
    }

    function Queue(): (q: seq<Skb>)
      requires Valid()
      reads this, slots
      ensures |q| < CTRL_Q_CAP
    {
      Values(Occupied(slots[..], head, tail))
    }

    constructor ()
      ensures Valid() && Queue() == [] && fresh(slots)
    {
      slots := new Option<Skb>[CTRL_Q_CAP](_ => None);
      head, tail := 0, 0;
    }

    method Enqueue(skb: Skb) returns (ok: bool)
      requires Valid()
      modifies this`head, slots
      ensures Valid() && Queue() == EnqueueTo(old(Queue()), skb)
      ensures ok == (|old(Queue())| < 7)
      ensures Queue() == if ok then old(Queue()) + [skb] else old(Queue())
    {
      ghost var was := slots[..];
      var next := (head + 1) % CTRL_Q_CAP;
      assert next == Next(head, CTRL_Q_CAP);
      OccupiedSize(was, head, tail);
      ok := next != tail;
      if ok {
        SlotTaken(was, head, tail, skb);
        slots[head] := Some(skb);
        assert slots[..] == was[head := Some(skb)];
        head := next;
      }
    }

    method Dequeue() returns (r: Option<Skb>)
      requires Valid()
      modifies this`tail, slots
      ensures Valid()
      ensures r.None? <==> old(Queue()) == []
      ensures r.None? ==> Queue() == old(Queue())
      ensures r.Some? ==> old(Queue()) == [r.value] + Queue()
    {
      if head == tail {
        return None;
      }
      ghost var was, next := slots[..], Next(tail, CTRL_Q_CAP);
      ghost var left := Occupied(was[tail := None], head, next);
      OccupiedPop(was, head, tail, None);
      ValuesPop(was[tail], left);
      r := slots[tail];
      slots[tail] := None;
      assert slots[..] == was[tail := None];
      tail := (tail + 1) % CTRL_Q_CAP;
      assert tail == next;
    }
  }

  // ---------------------------------------------------------------------------
  // Whole runs
  // ---------------------------------------------------------------------------

  datatype RingOp = Emit(event: Event) | Read

  /** A run of the event queue, with everything emitted and read so far. */
  datatype Log = Log(queue: seq<Event>, emitted: seq<Event>, read: seq<Event>, dropped: nat)

  function RunOp(l: Log, op: RingOp): Log {
    match op
    case Emit(e) =>
      l.(queue := EmitTo(l.queue, e),
         emitted := l.emitted + [e],
         dropped := l.dropped + (if EventsFull(l.queue) then 1 else 0))
    case Read =>
      if l.queue == [] then l
      else l.(queue := l.queue[1..], read := l.read + [l.queue[0]])
  }

  function RunOps(ops: seq<RingOp>): Log {
    if ops == [] then Log([], [], [], 0)
    else RunOp(RunOps(ops[..|ops| - 1]), ops[|ops| - 1])
  }

  /** Conservation: every event emitted was read, is queued, or was counted as
      dropped; and as long as nothing was dropped the ring is an exact FIFO. */
  lemma {:induction false} EventsConserved(ops: seq<RingOp>)
    ensures var l := RunOps(ops);
      && |l.emitted| == |l.read| + |l.queue| + l.dropped
      && |l.queue| < EVENT_QUEUE_CAP
      && (l.dropped == 0 ==> l.read + l.queue == l.emitted)
  {
    if ops != [] {
      EventsConserved(ops[..|ops| - 1]);
      var l := RunOps(ops[..|ops| - 1]);
      match ops[|ops| - 1]
      case Emit(e) =>
        assert !EventsFull(l.queue) ==> l.read + (l.queue + [e]) == (l.read + l.queue) + [e];
      case Read =>
        if l.queue != [] {
          assert l.queue == [l.queue[0]] + l.queue[1..];
          Assoc(l.read, [l.queue[0]], l.queue[1..]);
        }
    }
  }
}
