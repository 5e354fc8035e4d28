/** The accounting records of one session (src/session.rs): Start when the data path comes
    up, Interim-Updates, and the Stop that the guard sends when the session's task ends;
    and the split of a 64-bit octet count into attributes (src/auth/accounting.rs). */
module AcctTrace {
  import opened Bytes

  const U64_LIMIT: nat := 0x1_0000_0000_0000_0000

  /** What the kernel reports for the interface. */
  datatype Stats = Stats(rxPackets: nat, txPackets: nat, rxBytes: nat, txBytes: nat)

  datatype Counters = Counters(
    sessionTime: nat, inputOctets: nat, outputOctets: nat, inputPackets: nat, outputPackets: nat)

  const ZERO := Counters(0, 0, 0, 0, 0)

  datatype Kind = Start | Interim | Stop(cause: nat)

  datatype Record = Record(user: string, kind: Kind, counters: Counters)

  datatype Active = Active(user: string, last: Counters)

  datatype Session = Session(
    configured: bool, attached: bool, pendingUser: Option<string>, active: Option<Active>, records: seq<Record>)

  /** What drives it. A sample is taken with the seconds since Start. */
  datatype Input =
    | Accepted(user: string)
    | NetworkUp(broughtUp: bool)
    | InterimDue(elapsed: nat, sample: Option<Stats>)
    | Finish(elapsed: nat, sample: Option<Stats>, cause: nat)

  function New(configured: bool): Session {
    Session(configured, false, None, None, [])
  }

  /** A failed sample reuses the last counters, with the time brought up to date. */
  function Sample(elapsed: nat, sample: Option<Stats>, fallback: Counters): Counters {
    var time := elapsed % U32_LIMIT;
    match sample
    case Some(st) => Counters(time, st.rxBytes, st.txBytes, st.rxPackets % U32_LIMIT, st.txPackets % U32_LIMIT)
    case None => fallback.(sessionTime := time)
  }

  function Step(s: Session, input: Input): Session {
    match input
    case Accepted(user) => s.(pendingUser := Some(user))
    case NetworkUp(broughtUp) =>
      if s.attached || !broughtUp then s
      else if s.pendingUser.Some? && s.configured then
        s.(attached := true, pendingUser := None,
           active := Some(Active(s.pendingUser.value, ZERO)),
           records := s.records + [Record(s.pendingUser.value, Start, ZERO)])
      else s.(attached := true, pendingUser := None)
    case InterimDue(elapsed, sample) =>
      if s.active.None? || !s.configured then s
      else
        var c := Sample(elapsed, sample, s.active.value.last);
        s.(active := Some(s.active.value.(last := c)),
           records := s.records + [Record(s.active.value.user, Interim, c)])
    case Finish(elapsed, sample, cause) =>
      if s.active.None? || !s.configured then s.(active := None)
      else
        var c := Sample(elapsed, sample, s.active.value.last);
        s.(active := None, records := s.records + [Record(s.active.value.user, Stop(cause), c)])
  }

  /** The session's variables and the calls on them. */
  class SessionAccounting {
    const configured: bool
    var attached: bool
    var pendingUser: Option<string>
    var active: Option<Active>
    /** What was handed to the accounting client. */
    var records: seq<Record>

    ghost function View(): Session
      reads this
    {
      Session(configured, attached, pendingUser, active, records)
    }

    constructor (configured: bool)
      ensures View() == New(configured)
    {
      this.configured := configured;
      attached, pendingUser, active, records := false, None, None, [];
    }

    method OnAccept(user: string)
      modifies this
      ensures View() == Step(old(View()), Accepted(user))
    {
      pendingUser := Some(user);
    }

    method OnNetworkUp(broughtUp: bool)
      modifies this
      ensures View() == Step(old(View()), NetworkUp(broughtUp))
    {
      if attached || !broughtUp {
        return;
      }
      attached := true;
      var user := pendingUser;
      pendingUser := None;
      if user.Some? && configured {
        records := records + [Record(user.value, Start, ZERO)];
        active := Some(Active(user.value, ZERO));
      }
    }

    method OnInterimDue(elapsed: nat, sample: Option<Stats>)
      modifies this
      ensures View() == Step(old(View()), InterimDue(elapsed, sample))
    {
      if active.Some? && configured {
        var counters := Sample(elapsed, sample, active.value.last);
        active := Some(active.value.(last := counters));
        records := records + [Record(active.value.user, Interim, counters)];
      }
    }

    /** The guard: takes the state, so it can fire once. */
    method Drop(elapsed: nat, sample: Option<Stats>, cause: nat)
      modifies this
      ensures View() == Step(old(View()), Finish(elapsed, sample, cause))
      ensures active.None?
    {
      var state := active;
      active := None;
      if state.Some? && configured {
        var counters := Sample(elapsed, sample, state.value.last);
        records := records + [Record(state.value.user, Stop(cause), counters)];
      }
    }
  }

  // ---------------------------------------------------------------------------
  // Runs
  // ---------------------------------------------------------------------------

  function RunOf(s: Session, inputs: seq<Input>): Session
    decreases |inputs|
  {
    if inputs == [] then s else RunOf(Step(s, inputs[0]), inputs[1..])
  }

  /** What has been seen of the clock and the kernel's byte counters. */
  datatype Seen = Seen(elapsed: nat, rx: nat, tx: nat)

  predicate Sampling(i: Input) {
    i.InterimDue? || i.Finish?
  }

  function See(seen: Seen, i: Input): Seen {
    if !Sampling(i) then seen
    else if i.sample.None? then seen.(elapsed := i.elapsed)
    else Seen(i.elapsed, i.sample.value.rxBytes, i.sample.value.txBytes)
  }

  /** Neither the clock nor the kernel's counters go back, and the session is shorter than
      2^32 seconds. */
  ghost predicate Forward(seen: Seen, inputs: seq<Input>)
    decreases |inputs|
  {
    if inputs == [] then true
    else
      var next := See(seen, inputs[0]);
      && seen.elapsed <= next.elapsed < U32_LIMIT && seen.rx <= next.rx && seen.tx <= next.tx
      && Forward(next, inputs[1..])
  }

  predicate NotAfter(a: Counters, b: Counters) {
    a.sessionTime <= b.sessionTime && a.inputOctets <= b.inputOctets && a.outputOctets <= b.outputOctets
  }

  /** Start, then Interims, all of one user. */
  ghost predicate Underway(rs: seq<Record>, user: string) {
    && |rs| > 0 && rs[0] == Record(user, Start, ZERO)
    && forall i :: 0 < i < |rs| ==> rs[i].kind.Interim? && rs[i].user == user
  }

  /** The same, closed by one Stop. */
  ghost predicate Complete(rs: seq<Record>) {
    var n := |rs| - 1;
    n > 0 && rs[n].kind.Stop? && Underway(rs[..n], rs[n].user)
  }

  ghost predicate NeverBack(rs: seq<Record>) {
    forall i, j :: 0 <= i < j < |rs| ==> NotAfter(rs[i].counters, rs[j].counters)
  }

  ghost predicate Shape(s: Session) {
    match s.active
    case None => s.records == []
    case Some(a) => s.attached && s.configured && Underway(s.records, a.user) && s.records[|s.records| - 1].counters == a.last
  }

  ghost predicate Ordered(s: Session, seen: Seen) {
    NeverBack(s.records) && (s.active.Some? ==> NotAfter(s.active.value.last, Counters(seen.elapsed, seen.rx, seen.tx, 0, 0)))
  }

  lemma ShapeKept(s: Session, input: Input)
    requires Shape(s) && !input.Finish?
    ensures Shape(Step(s, input))
  {
  }

  lemma PushKeepsOrder(rs: seq<Record>, r: Record)
    requires NeverBack(rs) && (|rs| > 0 ==> NotAfter(rs[|rs| - 1].counters, r.counters))
    ensures NeverBack(rs + [r])
  {
  }

  lemma SampleKeepsOrder(s: Session, seen: Seen, input: Input)
    requires Shape(s) && Ordered(s, seen) && s.active.Some? && Sampling(input)
    requires var next := See(seen, input); seen.elapsed <= next.elapsed < U32_LIMIT && seen.rx <= next.rx && seen.tx <= next.tx
    ensures var c, next := Sample(input.elapsed, input.sample, s.active.value.last), See(seen, input);
      NotAfter(s.active.value.last, c) && NotAfter(c, Counters(next.elapsed, next.rx, next.tx, 0, 0))
  {
  }

  lemma OrderKept(s: Session, seen: Seen, input: Input)
    requires Shape(s) && Ordered(s, seen)
    requires var next := See(seen, input); seen.elapsed <= next.elapsed < U32_LIMIT && seen.rx <= next.rx && seen.tx <= next.tx
    ensures Ordered(Step(s, input), See(seen, input))
  {
    if Sampling(input) && s.active.Some? {
      SampleKeepsOrder(s, seen, input);
      var c := Sample(input.elapsed, input.sample, s.active.value.last);
      PushKeepsOrder(s.records, Record(s.active.value.user, if input.Finish? then Stop(input.cause) else Interim, c));
    } else if input.NetworkUp? && s.active.None? && s.pendingUser.Some? {
      PushKeepsOrder(s.records, Record(s.pendingUser.value, Start, ZERO));
    }
  }

  lemma {:induction false} Along(s: Session, inputs: seq<Input>, seen: Seen) returns (end: Seen)
    requires Shape(s) && forall i <- inputs :: !i.Finish?
    ensures Shape(RunOf(s, inputs))
    ensures Ordered(s, seen) && Forward(seen, inputs) ==> Ordered(RunOf(s, inputs), end)
    ensures forall last :: Forward(seen, inputs + [last]) ==> Forward(seen, inputs) && Forward(end, [last])
    decreases |inputs|
  {
    if inputs == [] {
      end := seen;
      forall last
        ensures Forward(seen, inputs + [last]) ==> Forward(end, [last])
      {
        assert inputs + [last] == [last];
      }
    } else {
      ShapeKept(s, inputs[0]);
      var next := See(seen, inputs[0]);
      end := Along(Step(s, inputs[0]), inputs[1..], next);
      if Ordered(s, seen) && Forward(seen, inputs) {
        OrderKept(s, seen, inputs[0]);
      }
      forall last | Forward(seen, inputs + [last])
        ensures Forward(seen, inputs) && Forward(end, [last])
      {
        assert (inputs + [last])[0] == inputs[0] && (inputs + [last])[1..] == inputs[1..] + [last];
      }
    }
  }

  lemma {:induction false} RunPush(s: Session, inputs: seq<Input>, last: Input)
    ensures RunOf(s, inputs + [last]) == Step(RunOf(s, inputs), last)
    decreases |inputs|
  {
    if inputs == [] {
      assert inputs + [last] == [last] && [last][1..] == [];
      assert RunOf(Step(s, last), []) == Step(s, last);
    } else {
      RunPush(Step(s, inputs[0]), inputs[1..], last);
      assert (inputs + [last])[1..] == inputs[1..] + [last];
    }
  }

  /** Where the data path first comes up, or the end. */
  function FirstUp(inputs: seq<Input>): (k: nat)
    ensures k <= |inputs| && (k < |inputs| ==> inputs[k] == NetworkUp(true))
    ensures forall j :: 0 <= j < k ==> inputs[j] != NetworkUp(true)
  {
    if inputs == [] then 0
    else
      var k := FirstUp(inputs[..|inputs| - 1]);
      if k < |inputs| - 1 || inputs[|inputs| - 1] == NetworkUp(true) then k else |inputs|
  }

  function LastUser(inputs: seq<Input>): Option<string> {
    if inputs == [] then None
    else if inputs[|inputs| - 1].Accepted? then Some(inputs[|inputs| - 1].user)
    else LastUser(inputs[..|inputs| - 1])
  }

  /** Whom a session is billed to: the last user accepted before the data path came up. */
  function Billed(configured: bool, inputs: seq<Input>): Option<string> {
    var k := FirstUp(inputs);
    if configured && k < |inputs| then LastUser(inputs[..k]) else None
  }

  /** The input brings a sample. */
  predicate Measures(i: Input) {
    Sampling(i) && i.sample.Some?
  }

  /** Input `j` brought the last sample at or after `from` and up to `i`. */
  ghost predicate LastSample(all: seq<Input>, from: nat, i: int, j: int) {
    && from <= j <= i < |all| && Measures(all[j])
    && forall k :: j < k <= i ==> !Measures(all[k])
  }

  /** Octets and packets are those of the last sample, the packets in 32 bits; zero before the
      first. */
  ghost predicate Shows(c: Counters, all: seq<Input>, from: nat, i: int) {
    && (forall j :: LastSample(all, from, i, j) ==>
          var st := all[j].sample.value;
          && c.inputOctets == st.rxBytes && c.outputOctets == st.txBytes
          && c.inputPackets == st.rxPackets % 0x1_0000_0000 && c.outputPackets == st.txPackets % 0x1_0000_0000)
    && ((forall j :: from <= j <= i && j < |all| ==> !Measures(all[j])) ==>
          c.inputOctets == 0 && c.outputOctets == 0 && c.inputPackets == 0 && c.outputPackets == 0)
  }

  /** The updates after `from`, by their place in the input. */
  function Updates(all: seq<Input>, from: nat): (r: seq<nat>)
    ensures forall k :: 0 <= k < |r| ==> from <= r[k] < |all| && Sampling(all[r[k]])
  {
    if |all| <= from then []
    else
      var r := Updates(all[..|all| - 1], from);
      if Sampling(all[|all| - 1]) then r + [|all| - 1] else r
  }

  /** The Start is all zero; each later record shows the reading at its own update, and its
      time in 32 bits. */
  ghost predicate RecordsShow(rs: seq<Record>, all: seq<Input>, from: nat) {
    var at := Updates(all, from);
    && |rs| == 1 + |at| && rs[0].counters == Counters(0, 0, 0, 0, 0)
    && forall k :: 0 <= k < |at| ==>
         && Shows(rs[k + 1].counters, all, from, at[k])
         && rs[k + 1].counters.sessionTime == all[at[k]].elapsed % 0x1_0000_0000
  }

  lemma SameBefore(all: seq<Input>, x: Input, from: nat, i: int, j: int)
    requires i < |all|
    ensures LastSample(all + [x], from, i, j) <==> LastSample(all, from, i, j)
  {
    assert forall k :: 0 <= k < |all| ==> (all + [x])[k] == all[k];
  }

  lemma ShowsBefore(c: Counters, all: seq<Input>, x: Input, from: nat, i: int)
    requires Shows(c, all, from, i) && i < |all|
    ensures Shows(c, all + [x], from, i)
  {
    forall j | LastSample(all + [x], from, i, j)
      ensures LastSample(all, from, i, j)
    {
      SameBefore(all, x, from, i, j);
    }
    assert forall k :: 0 <= k < |all| ==> (all + [x])[k] == all[k];
  }

  /** Without a new sample the last reading stands. */
  lemma ShowsOn(c: Counters, all: seq<Input>, x: Input, from: nat)
    requires from <= |all| && Shows(c, all, from, |all| - 1) && !Measures(x)
    ensures Shows(c, all + [x], from, |all|)
  {
    var more := all + [x];
    assert forall k :: 0 <= k < |all| ==> more[k] == all[k];
    forall j | LastSample(more, from, |all|, j)
      ensures LastSample(all, from, |all| - 1, j)
    {
      assert j != |all|;
    }
    if forall j :: from <= j <= |all| && j < |more| ==> !Measures(more[j]) {
      assert forall j :: from <= j <= |all| - 1 && j < |all| ==> !Measures(all[j]) by {
        assert forall j :: from <= j < |all| ==> more[j] == all[j];
      }
    }
  }

  lemma SampleShows(last: Counters, all: seq<Input>, x: Input, from: nat)
    requires from <= |all| && Shows(last, all, from, |all| - 1) && Sampling(x)
    ensures var c := Sample(x.elapsed, x.sample, last);
      Shows(c, all + [x], from, |all|) && c.sessionTime == x.elapsed % 0x1_0000_0000
  {
    var c, more := Sample(x.elapsed, x.sample, last), all + [x];
    if x.sample.Some? {
      assert LastSample(more, from, |all|, |all|) && more[|all|] == x;
      forall j | LastSample(more, from, |all|, j)
        ensures j == |all|
      {
      }
    } else {
      ShowsOn(last, all, x, from);
      assert Shows(c, more, from, |all|) by {
        assert c == last.(sessionTime := c.sessionTime);
      }
    }
  }

  lemma UpdatesPush(all: seq<Input>, x: Input, from: nat)
    requires from <= |all|
    ensures Updates(all + [x], from) == if Sampling(x) then Updates(all, from) + [|all|] else Updates(all, from)
  {
    assert (all + [x])[..|all|] == all;
  }

  /** A record more for an update, and none for anything else. */
  lemma RecordsPush(rs: seq<Record>, all: seq<Input>, x: Input, from: nat, more: seq<Record>)
    requires from <= |all| && RecordsShow(rs, all, from)
    requires if Sampling(x) then |more| == |rs| + 1 && more[..|rs|] == rs && Shows(more[|rs|].counters, all + [x], from, |all|)
        && more[|rs|].counters.sessionTime == x.elapsed % 0x1_0000_0000
      else more == rs
    ensures RecordsShow(more, all + [x], from)
  {
    UpdatesPush(all, x, from);
    var at, next := Updates(all, from), Updates(all + [x], from);
    forall k | 0 <= k < |next|
      ensures Shows(more[k + 1].counters, all + [x], from, next[k])
      ensures more[k + 1].counters.sessionTime == (all + [x])[next[k]].elapsed % 0x1_0000_0000
    {
      if k < |at| {
        assert more[k + 1] == rs[k + 1] && next[k] == at[k];
        ShowsBefore(rs[k + 1].counters, all, x, from, at[k]);
      }
    }
    assert more[0] == rs[0];
  }

  ghost predicate BilledSoFar(s: Session, configured: bool, inputs: seq<Input>) {
    var k, user := FirstUp(inputs), Billed(configured, inputs);
    && s.configured == configured && s.attached == (k < |inputs|)
    && (!s.attached ==> s.pendingUser == LastUser(inputs))
    && s.active.Some? == user.Some? && (user.None? ==> s.records == [])
    && (user.Some? ==>
          && s.active.value.user == user.value && RecordsShow(s.records, inputs, k)
          && Shows(s.active.value.last, inputs, k, |inputs| - 1))
  }

  lemma PushedUp(inputs: seq<Input>, x: Input)
    ensures FirstUp(inputs + [x]) ==
      if FirstUp(inputs) < |inputs| || x == NetworkUp(true) then FirstUp(inputs) else |inputs| + 1
    ensures LastUser(inputs + [x]) == if x.Accepted? then Some(x.user) else LastUser(inputs)
  {
    assert (inputs + [x])[..|inputs|] == inputs;
  }

  lemma StartShows(inputs: seq<Input>, user: string)
    requires FirstUp(inputs) == |inputs|
    ensures var all := inputs + [NetworkUp(true)];
      RecordsShow([Record(user, Start, ZERO)], all, |inputs|) && Shows(ZERO, all, |inputs|, |inputs|)
  {
    UpdatesPush(inputs, NetworkUp(true), |inputs|);
    assert Updates(inputs, |inputs|) == [];
  }

  lemma BilledPush(s: Session, configured: bool, inputs: seq<Input>, x: Input)
    requires BilledSoFar(s, configured, inputs) && !x.Finish?
    ensures BilledSoFar(Step(s, x), configured, inputs + [x])
  {
    PushedUp(inputs, x);
    var k, all := FirstUp(inputs), inputs + [x];
    if k < |inputs| {
      assert all[..k] == inputs[..k];
      if s.active.Some? {
        ActivePush(s, inputs, x, k);
      }
    } else if x == NetworkUp(true) {
      assert all[..k] == inputs;
      if configured && s.pendingUser.Some? {
        StartShows(inputs, s.pendingUser.value);
        assert [] + [Record(s.pendingUser.value, Start, ZERO)] == [Record(s.pendingUser.value, Start, ZERO)];
      }
    }
  }

  lemma ActivePush(s: Session, inputs: seq<Input>, x: Input, k: nat)
    requires s.attached && s.configured && s.active.Some? && k < |inputs|
    requires RecordsShow(s.records, inputs, k) && Shows(s.active.value.last, inputs, k, |inputs| - 1) && !x.Finish?
    ensures var t := Step(s, x);
      && t.active.Some? && t.active.value.user == s.active.value.user && RecordsShow(t.records, inputs + [x], k)
      && Shows(t.active.value.last, inputs + [x], k, |inputs|)
  {
    var t := Step(s, x);
    if x.InterimDue? {
      SampleShows(s.active.value.last, inputs, x, k);
      RecordsPush(s.records, inputs, x, k, t.records);
    } else {
      ShowsOn(s.active.value.last, inputs, x, k);
      RecordsPush(s.records, inputs, x, k, s.records);
    }
  }

  /** One Start, an Interim for each update due after it, and one Stop, for that user, each
      with its reading; with nobody to bill, nothing. */
  ghost predicate BilledInFull(rs: seq<Record>, user: Option<string>, all: seq<Input>, cause: nat) {
    if user.None? then rs == []
    else Complete(rs) && rs[0].user == user.value && rs[|rs| - 1].kind == Stop(cause) && RecordsShow(rs, all, FirstUp(all))
  }

  lemma BilledAtTheEnd(s: Session, configured: bool, inputs: seq<Input>, last: Input)
    requires Shape(s) && BilledSoFar(s, configured, inputs) && last.Finish?
    ensures BilledInFull(Step(s, last).records, Billed(configured, inputs), inputs + [last], last.cause)
  {
    PushedUp(inputs, last);
    if s.active.Some? {
      var rs, k := Step(s, last).records, FirstUp(inputs);
      assert rs[..|rs| - 1] == s.records;
      SampleShows(s.active.value.last, inputs, last, k);
      RecordsPush(s.records, inputs, last, k, rs);
    }
  }

  lemma {:induction false} BilledAlong(configured: bool, inputs: seq<Input>)
    requires forall i <- inputs :: !i.Finish?
    ensures BilledSoFar(RunOf(New(configured), inputs), configured, inputs)
  {
    if inputs != [] {
      var init, last := inputs[..|inputs| - 1], inputs[|inputs| - 1];
      assert inputs == init + [last] && last in inputs;
      BilledAlong(configured, init);
      RunPush(New(configured), init, last);
      BilledPush(RunOf(New(configured), init), configured, init, last);
    }
  }

  /** Every session, when its task ends, has submitted exactly what it owes: nothing if nobody
      was accepted before the data path came up; otherwise one Start, an Interim for each
      update and one Stop, all for the last user accepted by then, each with the kernel's
      last reading. If clock and kernel counters never went back, no octet count or session
      time in the records does, failed samples included. */
  lemma EverySessionIsBalanced(configured: bool, inputs: seq<Input>, elapsed: nat, sample: Option<Stats>, cause: nat)
    requires forall i <- inputs :: !i.Finish?
    ensures var all := inputs + [Finish(elapsed, sample, cause)];
      var rs := RunOf(New(configured), all).records;
      BilledInFull(rs, Billed(configured, inputs), all, cause) && (Forward(Seen(0, 0, 0), all) ==> NeverBack(rs))
  {
    var last := Finish(elapsed, sample, cause);
    var s0 := New(configured);
    var seen := Along(s0, inputs, Seen(0, 0, 0));
    RunPush(s0, inputs, last);
    var s := RunOf(s0, inputs);
    if Forward(Seen(0, 0, 0), inputs + [last]) {
      assert Forward(seen, [last]);
      OrderKept(s, seen, last);
    }
    BilledAlong(configured, inputs);
    BilledAtTheEnd(s, configured, inputs, last);
  }

  /** The class, driven over any inputs, hands over those records. */
  method Account(configured: bool, inputs: seq<Input>, elapsed: nat, sample: Option<Stats>, cause: nat)
    returns (records: seq<Record>)
    requires forall i <- inputs :: !i.Finish?
    ensures var all := inputs + [Finish(elapsed, sample, cause)];
      BilledInFull(records, Billed(configured, inputs), all, cause) && (Forward(Seen(0, 0, 0), all) ==> NeverBack(records))
  {
    var acct := new SessionAccounting(configured);
    for k := 0 to |inputs|
      invariant fresh(acct) && acct.View() == RunOf(New(configured), inputs[..k])
    {
      RunPush(New(configured), inputs[..k], inputs[k]);
      assert inputs[..k] + [inputs[k]] == inputs[..k + 1] && inputs[k] in inputs;
      match inputs[k]
      case Accepted(user) => acct.OnAccept(user);
      case NetworkUp(up) => acct.OnNetworkUp(up);
      case InterimDue(e, s) => acct.OnInterimDue(e, s);
    }
    assert inputs[..|inputs|] == inputs;
    RunPush(New(configured), inputs, Finish(elapsed, sample, cause));
    EverySessionIsBalanced(configured, inputs, elapsed, sample, cause);
    acct.Drop(elapsed, sample, cause);
    records := acct.records;
  }

  // ---------------------------------------------------------------------------
  // Octets and gigawords
  // ---------------------------------------------------------------------------

  /** The two attributes; the high one is left out when zero. */
  datatype OctetAttrs = OctetAttrs(octets: nat, gigawords: Option<nat>)

  function SplitOctets(n: nat): OctetAttrs {
    OctetAttrs(n % U32_LIMIT, if n / U32_LIMIT == 0 then None else Some(n / U32_LIMIT))
  }

  /** What a server makes of them (sections 5.1 and 5.2 of RFC 2869). */
  function JoinOctets(a: OctetAttrs): nat {
    (if a.gigawords.Some? then a.gigawords.value else 0) * U32_LIMIT + a.octets
  }

  /** A 64-bit count fits the two 32-bit attributes and is recovered from them. */
  lemma OctetsRecovered(n: nat)
    requires n < U64_LIMIT
    ensures JoinOctets(SplitOctets(n)) == n
    ensures SplitOctets(n).octets < U32_LIMIT && (SplitOctets(n).gigawords.Some? ==> 0 < SplitOctets(n).gigawords.value < U32_LIMIT)
  {
  }

  /** The packet counts have no such companion: they are the kernel's only below 2^32. */
  lemma PacketsWrap(elapsed: nat, st: Stats, last: Counters)
    ensures Sample(elapsed, Some(st), last).inputPackets == st.rxPackets <==> st.rxPackets < U32_LIMIT
    ensures Sample(elapsed, Some(st), last).outputPackets == st.txPackets <==> st.txPackets < U32_LIMIT
  {
  }
}
