/** The accounting client's identifiers (src/auth/accounting.rs): the scan for a free one,
    and the life of a slot from the send that takes it to the reply and the reclaim. */
module AcctIds {
  import opened Bytes

  const IDS: nat := 256

  /** One identifier looked at by the scan: granted, or passed over as in flight. */
  datatype Visit = Visit(id: byte, granted: bool)

  /** A peer's slots. A transaction is named by the position of its grant in `visits`;
      `inflight` says whose slot each identifier is, `held` who has not reclaimed yet. */
  datatype Peer = Peer(nextId: byte, inflight: map<byte, nat>, held: set<nat>, visits: seq<Visit>)

  const FRESH := Peer(0, map[], {}, [])

  function Follows(id: byte): byte {
    (id + 1) % 256
  }

  /** The scan, `left` identifiers still to look at. */
  function Scan(p: Peer, left: nat): (Peer, Option<byte>)
    decreases left
  {
    if left == 0 then (p, None)
    else
      var free := p.nextId !in p.inflight;
      var q := p.(nextId := Follows(p.nextId), visits := p.visits + [Visit(p.nextId, free)]);
      if free then (q, Some(p.nextId)) else Scan(q, left - 1)
  }

  class PeerState {
    var nextId: byte
    var inflight: map<byte, nat>
    ghost var held: set<nat>
    ghost var visits: seq<Visit>

    ghost function View(): Peer
      reads this
    {
      Peer(nextId, inflight, held, visits)
    }

    constructor ()
      ensures View() == FRESH
    {
      nextId, inflight, held, visits := 0, map[], {}, [];
    }

    /** The first free identifier at or after `nextId` in cyclic order; none exactly when
        all 256 are in flight. */
    method Allocate() returns (id: Option<byte>)
      modifies this
      ensures (View(), id) == Scan(old(View()), IDS)
      ensures inflight == old(inflight)
      ensures id.None? <==> forall x: byte :: x in inflight
      ensures id.Some? ==> exists k: nat :: k < IDS && FirstFree(old(nextId), inflight, k) && id.value == Cyclic(old(nextId), k)
    {
      ScanIsFirstFree(View());
      for i := 0 to IDS
        invariant inflight == old(inflight)
        invariant Scan(old(View()), IDS) == Scan(View(), IDS - i)
      {
        var candidate := nextId;
        nextId := Follows(nextId);
        visits := visits + [Visit(candidate, candidate !in inflight)];
        if candidate !in inflight {
          return Some(candidate);
        }
      }
      id := None;
    }
  }

  /** The identifier `k` places after `from`. */
  function Cyclic(from: byte, k: nat): byte {
    (from + k) % 256
  }

  ghost predicate FirstFree(from: byte, inflight: map<byte, nat>, k: nat) {
    Cyclic(from, k) !in inflight && forall j: nat :: j < k ==> Cyclic(from, j) in inflight
  }

  lemma AllSeen(from: byte, inflight: map<byte, nat>)
    requires forall j: nat :: j < IDS ==> Cyclic(from, j) in inflight
    ensures forall x: byte :: x in inflight
  {
    forall x: byte
      ensures x in inflight
    {
      var a: int, b: int := x, from;
      assert Cyclic(from, (a - b) % 256) == x;
    }
  }

  lemma {:induction false} ScanFinds(p: Peer, left: nat)
    ensures var id := Scan(p, left).1;
      if id.None? then forall j: nat :: j < left ==> Cyclic(p.nextId, j) in p.inflight
      else exists k: nat :: k < left && FirstFree(p.nextId, p.inflight, k) && id.value == Cyclic(p.nextId, k)
    decreases left
  {
    if left > 0 {
      assert Cyclic(p.nextId, 0) == p.nextId;
      if p.nextId !in p.inflight {
        assert FirstFree(p.nextId, p.inflight, 0);
      } else {
        var q := p.(nextId := Follows(p.nextId), visits := p.visits + [Visit(p.nextId, false)]);
        ScanFinds(q, left - 1);
        ShiftOne(p.nextId, p.inflight, left - 1, Scan(q, left - 1).1);
      }
    }
  }

  /** From the next identifier on to this one. */
  lemma ShiftOne(from: byte, inflight: map<byte, nat>, left: nat, id: Option<byte>)
    requires from in inflight
    requires if id.None? then forall j: nat :: j < left ==> Cyclic(Follows(from), j) in inflight
      else exists k: nat :: k < left && FirstFree(Follows(from), inflight, k) && id.value == Cyclic(Follows(from), k)
    ensures if id.None? then forall j: nat :: j < left + 1 ==> Cyclic(from, j) in inflight
      else exists k: nat :: k < left + 1 && FirstFree(from, inflight, k) && id.value == Cyclic(from, k)
  {
    assert Cyclic(from, 0) == from;
    assert forall j: nat :: j > 0 ==> Cyclic(from, j) == Cyclic(Follows(from), j - 1);
    if id.Some? {
      var k: nat :| k < left && FirstFree(Follows(from), inflight, k) && id.value == Cyclic(Follows(from), k);
      assert FirstFree(from, inflight, k + 1);
    }
  }

  lemma ScanIsFirstFree(p: Peer)
    ensures var id := Scan(p, IDS).1;
      && (id.None? <==> forall x: byte :: x in p.inflight)
      && (id.Some? ==> exists k: nat :: k < IDS && FirstFree(p.nextId, p.inflight, k) && id.value == Cyclic(p.nextId, k))
  {
    ScanFinds(p, IDS);
    if Scan(p, IDS).1.None? {
      AllSeen(p.nextId, p.inflight);
    }
  }

  // ---------------------------------------------------------------------------
  // Transactions
  // ---------------------------------------------------------------------------

  /** `send` takes a slot, a datagram frees one, and every transaction reclaims in the end. */
  datatype Op = Send | Reply(id: byte) | Reclaim(txn: nat)

  predicate Enabled(p: Peer, op: Op) {
    op.Reclaim? ==> op.txn in p.held
  }

  function SendNext(p: Peer): Peer {
    var (q, id) := Scan(p, IDS);
    if id.None? then q
    else
      var txn := if |q.visits| == 0 then 0 else |q.visits| - 1;
      q.(inflight := q.inflight[id.value := txn], held := q.held + {txn})
  }

  function Next(p: Peer, op: Op): Peer {
    match op
    case Send => SendNext(p)
    case Reply(id) => p.(inflight := p.inflight - {id})
    case Reclaim(txn) =>
      if txn < |p.visits| then p.(inflight := p.inflight - {p.visits[txn].id}, held := p.held - {txn}) else p
  }

  ghost predicate Run(p: Peer, ops: seq<Op>, q: Peer)
    decreases |ops|
  {
    if ops == [] then p == q else Enabled(p, ops[0]) && Run(Next(p, ops[0]), ops[1..], q)
  }

  /** The scan goes round and round: visit `i` is of identifier `i` modulo 256. */
  ghost predicate Round(p: Peer) {
    && p.nextId == |p.visits| % IDS
    && (forall i :: 0 <= i < |p.visits| ==> p.visits[i].id == i % IDS)
  }

  ghost predicate Owned(p: Peer) {
    && (forall id <- p.inflight.Keys ::
         p.inflight[id] < |p.visits| && p.visits[p.inflight[id]] == Visit(id, true))
    && (forall t <- p.held :: t < |p.visits| && p.visits[t].granted)
  }

  /** A slot belongs to the last transaction that was granted its identifier. */
  ghost predicate Latest(p: Peer) {
    forall id <- p.inflight.Keys, i :: p.inflight[id] < i < |p.visits| && p.visits[i].id == id ==> !p.visits[i].granted
  }

  ghost predicate Inv(p: Peer) {
    Round(p) && Owned(p) && Latest(p)
  }

  /** One look of the scan. */
  function Looked(p: Peer): Peer {
    p.(nextId := Follows(p.nextId), visits := p.visits + [Visit(p.nextId, p.nextId !in p.inflight)])
  }

  lemma LookKeepsRound(p: Peer)
    requires Round(p)
    ensures Round(Looked(p))
  {
    assert |Looked(p).visits| % IDS == Follows(p.nextId);
  }

  lemma LookKeeps(p: Peer)
    requires Inv(p)
    ensures Inv(Looked(p))
  {
    LookKeepsRound(p);
  }

  lemma {:induction false} ScanKeeps(p: Peer, left: nat)
    requires Inv(p)
    ensures var (q, id) := Scan(p, left);
      && Inv(q) && q.inflight == p.inflight && q.held == p.held && p.visits <= q.visits
      && (id.Some? ==> |q.visits| > |p.visits| && q.visits[|q.visits| - 1] == Visit(id.value, true))
    decreases left
  {
    if left > 0 {
      LookKeeps(p);
      if p.nextId in p.inflight {
        ScanKeeps(Looked(p), left - 1);
      }
    }
  }

  lemma SendKeeps(p: Peer)
    requires Inv(p)
    ensures Inv(SendNext(p))
  {
    ScanKeeps(p, IDS);
    var (q, id) := Scan(p, IDS);
    if id.Some? {
      GrantKeeps(q, id.value);
    }
  }

  lemma GrantKeeps(q: Peer, id: byte)
    requires Inv(q) && |q.visits| > 0 && q.visits[|q.visits| - 1] == Visit(id, true)
    ensures var txn := |q.visits| - 1;
      Inv(q.(inflight := q.inflight[id := txn], held := q.held + {txn}))
  {
  }

  lemma FreeKeeps(p: Peer, id: byte, held: set<nat>)
    requires Inv(p) && held <= p.held
    ensures Inv(p.(inflight := p.inflight - {id}, held := held))
  {
  }

  lemma InvKept(p: Peer, op: Op)
    requires Inv(p) && Enabled(p, op)
    ensures Inv(Next(p, op))
  {
    match op
    case Send => SendKeeps(p);
    case Reply(id) => FreeKeeps(p, id, p.held);
    case Reclaim(txn) =>
      if txn < |p.visits| {
        FreeKeeps(p, p.visits[txn].id, p.held - {txn});
      }
  }

  lemma {:induction false} InvAlong(p: Peer, ops: seq<Op>, q: Peer)
    requires Inv(p) && Run(p, ops, q)
    ensures Inv(q)
    decreases |ops|
  {
    if ops != [] {
      InvKept(p, ops[0]);
      InvAlong(Next(p, ops[0]), ops[1..], q);
    }
  }

  ghost predicate VisitedBetween(p: Peer, i: nat, j: nat, x: byte) {
    exists k :: i < k <= j && k < |p.visits| && p.visits[k].id == x
  }

  /** Every identifier was granted or seen in flight after visit `i`, up to `j`. */
  ghost predicate Swept(p: Peer, i: nat, j: nat) {
    forall x: byte :: VisitedBetween(p, i, j, x)
  }

  lemma Congruent(i: nat, j: nat)
    requires i < j && i % IDS == j % IDS
    ensures j - i >= IDS
  {
  }

  lemma NextMultiple(i: nat, x: byte) returns (k: nat)
    ensures i < k <= i + IDS && k % IDS == x
  {
    var r := i % IDS;
    var a: int := x;
    k := if a > r then i - r + a else i - r + IDS + a;
  }

  lemma SameIdMeansSweep(p: Peer, i: nat, j: nat)
    requires Round(p) && i < j < |p.visits| && p.visits[i].id == p.visits[j].id
    ensures j - i >= IDS && Swept(p, i, j)
  {
    Congruent(i, j);
    forall x: byte
      ensures VisitedBetween(p, i, j, x)
    {
      var k := NextMultiple(i, x);
      assert p.visits[k].id == x;
    }
  }

  /** The identifier was granted again after visit `t`. */
  ghost predicate GrantedAfter(p: Peer, t: nat, id: byte) {
    exists j :: t < j < |p.visits| && p.visits[j] == Visit(id, true)
  }

  /** In every run: between two grants of one identifier each of the 256 was granted or
      seen in flight; a reclaim takes another transaction's slot if and only if its
      identifier was granted again, and then that one is later and such a sweep came between. */
  lemma ReclaimHitsOthersOnlyAfterASweep(ops: seq<Op>, p: Peer)
    requires Run(FRESH, ops, p)
    ensures forall i, j :: 0 <= i < j < |p.visits| && p.visits[i].granted && p.visits[j] == p.visits[i] ==> Swept(p, i, j)
    ensures forall t <- p.held :: t < |p.visits| && var id := p.visits[t].id;
      id in p.inflight && p.inflight[id] != t ==> p.inflight[id] > t && Swept(p, t, p.inflight[id])
    ensures forall t <- p.held :: t < |p.visits| && var id := p.visits[t].id;
      id in p.inflight ==> (p.inflight[id] != t <==> GrantedAfter(p, t, id))
  {
    InvAlong(FRESH, ops, p);
    forall i, j | 0 <= i < j < |p.visits| && p.visits[j] == p.visits[i]
      ensures Swept(p, i, j)
    {
      SameIdMeansSweep(p, i, j);
    }
    forall t <- p.held
      ensures t < |p.visits| && var id := p.visits[t].id;
        id in p.inflight && p.inflight[id] != t ==> p.inflight[id] > t && Swept(p, t, p.inflight[id])
    {
      var id := p.visits[t].id;
      if id in p.inflight && p.inflight[id] != t {
        assert !(p.inflight[id] < t);
        SameIdMeansSweep(p, t, p.inflight[id]);
      }
    }
  }

  // ---------------------------------------------------------------------------
  // It does happen
  // ---------------------------------------------------------------------------

  /** The first transaction's reply has come in but it has not reclaimed yet, and the
      transactions after it, `n` with it, are all still waiting. */
  ghost predicate Waiting(p: Peer, n: nat) {
    && Round(p) && |p.visits| == n && 0 in p.held
    && (forall x: byte :: x in p.inflight <==> 0 < x < n)
    && n > 0 && p.visits[0] == Visit(0, true)
  }

  lemma SendGrantsNext(p: Peer, n: nat)
    requires Waiting(p, n) && n <= IDS
    ensures var q := SendNext(p);
      && |q.visits| == n + 1 && q.visits == p.visits + [Visit(p.nextId, true)]
      && q.nextId == Follows(p.nextId) && q.held == p.held + {n}
      && q.inflight == p.inflight[p.nextId := n]
  {
    assert p.nextId !in p.inflight;
  }

  lemma RoundPush(p: Peer, q: Peer)
    requires Round(p) && q.visits == p.visits + [Visit(p.nextId, true)] && q.nextId == Follows(p.nextId)
    ensures Round(q)
  {
  }

  lemma SendKeepsWaiting(p: Peer, n: nat)
    requires Waiting(p, n) && n < IDS
    ensures Waiting(SendNext(p), n + 1)
  {
    SendGrantsNext(p, n);
    var q := SendNext(p);
    assert p.nextId == n && q.visits[0] == p.visits[0];
    assert q.nextId == (n + 1) % IDS;
    RoundPush(p, q);
  }

  lemma {:induction false} KeepSending(p: Peer, n: nat) returns (ops: seq<Op>, q: Peer)
    requires Waiting(p, n) && n <= IDS
    ensures Run(p, ops, q) && Waiting(q, IDS)
    decreases IDS - n
  {
    if n == IDS {
      ops, q := [], p;
    } else {
      SendKeepsWaiting(p, n);
      var mid := SendNext(p);
      var rest;
      rest, q := KeepSending(mid, n + 1);
      ops := [Send] + rest;
      assert ops[1..] == rest;
    }
  }

  lemma {:induction false} RunPush(p: Peer, ops: seq<Op>, q: Peer, op: Op)
    requires Run(p, ops, q) && Enabled(q, op)
    ensures Run(p, ops + [op], Next(q, op))
    decreases |ops|
  {
    if ops == [] {
      assert ops + [op] == [op] && [op][1..] == [];
      assert Run(Next(q, op), [], Next(q, op));
    } else {
      RunPush(Next(p, ops[0]), ops[1..], q, op);
      assert (ops + [op])[1..] == ops[1..] + [op];
    }
  }

  /** There is such a run: the first transaction, slow to reclaim after its reply, takes
      away the slot of the 257th, which was given the same identifier. */
  lemma ReclaimCanHitALaterTransaction() returns (ops: seq<Op>, p: Peer)
    ensures Run(FRESH, ops, p) && 0 in p.held && 0 in p.inflight && p.inflight[0] == IDS
    ensures Enabled(p, Reclaim(0)) && 0 !in Next(p, Reclaim(0)).inflight
  {
    var p1 := SendNext(FRESH);
    assert p1 == Peer(1, map[0 := 0], {0}, [Visit(0, true)]);
    var p2 := Next(p1, Reply(0));
    assert p2 == Peer(1, map[], {0}, [Visit(0, true)]);
    var rest, q := KeepSending(p2, 1);
    SendGrantsNext(q, IDS);
    RunPush(p2, rest, q, Send);
    p := SendNext(q);
    ops := [Send] + ([Reply(0)] + (rest + [Send]));
    assert ops[1..] == [Reply(0)] + (rest + [Send]) && ([Reply(0)] + (rest + [Send]))[1..] == rest + [Send];
    assert Run(p1, [Reply(0)] + (rest + [Send]), p);
    assert p.visits[0] == q.visits[0];
  }
}
