/** The server's verdict on a peer's IPCP options (src/ppp/driver.rs). */
module IpcpVerdict {
  import opened Bytes
  import opened PppOptions

  const IP_ADDRESS: byte := 3
  const PRIMARY_DNS: byte := 129
  const PRIMARY_NBNS: byte := 130
  const SECONDARY_DNS: byte := 131
  const SECONDARY_NBNS: byte := 132

  /** What the authentication server assigned. */
  datatype Addrs = Addrs(
    ip: Ipv4, mtu: Option<nat>,
    dns1: Option<Ipv4>, dns2: Option<Ipv4>, nbns1: Option<Ipv4>, nbns2: Option<Ipv4>)

  /** The value the server holds for an option type; types without one are rejected. */
  function Ours(addrs: Addrs, typ: byte): Option<Ipv4> {
    if typ == IP_ADDRESS then Some(addrs.ip)
    else if typ == PRIMARY_DNS then addrs.dns1
    else if typ == PRIMARY_NBNS then addrs.nbns1
    else if typ == SECONDARY_DNS then addrs.dns2
    else if typ == SECONDARY_NBNS then addrs.nbns2
    else None
  }

  predicate Fine(addrs: Addrs, o: Opt) {
    Ours(addrs, o.typ).Some? && o.value == Ours(addrs, o.typ).value
  }

  // The same in the numbers of RFC 1332 and RFC 1877: 3 is the IP address, 129 and 131 the
  // DNS servers, 130 and 132 the NBNS servers.

  /** The option is what was assigned. */
  predicate Given(addrs: Addrs, o: Opt) {
    || (o.typ == 3 && o.value == addrs.ip)
    || (o.typ == 129 && addrs.dns1 == Some(o.value))
    || (o.typ == 130 && addrs.nbns1 == Some(o.value))
    || (o.typ == 131 && addrs.dns2 == Some(o.value))
    || (o.typ == 132 && addrs.nbns2 == Some(o.value))
  }

  /** Nothing was assigned for the type. */
  predicate Unassigned(addrs: Addrs, typ: byte) {
    && typ != 3
    && (typ == 129 ==> addrs.dns1.None?) && (typ == 130 ==> addrs.nbns1.None?)
    && (typ == 131 ==> addrs.dns2.None?) && (typ == 132 ==> addrs.nbns2.None?)
  }

  /** The options nothing was assigned for, in order. */
  ghost predicate IsRejectOf(addrs: Addrs, os: seq<Opt>, rs: seq<Opt>)
    decreases |os|
  {
    if os == [] then rs == []
    else if Unassigned(addrs, os[0].typ) then rs != [] && rs[0] == os[0] && IsRejectOf(addrs, os[1..], rs[1..])
    else IsRejectOf(addrs, os[1..], rs)
  }

  /** What was assigned, for each option that differs from it, in order. */
  ghost predicate IsNakOf(addrs: Addrs, os: seq<Opt>, ns: seq<Opt>)
    decreases |os|
  {
    if os == [] then ns == []
    else if Unassigned(addrs, os[0].typ) || Given(addrs, os[0]) then IsNakOf(addrs, os[1..], ns)
    else ns != [] && ns[0].typ == os[0].typ && Given(addrs, ns[0]) && IsNakOf(addrs, os[1..], ns[1..])
  }

  lemma ByNumber(addrs: Addrs, o: Opt)
    ensures Fine(addrs, o) <==> Given(addrs, o)
    ensures Ours(addrs, o.typ).None? <==> Unassigned(addrs, o.typ)
    ensures Ours(addrs, o.typ).Some? ==> Given(addrs, Opt(o.typ, Ours(addrs, o.typ).value))
  {
  }

  lemma {:induction false} RejectOfPush(addrs: Addrs, os: seq<Opt>, rs: seq<Opt>, o: Opt)
    requires IsRejectOf(addrs, os, rs)
    ensures IsRejectOf(addrs, os + [o], if Unassigned(addrs, o.typ) then rs + [o] else rs)
    decreases |os|
  {
    var more := if Unassigned(addrs, o.typ) then rs + [o] else rs;
    if os == [] {
      assert (os + [o])[1..] == [] && more[|more|..] == [];
      assert Unassigned(addrs, o.typ) ==> more[1..] == [];
    } else {
      assert (os + [o])[1..] == os[1..] + [o];
      if Unassigned(addrs, os[0].typ) {
        RejectOfPush(addrs, os[1..], rs[1..], o);
        assert Unassigned(addrs, o.typ) ==> more[1..] == rs[1..] + [o];
      } else {
        RejectOfPush(addrs, os[1..], rs, o);
      }
    }
  }

  lemma {:induction false} NakOfPush(addrs: Addrs, os: seq<Opt>, ns: seq<Opt>, o: Opt, n: Opt)
    requires IsNakOf(addrs, os, ns)
    requires !Unassigned(addrs, o.typ) && !Given(addrs, o) ==> n.typ == o.typ && Given(addrs, n)
    ensures IsNakOf(addrs, os + [o], if Unassigned(addrs, o.typ) || Given(addrs, o) then ns else ns + [n])
    decreases |os|
  {
    var kept := Unassigned(addrs, o.typ) || Given(addrs, o);
    var more := if kept then ns else ns + [n];
    if os == [] {
      assert (os + [o])[1..] == [];
      assert !kept ==> more[1..] == [];
    } else {
      assert (os + [o])[1..] == os[1..] + [o];
      if Unassigned(addrs, os[0].typ) || Given(addrs, os[0]) {
        NakOfPush(addrs, os[1..], ns, o, n);
      } else {
        NakOfPush(addrs, os[1..], ns[1..], o, n);
        assert !kept ==> more[1..] == ns[1..] + [n];
      }
    }
  }

  function Rejects(addrs: Addrs, os: seq<Opt>): seq<Opt> {
    if os == [] then []
    else if Ours(addrs, os[|os| - 1].typ).None? then Rejects(addrs, os[..|os| - 1]) + [os[|os| - 1]]
    else Rejects(addrs, os[..|os| - 1])
  }

  function Naks(addrs: Addrs, os: seq<Opt>): seq<Opt> {
    if os == [] then []
    else
      var last := os[|os| - 1];
      if Ours(addrs, last.typ).None? || Fine(addrs, last) then Naks(addrs, os[..|os| - 1])
      else Naks(addrs, os[..|os| - 1]) + [Opt(last.typ, Ours(addrs, last.typ).value)]
  }

  /** `body` is a Reject or a Nak. */
  datatype Verdict = Verdict(good: bool, body: seq<byte>, isReject: bool)

  function Judge(addrs: Addrs, opts: seq<byte>): Verdict {
    var p := ParseOptions(opts);
    if !p.whole then Verdict(false, [], false)
    else if Rejects(addrs, p.opts) != [] then Verdict(false, EncodeOptions(Rejects(addrs, p.opts)), true)
    else if Naks(addrs, p.opts) != [] then Verdict(false, EncodeOptions(Naks(addrs, p.opts)), false)
    else Verdict(true, [], false)
  }

  lemma VerdictPush(addrs: Addrs, os: seq<Opt>, o: Opt)
    ensures Rejects(addrs, os + [o]) == (if Ours(addrs, o.typ).None? then Rejects(addrs, os) + [o] else Rejects(addrs, os))
    ensures Naks(addrs, os + [o]) == (
      if Ours(addrs, o.typ).None? || Fine(addrs, o) then Naks(addrs, os)
      else Naks(addrs, os) + [Opt(o.typ, Ours(addrs, o.typ).value)])
  {
    assert (os + [o])[..|os|] == os;
  }

  lemma EncodedEmpty(os: seq<Opt>)
    ensures EncodeOptions(os) == [] <==> os == []
  {
  }

  /** One DNS or NBNS option against the value held for it, if any. */
  method HandleOptional(o: Opt, ours: Option<Ipv4>, nak: seq<byte>, reject: seq<byte>)
    returns (nakNow: seq<byte>, rejectNow: seq<byte>)
    ensures nakNow == (if ours.Some? && o.value != ours.value then nak + EncodeOption(Opt(o.typ, ours.value)) else nak)
    ensures rejectNow == (if ours.None? then reject + EncodeOption(o) else reject)
  {
    nakNow, rejectNow := nak, reject;
    match ours
    case Some(v) =>
      if o.value != v {
        nakNow := nak + EncodeOption(Opt(o.typ, v));
      }
    case None =>
      rejectNow := reject + EncodeOption(o);
  }

  /** One option of the walk. */
  method Consider(addrs: Addrs, o: Opt, nak: seq<byte>, reject: seq<byte>)
    returns (nakNow: seq<byte>, rejectNow: seq<byte>)
    ensures nakNow == (
      if Ours(addrs, o.typ).Some? && !Fine(addrs, o) then nak + EncodeOption(Opt(o.typ, Ours(addrs, o.typ).value)) else nak)
    ensures rejectNow == (if Ours(addrs, o.typ).None? then reject + EncodeOption(o) else reject)
    ensures rejectNow == (if Unassigned(addrs, o.typ) then reject + EncodeOption(o) else reject)
    ensures if Unassigned(addrs, o.typ) || Given(addrs, o) then nakNow == nak
      else exists n: Opt :: n.typ == o.typ && Given(addrs, n) && nakNow == nak + EncodeOption(n)
  {
    ByNumber(addrs, o);
    nakNow, rejectNow := nak, reject;
    if o.typ == IP_ADDRESS {
      if o.value != addrs.ip {
        nakNow := nak + EncodeOption(Opt(IP_ADDRESS, addrs.ip));
      }
    } else if o.typ == PRIMARY_DNS {
      nakNow, rejectNow := HandleOptional(o, addrs.dns1, nak, reject);
    } else if o.typ == SECONDARY_DNS {
      nakNow, rejectNow := HandleOptional(o, addrs.dns2, nak, reject);
    } else if o.typ == PRIMARY_NBNS {
      nakNow, rejectNow := HandleOptional(o, addrs.nbns1, nak, reject);
    } else if o.typ == SECONDARY_NBNS {
      nakNow, rejectNow := HandleOptional(o, addrs.nbns2, nak, reject);
    } else {
      rejectNow := reject + EncodeOption(o);
    }
  }

  /** The walk over the list that builds both bodies; a Reject goes before a Nak. */
  method Classify(addrs: Addrs, opts: seq<byte>) returns (v: Verdict)
    ensures v == Judge(addrs, opts) && Ruled(addrs, opts, v)
  {
    RuledByNumber(addrs, opts);
    var cursor, nak, reject := opts, [], [];
    ghost var passed: seq<Opt> := [];
    PassStart(opts);
    while true
      invariant PassedBy(opts, cursor, passed)
      invariant nak == EncodeOptions(Naks(addrs, passed)) && reject == EncodeOptions(Rejects(addrs, passed))
      decreases |cursor|
    {
      var item := NextOption(cursor);
      if !item.One? {
        PassEnd(opts, cursor, passed);
        if item.Malformed? {
          return Verdict(false, [], false);
        }
        break;
      }
      var o := item.opt;
      PassOne(opts, cursor, passed);
      VerdictPush(addrs, passed, o);
      EncodePush(Rejects(addrs, passed), o);
      if Ours(addrs, o.typ).Some? {
        EncodePush(Naks(addrs, passed), Opt(o.typ, Ours(addrs, o.typ).value));
      }
      nak, reject := Consider(addrs, o, nak, reject);
      passed := passed + [o];
      cursor := cursor[item.length..];
    }
    EncodedEmpty(Rejects(addrs, passed));
    EncodedEmpty(Naks(addrs, passed));
    if reject != [] {
      v := Verdict(false, reject, true);
    } else if nak != [] {
      v := Verdict(false, nak, false);
    } else {
      v := Verdict(true, [], false);
    }
  }

  // ---------------------------------------------------------------------------
  // What the bodies contain
  // ---------------------------------------------------------------------------

  lemma {:induction false} RejectsAre(addrs: Addrs, os: seq<Opt>)
    ensures forall o :: o in Rejects(addrs, os) <==> o in os && Ours(addrs, o.typ).None?
    ensures Rejects(addrs, os) == [] <==> forall o <- os :: Ours(addrs, o.typ).Some?
    ensures IsRejectOf(addrs, os, Rejects(addrs, os))
  {
    if os != [] {
      var init, last := os[..|os| - 1], os[|os| - 1];
      RejectsAre(addrs, init);
      assert os == init + [last];
      ByNumber(addrs, last);
      RejectOfPush(addrs, init, Rejects(addrs, init), last);
    }
  }

  /** Some option of that type is off, and the Nak says what it should be. */
  ghost predicate NakFor(addrs: Addrs, os: seq<Opt>, n: Opt) {
    && Ours(addrs, n.typ) == Some(n.value)
    && exists o <- os :: o.typ == n.typ && !Fine(addrs, o)
  }

  lemma {:induction false} NaksAre(addrs: Addrs, os: seq<Opt>)
    ensures forall n <- Naks(addrs, os) :: NakFor(addrs, os, n)
    ensures forall o <- os :: Ours(addrs, o.typ).Some? && !Fine(addrs, o) ==> Opt(o.typ, Ours(addrs, o.typ).value) in Naks(addrs, os)
    ensures IsNakOf(addrs, os, Naks(addrs, os))
  {
    if os != [] {
      var init, last := os[..|os| - 1], os[|os| - 1];
      NaksAre(addrs, init);
      assert os == init + [last];
      ByNumber(addrs, last);
      var n := if Ours(addrs, last.typ).Some? then Opt(last.typ, Ours(addrs, last.typ).value) else last;
      NakOfPush(addrs, init, Naks(addrs, init), last, n);
      forall n <- Naks(addrs, os)
        ensures NakFor(addrs, os, n)
      {
        if n in Naks(addrs, init) {
          assert NakFor(addrs, init, n);
        } else {
          assert last in os && last.typ == n.typ && !Fine(addrs, last);
        }
      }
    }
  }

  /** Good means: well formed, and every option is exactly what the server holds. In
      particular a Configure-Ack, which echoes the list, carries the assigned address
      in each of its IP-Address options. */
  lemma GoodMeansAllFine(addrs: Addrs, opts: seq<byte>)
    ensures Judge(addrs, opts).good <==> ParseOptions(opts).whole && forall o <- ParseOptions(opts).opts :: Fine(addrs, o)
    ensures Judge(addrs, opts).good <==> ParseOptions(opts).whole && forall o <- ParseOptions(opts).opts :: Given(addrs, o)
  {
    var os := ParseOptions(opts).opts;
    forall o <- os
      ensures Fine(addrs, o) <==> Given(addrs, o)
    {
      ByNumber(addrs, o);
    }
    RejectsAre(addrs, os);
    NaksAre(addrs, os);
    if Naks(addrs, os) != [] {
      assert NakFor(addrs, os, Naks(addrs, os)[0]);
    }
  }

  /** A verdict in the numbers: good if every option is as assigned; else a Reject of the
      options nothing was assigned for, if there are any; else a Nak of those that differ. */
  ghost predicate Ruled(addrs: Addrs, opts: seq<byte>, v: Verdict) {
    var p := ParseOptions(opts);
    && (v.good <==> p.whole && forall o <- p.opts :: Given(addrs, o))
    && (v.isReject <==> p.whole && exists o <- p.opts :: Unassigned(addrs, o.typ))
    && (v.good || !p.whole ==> v.body == [])
    && (v.isReject ==> exists rs :: v.body == EncodeOptions(rs) && IsRejectOf(addrs, p.opts, rs))
    && (p.whole && !v.good && !v.isReject ==> exists ns :: v.body == EncodeOptions(ns) && IsNakOf(addrs, p.opts, ns))
  }

  lemma RuledByNumber(addrs: Addrs, opts: seq<byte>)
    ensures Ruled(addrs, opts, Judge(addrs, opts))
  {
    var os := ParseOptions(opts).opts;
    GoodMeansAllFine(addrs, opts);
    RejectsAre(addrs, os);
    NaksAre(addrs, os);
    forall o <- os
      ensures Ours(addrs, o.typ).None? <==> Unassigned(addrs, o.typ)
    {
      ByNumber(addrs, o);
    }
    if Rejects(addrs, os) != [] {
      assert Rejects(addrs, os)[0] in Rejects(addrs, os);
    }
  }

  // ---------------------------------------------------------------------------
  // Sizes
  // ---------------------------------------------------------------------------

  lemma {:induction false} BodySizes(addrs: Addrs, os: seq<Opt>)
    ensures |EncodeOptions(Rejects(addrs, os))| <= |EncodeOptions(os)|
    ensures |EncodeOptions(Naks(addrs, os))| <= 3 * |EncodeOptions(os)|
  {
    if os != [] {
      var init, last := os[..|os| - 1], os[|os| - 1];
      BodySizes(addrs, init);
      if Ours(addrs, last.typ).None? {
        EncodePush(Rejects(addrs, init), last);
      } else if !Fine(addrs, last) {
        EncodePush(Naks(addrs, init), Opt(last.typ, Ours(addrs, last.typ).value));
      }
    }
  }

  /** A Reject is no longer than the options, a Nak at most three times as long: with
      up to 1361 bytes of options either fits one SSTP packet. */
  lemma BodyBound(addrs: Addrs, opts: seq<byte>)
    ensures var v := Judge(addrs, opts);
      |v.body| <= if v.isReject then |opts| else 3 * |opts|
  {
    EncodeParsed(opts);
    BodySizes(addrs, ParseOptions(opts).opts);
  }

  /** The factor is attained: a peer that asks with valueless options. */
  lemma NakBoundIsTight(addrs: Addrs)
    ensures var v := Judge(addrs, [IP_ADDRESS, 2]); !v.good && |v.body| == 6
  {
    var o := Opt(IP_ADDRESS, []);
    EncodePush([], o);
    assert [] + [o] == [o] && EncodeOptions([o]) == [IP_ADDRESS, 2];
    ParseEncoded([o]);
    VerdictPush(addrs, [], o);
    EncodePush([], Opt(IP_ADDRESS, addrs.ip));
    assert [] + [Opt(IP_ADDRESS, addrs.ip)] == [Opt(IP_ADDRESS, addrs.ip)];
  }

  // ---------------------------------------------------------------------------
  // Convergence
  // ---------------------------------------------------------------------------

  /** The next request of a peer that drops rejected types and adopts Nak'd values. */
  function PeerNext(os: seq<Opt>, v: Verdict): seq<Opt> {
    if v.good then os
    else if v.isReject then Dropping(os, ParseOptions(v.body).opts)
    else Adopting(os, ParseOptions(v.body).opts)
  }

  ghost predicate NoneRejected(addrs: Addrs, os: seq<Opt>) {
    forall o <- os :: Ours(addrs, o.typ).Some?
  }

  lemma NaksEncodable(addrs: Addrs, os: seq<Opt>)
    ensures AllEncodable(Naks(addrs, os))
  {
    NaksAre(addrs, os);
    forall n <- Naks(addrs, os)
      ensures Encodable(n)
    {
      assert NakFor(addrs, os, n);
    }
  }

  lemma AfterReject(addrs: Addrs, os: seq<Opt>)
    requires AllEncodable(os) && !NoneRejected(addrs, os)
    ensures var v := Judge(addrs, EncodeOptions(os));
      && !v.good && v.isReject
      && var next := PeerNext(os, v); AllEncodable(next) && NoneRejected(addrs, next)
  {
    ParseEncoded(os);
    RejectsAre(addrs, os);
    ParseEncoded(Rejects(addrs, os));
    var next := Dropping(os, Rejects(addrs, os));
    forall o <- next
      ensures Ours(addrs, o.typ).Some?
    {
      assert o in os && o !in Rejects(addrs, os);
    }
  }

  lemma AfterNak(addrs: Addrs, os: seq<Opt>)
    requires AllEncodable(os) && NoneRejected(addrs, os)
    ensures var v := Judge(addrs, EncodeOptions(os));
      && (v.good || !v.isReject)
      && var next := PeerNext(os, v);
         AllEncodable(next) && NoneRejected(addrs, next) && Judge(addrs, EncodeOptions(next)).good
  {
    ParseEncoded(os);
    RejectsAre(addrs, os);
    if Judge(addrs, EncodeOptions(os)).good {
      return;
    }
    NaksAre(addrs, os);
    NaksEncodable(addrs, os);
    var naks := Naks(addrs, os);
    ParseEncoded(naks);
    var next := Adopting(os, naks);
    forall o <- next
      ensures Encodable(o) && Fine(addrs, o)
    {
      var i :| 0 <= i < |next| && next[i] == o;
      AdoptedIsFine(addrs, os, i);
    }
    ParseEncoded(next);
    GoodMeansAllFine(addrs, EncodeOptions(next));
  }

  lemma AdoptedIsFine(addrs: Addrs, os: seq<Opt>, i: nat)
    requires AllEncodable(os) && NoneRejected(addrs, os) && i < |os|
    ensures var o := Adopting(os, Naks(addrs, os))[i]; Encodable(o) && Fine(addrs, o)
  {
    var naks := Naks(addrs, os);
    var o := Adopting(os, naks)[i];
    NaksAre(addrs, os);
    assert os[i] in os;
    if o in naks {
      assert NakFor(addrs, os, o);
    }
  }

  /** Whatever well-formed options a peer starts from, its third request is good. */
  lemma ConvergesByTheThird(addrs: Addrs, first: seq<Opt>)
    requires AllEncodable(first)
    ensures var second := PeerNext(first, Judge(addrs, EncodeOptions(first)));
      var third := PeerNext(second, Judge(addrs, EncodeOptions(second)));
      Judge(addrs, EncodeOptions(third)).good
  {
    var second := PeerNext(first, Judge(addrs, EncodeOptions(first)));
    if NoneRejected(addrs, first) {
      AfterNak(addrs, first);
    } else {
      AfterReject(addrs, first);
      AfterNak(addrs, second);
    }
  }
}
