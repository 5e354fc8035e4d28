/** The server's verdict on a peer's LCP options (src/ppp/driver.rs). */
module LcpVerdict {
  import opened Bytes
  import opened PppOptions

  const MRU: byte := 1
  const AUTH_PROTOCOL: byte := 3
  const MAGIC_NUMBER: byte := 5
  const PFC: byte := 7
  const ACFC: byte := 8

  predicate Acceptable(o: Opt) {
    o.typ == MRU || o.typ == AUTH_PROTOCOL || o.typ == MAGIC_NUMBER || o.typ == PFC || o.typ == ACFC
  }

  function Refused(os: seq<Opt>): seq<Opt> {
    if os == [] then []
    else if Acceptable(os[|os| - 1]) then Refused(os[..|os| - 1])
    else Refused(os[..|os| - 1]) + [os[|os| - 1]]
  }

  predicate IsMru(o: Opt) {
    o.typ == MRU && |o.value| == 2
  }

  /** The last two-byte MRU option, else what was known before. */
  function MruOf(os: seq<Opt>, before: Option<nat>): Option<nat> {
    if os == [] then before
    else
      var last := os[|os| - 1];
      if IsMru(last) then Some(FromBe16(last.value[0], last.value[1])) else MruOf(os[..|os| - 1], before)
  }

  /** Verdict on a request's options; `body` is the Reject. */
  datatype Verdict = Verdict(good: bool, body: seq<byte>, mru: Option<nat>)

  function Judge(opts: seq<byte>, mru: Option<nat>): Verdict {
    var p := ParseOptions(opts);
    Verdict(p.whole && Refused(p.opts) == [], EncodeOptions(Refused(p.opts)), MruOf(p.opts, mru))
  }

  lemma RefusedPush(os: seq<Opt>, o: Opt)
    ensures Refused(os + [o]) == (if Acceptable(o) then Refused(os) else Refused(os) + [o])
    ensures forall mru :: MruOf(os + [o], mru) == (if IsMru(o) then Some(FromBe16(o.value[0], o.value[1])) else MruOf(os, mru))
  {
    assert (os + [o])[..|os|] == os;
  }

  /** The walk over the list that builds the Reject body and picks up the MRU. */
  method Classify(opts: seq<byte>, mru: Option<nat>) returns (v: Verdict)
    ensures v == Judge(opts, mru)
  {
    var cursor, anyBad, body, peerMru := opts, false, [], mru;
    ghost var passed: seq<Opt> := [];
    PassStart(opts);
    while true
      invariant PassedBy(opts, cursor, passed)
      invariant body == EncodeOptions(Refused(passed)) && peerMru == MruOf(passed, mru)
      invariant anyBad <==> Refused(passed) != []
      decreases |cursor|
    {
      var item := NextOption(cursor);
      if !item.One? {
        PassEnd(opts, cursor, passed);
        anyBad := anyBad || item.Malformed?;
        break;
      }
      var o := item.opt;
      PassOne(opts, cursor, passed);
      RefusedPush(passed, o);
      if IsMru(o) {
        peerMru := Some(FromBe16(o.value[0], o.value[1]));
      }
      if !Acceptable(o) {
        EncodePush(Refused(passed), o);
        anyBad := true;
        body := body + EncodeOption(o);
      }
      passed := passed + [o];
      cursor := cursor[item.length..];
    }
    v := Verdict(!anyBad, body, peerMru);
  }

  // ---------------------------------------------------------------------------

  /** The types the server takes, in the numbers of RFC 1661: MRU, Authentication-Protocol,
      Magic-Number, and the two header compressions. */
  predicate Taken(typ: byte) {
    typ == 1 || typ == 3 || typ == 5 || typ == 7 || typ == 8
  }

  /** The options of any other type, in order. */
  ghost predicate IsRefusalOf(os: seq<Opt>, rs: seq<Opt>)
    decreases |os|
  {
    if os == [] then rs == []
    else if Taken(os[0].typ) then IsRefusalOf(os[1..], rs)
    else rs != [] && rs[0] == os[0] && IsRefusalOf(os[1..], rs[1..])
  }

  lemma {:induction false} RefusalOfPush(os: seq<Opt>, rs: seq<Opt>, o: Opt)
    requires IsRefusalOf(os, rs)
    ensures IsRefusalOf(os + [o], if Taken(o.typ) then rs else rs + [o])
    decreases |os|
  {
    var more := if Taken(o.typ) then rs else rs + [o];
    if os == [] {
      assert (os + [o])[1..] == [];
      assert !Taken(o.typ) ==> more[1..] == [];
    } else {
      assert (os + [o])[1..] == os[1..] + [o];
      if Taken(os[0].typ) {
        RefusalOfPush(os[1..], rs, o);
      } else {
        RefusalOfPush(os[1..], rs[1..], o);
        assert !Taken(o.typ) ==> more[1..] == rs[1..] + [o];
      }
    }
  }

  lemma {:induction false} RefusedIsFilter(os: seq<Opt>)
    ensures forall o :: o in Refused(os) <==> o in os && !Acceptable(o)
    ensures Refused(os) == [] <==> forall o <- os :: Acceptable(o)
    ensures Refused(os) == [] <==> forall o <- os :: Taken(o.typ)
    ensures IsRefusalOf(os, Refused(os))
  {
    if os != [] {
      var init, last := os[..|os| - 1], os[|os| - 1];
      RefusedIsFilter(init);
      assert os == init + [last];
      RefusalOfPush(init, Refused(init), last);
    }
  }

  /** Option `i` is the last two-byte MRU of the list. */
  ghost predicate LastMru(os: seq<Opt>, i: nat) {
    && i < |os| && os[i].typ == 1 && |os[i].value| == 2
    && forall j :: i < j < |os| ==> !(os[j].typ == 1 && |os[j].value| == 2)
  }

  /** The MRU picked up is that of the last such option, high byte first. */
  lemma {:induction false} MruIsTheLast(os: seq<Opt>, before: Option<nat>, i: nat)
    requires LastMru(os, i)
    ensures MruOf(os, before) == Some(256 * (os[i].value[0] as int) + os[i].value[1] as int)
  {
    if i < |os| - 1 {
      var init := os[..|os| - 1];
      assert init[i] == os[i] && !IsMru(os[|os| - 1]);
      assert forall j :: i < j < |init| ==> init[j] == os[j];
      MruIsTheLast(init, before, i);
    }
  }

  /** Without one, it is what was known before. */
  lemma {:induction false} NoMruKeeps(os: seq<Opt>, before: Option<nat>)
    requires forall i :: 0 <= i < |os| ==> !(os[i].typ == 1 && |os[i].value| == 2)
    ensures MruOf(os, before) == before
  {
    if os != [] {
      NoMruKeeps(os[..|os| - 1], before);
    }
  }

  lemma {:induction false} RefusedShorter(os: seq<Opt>)
    ensures |EncodeOptions(Refused(os))| <= |EncodeOptions(os)|
  {
    if os != [] {
      var last := os[|os| - 1];
      RefusedShorter(os[..|os| - 1]);
      if !Acceptable(last) {
        EncodePush(Refused(os[..|os| - 1]), last);
      }
    }
  }

  /** A Reject is never longer than the options it answers. */
  lemma RejectBound(opts: seq<byte>, mru: Option<nat>)
    ensures |Judge(opts, mru).body| <= |opts|
  {
    EncodeParsed(opts);
    RefusedShorter(ParseOptions(opts).opts);
  }

  /** A peer that drops what is rejected has a good second request, and its Reject
      parses back to exactly the refused options. */
  lemma ConvergesByTheSecond(os: seq<Opt>, mru: Option<nat>, later: Option<nat>)
    requires AllEncodable(os)
    ensures var v := Judge(EncodeOptions(os), mru);
      && ParseOptions(v.body) == OptionList(Refused(os), true)
      && (v.good <==> forall o <- os :: Acceptable(o))
      && Judge(EncodeOptions(Dropping(os, ParseOptions(v.body).opts)), later).good
  {
    RefusedIsFilter(os);
    ParseEncoded(os);
    ParseEncoded(Refused(os));
    var next := Dropping(os, Refused(os));
    ParseEncoded(next);
    RefusedIsFilter(next);
  }
}
