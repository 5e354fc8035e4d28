/** The lossy conversion of bytes to text that the driver applies to a reject message
    (src/ppp/driver.rs): well-formed UTF-8 is kept, each maximal part of an ill-formed
    sequence becomes one replacement character (section 3.9 of the Unicode Standard). */
module Utf8 {
  import opened Bytes

  /** U+FFFD */
  const REPLACEMENT: seq<byte> := [0xEF, 0xBF, 0xBD]

  /** Bytes in the character a lead byte opens; zero for a byte that opens none. */
  function Width(lead: byte): nat {
    if lead < 0x80 then 1
    else if 0xC2 <= lead < 0xE0 then 2
    else if 0xE0 <= lead < 0xF0 then 3
    else if 0xF0 <= lead < 0xF5 then 4
    else 0
  }

  /** Neither overlong, nor a surrogate, nor beyond U+10FFFF. */
  predicate Second(lead: byte, b: byte) {
    (if lead == 0xE0 then 0xA0 else if lead == 0xF0 then 0x90 else 0x80) <= b
    < (if lead == 0xED then 0xA0 else if lead == 0xF4 then 0x90 else 0xC0)
  }

  predicate Continues(s: seq<byte>, i: nat) {
    i < |s| && 0x80 <= s[i] < 0xC0
  }

  /** How far the character at the head of `s` goes, at least its first byte. */
  function Extent(s: seq<byte>): (n: nat)
    requires s != []
    ensures 1 <= n <= |s| && n <= 4
  {
    var w := Width(s[0]);
    if w < 2 || |s| < 2 || !Second(s[0], s[1]) then 1
    else if w < 3 || !Continues(s, 2) then 2
    else if w < 4 || !Continues(s, 3) then 3
    else 4
  }

  /** `s` opens with a whole character. */
  predicate Opens(s: seq<byte>) {
    s != [] && Extent(s) == Width(s[0])
  }

  predicate IsText(s: seq<byte>) {
    s == [] || (Opens(s) && IsText(s[Extent(s)..]))
  }

  function Lossy(s: seq<byte>): seq<byte> {
    if s == [] then []
    else (if Opens(s) then s[..Extent(s)] else REPLACEMENT) + Lossy(s[Extent(s)..])
  }

  /** A whole character stays one whatever follows. */
  lemma OpensThen(c: seq<byte>, rest: seq<byte>)
    requires Opens(c) && Extent(c) == |c|
    ensures Opens(c + rest) && Extent(c + rest) == |c|
  {
    assert forall i :: 0 <= i < |c| ==> (c + rest)[i] == c[i];
  }

  lemma TextThen(c: seq<byte>, rest: seq<byte>)
    requires Opens(c) && Extent(c) == |c| && IsText(rest)
    ensures IsText(c + rest)
  {
    OpensThen(c, rest);
    assert (c + rest)[|c|..] == rest;
  }

  lemma HeadOpens(s: seq<byte>)
    requires Opens(s)
    ensures var c := s[..Extent(s)]; Opens(c) && Extent(c) == |c|
  {
  }

  /** What comes out is text, and it is what went in if and only if that was text. */
  lemma {:induction false} LossyIsText(s: seq<byte>)
    ensures IsText(Lossy(s)) && (Lossy(s) == s <==> IsText(s))
    decreases |s|
  {
    if s != [] {
      var n := Extent(s);
      LossyIsText(s[n..]);
      assert s == s[..n] + s[n..];
      if Opens(s) {
        HeadOpens(s);
        TextThen(s[..n], Lossy(s[n..]));
      } else {
        TextThen(REPLACEMENT, Lossy(s[n..]));
      }
    }
  }
}
