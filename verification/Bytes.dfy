/** Bytes, the integer fields built from them, and flattening of byte chunks. */
module Bytes {

  type byte = x: int | 0 <= x < 256

  datatype Option<+T> = None | Some(value: T)

  const U16_LIMIT: nat := 0x1_0000
  const U32_LIMIT: nat := 0x1_0000_0000

  /** A big-endian 16-bit field, as every PPP and SSTP header stores it. */
  function Be16(n: nat): (s: seq<byte>)
    ensures |s| == 2
  {
    [(n / 256) % 256, n % 256]
  }

  function FromBe16(hi: byte, lo: byte): (n: nat)
    ensures n < U16_LIMIT
  {
    var h: int, l: int := hi, lo;
    h * 256 + l
  }

  /** Little-endian fields: the host order of the netlink headers. */
  function Le16(n: nat): (s: seq<byte>)
    ensures |s| == 2
  {
    [n % 256, (n / 256) % 256]
  }

  function FromLe16(b0: byte, b1: byte): (n: nat)
    ensures n < U16_LIMIT
  {
    var lo: int, hi: int := b0, b1;
    lo + 256 * hi
  }

  function Le32(n: nat): (s: seq<byte>)
    ensures |s| == 4
  {
    Le16(n % U16_LIMIT) + Le16(n / U16_LIMIT)
  }

  function FromLe32(b0: byte, b1: byte, b2: byte, b3: byte): (n: nat)
    ensures n < U32_LIMIT
  {
    FromLe16(b0, b1) + U16_LIMIT * FromLe16(b2, b3)
  }

  function Flatten(chunks: seq<seq<byte>>): seq<byte> {
    if chunks == [] then [] else chunks[0] + Flatten(chunks[1..])
  }

  lemma Assoc<T>(a: seq<T>, b: seq<T>, c: seq<T>)
    ensures (a + b) + c == a + (b + c)
  {
  }

  lemma {:induction false} FlattenAppend(a: seq<seq<byte>>, b: seq<seq<byte>>)
    ensures Flatten(a + b) == Flatten(a) + Flatten(b)
  {
    if a == [] {
      assert a + b == b;
    } else {
      FlattenAppend(a[1..], b);
      assert (a + b)[1..] == a[1..] + b && (a + b)[0] == a[0];
      Assoc(a[0], Flatten(a[1..]), Flatten(b));
    }
  }

  lemma Le16RoundTrip(n: nat)
    requires n < U16_LIMIT
    ensures FromLe16(Le16(n)[0], Le16(n)[1]) == n
  {
    assert n / 256 < 256;
  }

  lemma Le32RoundTrip(n: nat)
    requires n < U32_LIMIT
    ensures var s := Le32(n); FromLe32(s[0], s[1], s[2], s[3]) == n
  {
    assert n / U16_LIMIT < U16_LIMIT;
    Le16RoundTrip(n % U16_LIMIT);
    Le16RoundTrip(n / U16_LIMIT);
  }
}
