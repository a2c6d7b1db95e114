/** Bytes of a datagram, and big-endian numbers inside it. */
module Bytes {

  type byte = b: int | 0 <= b < 256
  type uint16 = n: int | 0 <= n < 0x1_0000
  type uint32 = n: int | 0 <= n < 0x1_0000_0000

  /** An IPv6 address in network byte order. */
  type Ipv6 = b: seq<byte> | |b| == 16 witness seq(16, _ => 0)

  /** The 16-bit number at offset p. */
  function U16(s: seq<byte>, p: nat): uint16
    requires p + 2 <= |s|
  {
    (s[p] as int) * 256 + s[p + 1] as int
  }

  function PutU16(n: uint16): seq<byte> {
    [n / 256, n % 256]
  }

  /** The 32-bit number at offset p. */
  function U32(s: seq<byte>, p: nat): uint32
    requires p + 4 <= |s|
  {
    (U16(s, p) as int) * 0x1_0000 + U16(s, p + 2) as int
  }

  lemma PutU16RoundTrip(s: seq<byte>, p: nat)
    requires p + 2 <= |s|
    ensures PutU16(U16(s, p)) == s[p..p + 2]
  {
  }

  lemma U16OfSlice(s: seq<byte>, lo: nat, hi: nat, p: nat)
    requires lo <= hi <= |s| && p + 2 <= hi - lo
    ensures U16(s[lo..hi], p) == U16(s, lo + p)
  {
  }

  /** o holds the bytes b at p. */
  ghost predicate Holds(o: seq<byte>, p: nat, b: seq<byte>) {
    p + |b| <= |o| && o[p..p + |b|] == b
  }

  lemma HoldsParts(o: seq<byte>, p: nat, a: seq<byte>, b: seq<byte>)
    requires Holds(o, p, a + b)
    ensures Holds(o, p, a) && Holds(o, p + |a|, b) && p + |a| + |b| <= |o|
  {
    assert o[p..p + |a|] == (a + b)[..|a|];
    assert o[p + |a|..p + |a| + |b|] == (a + b)[|a|..];
  }
}
