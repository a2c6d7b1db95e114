/** Address lists: prefix blocks, their masked comparison, and the search over them (src/ConfigType.*). */
module Cidr {
  import opened Wrappers
  import opened Bytes
  import opened Bits

  // ----- blocks

  /** The addresses lo, ..., lo + size - 1. */
  datatype Block = Block(lo: nat, size: nat) {
    /** A prefix block: as many addresses as a power of two, aligned to it. */
    ghost predicate Aligned() {
      size > 0 && lo % size == 0 && exists k: nat :: size == Pow2(k)
    }

    predicate Contains(x: nat) {
      lo <= x < lo + size
    }

    /** Every address of other, and more. */
    predicate StrictlyContains(other: Block) {
      lo <= other.lo && other.lo + other.size <= lo + size && other != this
    }

    /** Below, inside or above. */
    function Compare(x: nat): int {
      if x < lo then -1 else if x < lo + size then 0 else 1
    }
  }

  lemma Pow2Order(a: nat, b: nat)
    requires Pow2(a) <= Pow2(b)
    ensures a <= b
  {
    if a > b {
      Pow2Grows(b, a);
    }
  }

  /** Rounding down to a multiple keeps an aligned bound. */
  lemma RoundDown(x: nat, size: nat, lo: nat)
    requires size > 0 && lo % size == 0
    ensures x - x % size >= lo <==> x >= lo
    ensures x - x % size <= lo <==> x < lo + size
  {
    var q, l := x / size, lo / size;
    assert x == q * size + x % size && lo == l * size;
    StepOver(q, l, size);
    StepOver(l, q, size);
  }

  /** Two prefix blocks are nested or disjoint (section 3.1 of RFC 4632). */
  lemma {:induction false} NestedOrDisjoint(a: Block, b: Block)
    requires a.Aligned() && b.Aligned() && a.size <= b.size
    ensures b.Contains(a.lo) ==> b.lo <= a.lo && a.lo + a.size <= b.lo + b.size
    ensures !b.Contains(a.lo) ==> a.lo + a.size <= b.lo || b.lo + b.size <= a.lo
  {
    var j: nat :| a.size == Pow2(j);
    var k: nat :| b.size == Pow2(k);
    Pow2Order(j, k);
    Pow2Add(k - j, j);
    MultiplesApart(a.lo, b.lo, a.size, Pow2(k - j));
  }

  /** Two multiples of a size, one of them a multiple of ratio sizes. */
  lemma MultiplesApart(x: nat, y: nat, size: nat, ratio: nat)
    requires size > 0 && ratio > 0 && x % size == 0 && ratio * size > 0 && y % (ratio * size) == 0
    ensures y <= x < y + ratio * size ==> x + size <= y + ratio * size
    ensures x < y ==> x + size <= y
  {
    var m, n := x / size, y / (ratio * size);
    assert x == m * size && y == n * (ratio * size) == (n * ratio) * size;
    assert y + ratio * size == (n * ratio + ratio) * size;
    StepOver(m, n * ratio, size);
    StepOver(m, n * ratio + ratio, size);
  }

  // ----- IPv4 entries

  datatype Item = Item(ip: uint32, mask: uint32) {
    function MatchCompare(x: uint32): int {
      var masked := And(x, mask);
      if masked == ip then 0 else if masked > ip then 1 else -1
    }
  }

  predicate IsDecimal(c: string) {
    forall i :: 0 <= i < |c| ==> '0' <= c[i] <= '9'
  }

  function DecimalValue(c: string): nat
    requires IsDecimal(c)
  {
    if c == "" then 0 else 10 * DecimalValue(c[..|c| - 1]) + (c[|c| - 1] as int - '0' as int)
  }

  /** The prefix length after the slash: one to three digits, at most max. */
  method ParsePrefix(c: string, max: nat) returns (prefix: Option<nat>)
    ensures prefix.Some? <==> 1 <= |c| <= 3 && IsDecimal(c) && DecimalValue(c) <= max
    ensures prefix.Some? ==> prefix.value == DecimalValue(c)
  {
    var n := 0;
    for i := 0 to |c|
      invariant i <= 3 && IsDecimal(c[..i]) && n == DecimalValue(c[..i])
    {
      if c[i] < '0' || c[i] > '9' || i == 3 {
        return None;
      }
      assert c[..i + 1][..i] == c[..i];
      n := n * 10 + (c[i] as int - '0' as int);
    }
    assert c[..|c|] == c;
    return if |c| == 0 || n > max then None else Some(n);
  }

  /** The mask of a prefix length: shift in 64 bits, narrow to 32, subtract, complement. */
  function MaskOf(prefix: nat): uint32
    requires prefix <= 32
  {
    if prefix == 0 then 0
    else
      Pow2Add(prefix, 32 - prefix);
      0xFFFF_FFFF - (Pow2(32 - prefix) % 0x1_0000_0000 - 1) % 0x1_0000_0000
  }

  lemma Pow2Of32()
    ensures Pow2(32) == 0x1_0000_0000
  {
    Pow2Small();
    Pow2Add(8, 8);
    Pow2Add(16, 16);
  }

  lemma MaskValue(prefix: nat)
    requires prefix <= 32
    ensures Pow2(32 - prefix) <= 0x1_0000_0000 && MaskOf(prefix) == 0x1_0000_0000 - Pow2(32 - prefix)
  {
    hide And, Pow2;
    Pow2Of32();
    AndMask(0, 32, 32 - prefix);
    if prefix > 0 {
      Pow2Grows(32 - prefix, 32);
    } else {
      assert Pow2(32 - prefix) == 0x1_0000_0000;
    }
  }

  lemma {:induction false} AndBelow(x: nat, y: nat)
    ensures And(x, y) <= x
  {
    if x > 0 {
      AndBelow(x / 2, y / 2);
    }
  }

  /** An entry as SetFromString stores it, from a parsed address and prefix length. */
  function MakeItem(address: uint32, prefix: nat): Item
    requires prefix <= 32
  {
    AndBelow(address, MaskOf(prefix));
    Item(And(address, MaskOf(prefix)), MaskOf(prefix))
  }

  ghost predicate Normal(i: Item) {
    && (exists prefix: nat :: prefix <= 32 && i.mask == MaskOf(prefix))
    && i.ip % (0x1_0000_0000 - i.mask) == 0
  }

  /** The addresses an entry covers. */
  function BlockOf(i: Item): Block {
    Block(i.ip, 0x1_0000_0000 - i.mask)
  }

  lemma Rounded(x: nat, size: nat)
    requires size > 0
    ensures x - x % size >= 0 && (x - x % size) % size == 0 && x - x % size <= x < x - x % size + size
  {
    DivMod(x - x % size, size, x / size, 0);
  }

  lemma {:induction false} MadeNormal(address: uint32, prefix: nat)
    requires prefix <= 32
    ensures Normal(MakeItem(address, prefix)) && BlockOf(MakeItem(address, prefix)).size == Pow2(32 - prefix)
    ensures BlockOf(MakeItem(address, prefix)).Contains(address)
  {
    Pow2Of32();
    MaskValue(prefix);
    AndMask(address, 32, 32 - prefix);
    Rounded(address, Pow2(32 - prefix));
  }

  lemma NormalSize(i: Item) returns (k: nat)
    requires Normal(i)
    ensures k <= 32 && BlockOf(i).size == Pow2(k) && i.mask == Pow2(32) - Pow2(k)
  {
    var prefix: nat :| prefix <= 32 && i.mask == MaskOf(prefix);
    Pow2Of32();
    MaskValue(prefix);
    k := 32 - prefix;
  }

  /** Masked comparison is comparison with the block. */
  lemma {:induction false} MatchCompareIsCompare(i: Item, x: uint32)
    requires Normal(i)
    ensures i.MatchCompare(x) == BlockOf(i).Compare(x)
  {
    var k := NormalSize(i);
    Pow2Of32();
    AndMask(x, 32, k);
    RoundDown(x, Pow2(k), i.ip);
  }

  lemma BlockAligned(i: Item)
    requires Normal(i)
    ensures BlockOf(i).Aligned()
  {
    var k := NormalSize(i);
  }

  // ----- IPv6 entries

  /** The bytes as one big-endian number. */
  function Value(b: seq<byte>): nat {
    if b == [] then 0 else Value(b[..|b| - 1]) * 0x100 + b[|b| - 1]
  }

  /** One byte under a mask that leaves it left bits (more than 8: all of them). */
  function MaskedByte(b: byte, left: nat): byte {
    if left >= 8 then b
    else if left == 0 then 0
    else And(b, 0xFF * Pow2(8 - left)) % 0x100
  }

  function MaskedBytes(b: seq<byte>, prefix: nat): (r: seq<byte>)
    ensures |r| == |b|
  {
    seq(|b|, i requires 0 <= i < |b| => MaskedByte(b[i], if prefix > i * 8 then prefix - i * 8 else 0))
  }

  method ApplyMask(ip: Ipv6, prefix: nat, out: array<byte>)
    requires out.Length == 16
    modifies out
    ensures out[..] == MaskedBytes(ip, prefix)
  {
    for i := 0 to 16
      invariant out[..i] == MaskedBytes(ip, prefix)[..i]
    {
      var left := if prefix > i * 8 then prefix - i * 8 else 0;
      if left >= 8 {
        out[i] := ip[i];
      } else if left == 0 {
        out[i] := 0;
      } else {
        out[i] := And(ip[i], 0xFF * Pow2(8 - left)) % 0x100;
      }
    }
  }

  /** The sign of memcmp on strings of equal length. */
  function MemCmp(a: seq<byte>, b: seq<byte>): int
    requires |a| == |b|
  {
    if a == [] then 0
    else if a[0] != b[0] then if a[0] < b[0] then -1 else 1
    else MemCmp(a[1..], b[1..])
  }

  datatype Item6 = Item6(ip: Ipv6, prefix: nat)

  method MatchCompare6(item: Item6, x: Ipv6) returns (sign: int)
    ensures sign == MemCmp(MaskedBytes(x, item.prefix), item.ip)
  {
    var masked := new byte[16];
    ApplyMask(x, item.prefix, masked);
    sign := MemCmp(masked[..], item.ip);
  }

  lemma Pow2Of8()
    ensures Pow2(8) == 0x100 && Pow2(0) == 1
  {
    Pow2Small();
  }

  lemma PartialMask(b: byte, k: nat)
    requires k < 8
    ensures And(b, 0xFF * Pow2(k)) == b - b % Pow2(k)
  {
    Pow2Of8();
    AndMask(b, 8, k);
    var size := Pow2(k);
    assert 0xFF * size == 0x100 - size + (size - 1) * 0x100;
    AndLowBits(b, 0x100 - size, size - 1, 8);
  }

  /** A masked byte keeps its top left bits. */
  lemma MaskedByteValue(b: byte, left: nat)
    requires left <= 8
    ensures MaskedByte(b, left) == b - b % Pow2(8 - left)
  {
    hide And;
    if left == 0 {
      Pow2Of8();
    } else if left == 8 {
      assert Pow2(8 - left) == 1;
    } else {
      var size := Pow2(8 - left);
      assert size > 0;
      PartialMask(b, 8 - left);
      assert 0 <= b - b % size < 0x100;
    }
  }

  lemma MaskedFully(b: seq<byte>, prefix: nat)
    requires prefix >= 8 * |b|
    ensures MaskedBytes(b, prefix) == b
  {
  }

  lemma MaskedInit(b: seq<byte>, prefix: nat)
    requires b != []
    ensures MaskedBytes(b, prefix)[..|b| - 1] == MaskedBytes(b[..|b| - 1], prefix)
  {
  }

  /** Masking byte by byte is rounding the whole number down. */
  lemma {:induction false} MaskedValue(b: seq<byte>, prefix: nat)
    requires prefix <= 8 * |b|
    ensures Value(MaskedBytes(b, prefix)) == Value(b) - Value(b) % Pow2(8 * |b| - prefix)
  {
    if b != [] {
      var n := |b| - 1;
      var init, last := b[..n], b[n];
      MaskedInit(b, prefix);
      if prefix <= 8 * n {
        MaskedValue(init, prefix);
        LowerByteCleared(Value(init), last, 8 * n - prefix);
      } else {
        MaskedFully(init, prefix);
        MaskedByteValue(last, prefix - 8 * n);
        LowerByteRounded(Value(init), last, 8 * |b| - prefix);
      }
    }
  }

  lemma LowerByteCleared(v: nat, b: byte, k: nat)
    ensures (v - v % Pow2(k)) * 0x100 == v * 0x100 + b - (v * 0x100 + b) % Pow2(k + 8)
  {
    Pow2Small();
    Pow2Add(8, k);
    DivMod(v * 0x100 + b, 0x100, v, b);
    ModProduct(v * 0x100 + b, 0x100, Pow2(k));
  }

  lemma LowerByteRounded(v: nat, b: byte, k: nat)
    requires k <= 8
    ensures (v * 0x100 + b) % Pow2(k) == b % Pow2(k)
  {
    Pow2Of8();
    Pow2Add(8 - k, k);
    var size, ratio := Pow2(k), Pow2(8 - k);
    Regroup(v, ratio, size);
    ModOfSum(v * ratio, b, size);
  }

  lemma Regroup(a: int, b: int, c: int)
    ensures a * (b * c) == (a * b) * c
  {
  }

  lemma ModOfSum(m: nat, y: nat, size: nat)
    requires size > 0
    ensures (m * size + y) % size == y % size
  {
    assert m * size + y == (m + y / size) * size + y % size;
    DivMod(m * size + y, size, m + y / size, y % size);
  }

  lemma {:induction false} ValueHead(b: seq<byte>)
    requires b != []
    ensures Value(b) == b[0] * Pow2(8 * (|b| - 1)) + Value(b[1..])
    ensures Value(b) < Pow2(8 * |b|) && Value(b[1..]) < Pow2(8 * (|b| - 1))
  {
    var n := |b| - 1;
    Pow2Small();
    if n == 0 {
      assert b[..0] == [] && b[1..] == [];
      assert Value(b) == Value(b[..0]) * 0x100 + b[0];
    } else {
      var init := b[..n];
      ValueHead(init);
      assert b[1..][..n - 1] == init[1..] && b[1..][n - 1] == b[n];
      assert Value(b[1..]) == Value(init[1..]) * 0x100 + b[n];
      Pow2Add(8 * (n - 1), 8);
      Pow2Add(8 * n, 8);
      Regroup(init[0], Pow2(8 * (n - 1)), 0x100);
    }
  }

  /** Comparing bytes is comparing numbers. */
  lemma {:induction false} MemCmpIsCompare(a: seq<byte>, b: seq<byte>)
    requires |a| == |b|
    ensures MemCmp(a, b) == if Value(a) < Value(b) then -1 else if Value(a) > Value(b) then 1 else 0
  {
    if a != [] {
      ValueHead(a);
      ValueHead(b);
      StepOver(a[0], b[0], Pow2(8 * (|a| - 1)));
      StepOver(b[0], a[0], Pow2(8 * (|a| - 1)));
      MemCmpIsCompare(a[1..], b[1..]);
    }
  }

  ghost predicate Normal6(i: Item6) {
    i.prefix <= 128 && MaskedBytes(i.ip, i.prefix) == i.ip
  }

  function BlockOf6(i: Item6): Block {
    Block(Value(i.ip), if i.prefix <= 128 then Pow2(128 - i.prefix) else 1)
  }

  /** SetFromString masks an address; the entry then covers it. */
  lemma {:induction false} MadeNormal6(address: Ipv6, prefix: nat)
    requires prefix <= 128
    ensures var i := Item6(MaskedBytes(address, prefix), prefix);
            Normal6(i) && BlockOf6(i).Contains(Value(address))
  {
    var masked := MaskedBytes(address, prefix);
    forall k | 0 <= k < 16 ensures MaskedBytes(masked, prefix)[k] == masked[k] {
      var left := if prefix > k * 8 then prefix - k * 8 else 0;
      if left < 8 {
        MaskedByteValue(address[k], left);
        MaskedByteValue(masked[k], left);
        Rounded(address[k], Pow2(8 - left));
      }
    }
    MaskedValue(address, prefix);
    Rounded(Value(address), Pow2(128 - prefix));
  }

  lemma BlockAligned6(i: Item6)
    requires Normal6(i)
    ensures BlockOf6(i).Aligned()
  {
    MaskedValue(i.ip, i.prefix);
  }

  /** Masking the bytes and comparing them is comparison of the 128-bit number with the block. */
  lemma {:induction false} MatchCompareIsCompare6(i: Item6, x: Ipv6)
    requires Normal6(i)
    ensures MemCmp(MaskedBytes(x, i.prefix), i.ip) == BlockOf6(i).Compare(Value(x))
  {
    BlockAligned6(i);
    MaskedValue(x, i.prefix);
    MemCmpIsCompare(MaskedBytes(x, i.prefix), i.ip);
    RoundDown(Value(x), Pow2(128 - i.prefix), Value(i.ip));
  }
}
