/**
 The configuration's JSON strings (src/cJSON.cpp): printing one with escapes, and reading one back
 in two passes, a scan that sizes the output and a decoder that fills it.
 */
module JsonStrings {
  import opened Wrappers
  import opened Bytes
  import opened Bits

  const QUOTE: byte := 0x22
  const BACKSLASH: byte := 0x5C
  const LETTER_U: byte := 0x75

  // ----- printing

  function HexDigit(d: nat): (c: byte)
    requires d < 16
    ensures c != QUOTE && c != BACKSLASH && c > 0x20
  {
    if d < 10 then 0x30 + d else 0x57 + d
  }

  /** The letter of a one-letter escape sequence. */
  function Letter(c: byte): Option<byte> {
    if c == QUOTE || c == BACKSLASH then Some(c)
    else if c == 0x08 then Some(0x62)
    else if c == 0x0C then Some(0x66)
    else if c == 0x0A then Some(0x6E)
    else if c == 0x0D then Some(0x72)
    else if c == 0x09 then Some(0x74)
    else None
  }

  function Escaped(c: byte): (r: seq<byte>)
    ensures 1 <= |r| <= 6
  {
    match Letter(c)
    case Some(letter) => [BACKSLASH, letter]
    case None =>
      if c < 0x20 then [BACKSLASH, LETTER_U, 0x30, 0x30, HexDigit(c / 16), HexDigit(c % 16)] else [c]
  }

  function EscapedAll(x: seq<byte>): seq<byte> {
    if x == [] then [] else Escaped(x[0]) + EscapedAll(x[1..])
  }

  function PrintedString(x: seq<byte>): seq<byte> {
    [QUOTE] + EscapedAll(x) + [QUOTE]
  }

  // ----- reading

  /** The closing quote of the string whose contents start at p, and the number of escapes before it. */
  function Scan(s: seq<byte>, p: nat): (r: Option<(nat, nat)>)
    ensures r.Some? ==> p <= r.value.0 < |s| && s[r.value.0] == QUOTE && 2 * r.value.1 <= r.value.0 - p
    decreases |s| - p
  {
    if p >= |s| then None
    else if s[p] == QUOTE then Some((p, 0))
    else if s[p] == BACKSLASH then
      if p + 1 >= |s| then None
      else
        match Scan(s, p + 2)
        case None => None
        case Some((end, escapes)) => Some((end, escapes + 1))
    else Scan(s, p + 1)
  }

  /** The room the scan leaves for contents and NUL; the opening quote is counted too. */
  function Room(start: nat, end: nat, escapes: nat): int {
    end - (start - 1) - escapes + 1
  }

  function HexValue(c: byte): (r: Option<nat>)
    ensures r.Some? ==> r.value < 16 && c != QUOTE && c != BACKSLASH
  {
    if 0x30 <= c <= 0x39 then Some(c - 0x30)
    else if 0x41 <= c <= 0x46 then Some(c - 0x41 + 10)
    else if 0x61 <= c <= 0x66 then Some(c - 0x61 + 10)
    else None
  }

  /** Four hexadecimal digits; 0 if one of them is none. */
  function Hex4(s: seq<byte>, p: nat): (n: nat)
    requires p + 4 <= |s|
    ensures n < 0x1_0000
  {
    match (HexValue(s[p]), HexValue(s[p + 1]), HexValue(s[p + 2]), HexValue(s[p + 3]))
    case (Some(a), Some(b), Some(c), Some(d)) => ((a * 16 + b) * 16 + c) * 16 + d
    case _ => 0
  }

  /** A code point in UTF-8 (section 3 of RFC 3629). */
  function Utf8(n: nat): (r: seq<byte>)
    requires n <= 0x10_FFFF
    ensures 1 <= |r| <= 4 && (n < 0x1_0000 ==> |r| <= 3)
  {
    if n < 0x80 then [n]
    else if n < 0x800 then [0xC0 + n / 0x40, 0x80 + n % 0x40]
    else if n < 0x1_0000 then [0xE0 + n / 0x1000, 0x80 + n / 0x40 % 0x40, 0x80 + n % 0x40]
    else [0xF0 + n / 0x4_0000, 0x80 + n / 0x1000 % 0x40, 0x80 + n / 0x40 % 0x40, 0x80 + n % 0x40]
  }

  /** What the decoder makes of one character or escape, and how far it goes on. */
  datatype Piece = Bad | Piece(bytes: seq<byte>, len: nat)

  /** Two escaped UTF-16 surrogates make one code point (section 7 of RFC 8259). */
  function Utf16(s: seq<byte>, p: nat, end: nat): (r: Piece)
    requires p < end < |s|
    ensures r.Piece? ==> p + r.len <= end && ((r.len == 6 && 1 <= |r.bytes| <= 3) || (r.len == 12 && 1 <= |r.bytes| <= 4))
  {
    if end - p < 6 then Bad
    else
      var first := Hex4(s, p + 2);
      if 0xDC00 <= first <= 0xDFFF then Bad
      else if 0xD800 <= first <= 0xDBFF then
        if end - (p + 6) < 6 || s[p + 6] != BACKSLASH || s[p + 7] != LETTER_U then Bad
        else
          var second := Hex4(s, p + 8);
          if second < 0xDC00 || second > 0xDFFF then Bad
          else Piece(Utf8(0x1_0000 + (first - 0xD800) * 0x400 + (second - 0xDC00)), 12)
      else Piece(Utf8(first), 6)
  }

  /** A one-letter escape read back. */
  function Unletter(c: byte): Option<byte> {
    if c == QUOTE || c == BACKSLASH || c == 0x2F then Some(c)
    else if c == 0x62 then Some(0x08)
    else if c == 0x66 then Some(0x0C)
    else if c == 0x6E then Some(0x0A)
    else if c == 0x72 then Some(0x0D)
    else if c == 0x74 then Some(0x09)
    else None
  }

  function PieceAt(s: seq<byte>, p: nat, end: nat): (r: Piece)
    requires p < end < |s|
    ensures r.Piece? ==> 1 <= r.len && p + r.len <= end + 1
    ensures r.Piece? && s[p] == BACKSLASH ==> r.len >= 2
    ensures r.Piece? ==> |r.bytes| == 1 || (p + r.len <= end && r.len == 6 && |r.bytes| <= 3) || (p + r.len <= end && r.len == 12 && |r.bytes| <= 4)
    ensures r.Piece? && p + r.len > end ==> s[p] == BACKSLASH && r.len == 2
  {
    if s[p] != BACKSLASH then Piece([s[p]], 1)
    else if s[p + 1] == LETTER_U then Utf16(s, p, end)
    else
      match Unletter(s[p + 1])
      case Some(c) => Piece([c], 2)
      case None => Bad
  }

  /** The bytes the decoder writes, up to the end or to the escape it refuses. */
  datatype Decoding = Decoding(bytes: seq<byte>, ok: bool)

  function Decode(s: seq<byte>, p: nat, end: nat): Decoding
    requires end < |s|
    decreases end - p
  {
    if p >= end then Decoding([], true)
    else
      match PieceAt(s, p, end)
      case Bad => Decoding([], false)
      case Piece(bytes, len) =>
        var rest := Decode(s, p + len, end);
        Decoding(bytes + rest.bytes, rest.ok)
  }

  /** The string whose opening quote is at p, and the offset past its closing quote. */
  function StringAt(s: seq<byte>, p: nat): (r: Option<(seq<byte>, nat)>)
    ensures r.Some? ==> p < |s| && s[p] == QUOTE && p + 2 <= r.value.1 <= |s| && s[r.value.1 - 1] == QUOTE
  {
    if p >= |s| || s[p] != QUOTE then None
    else
      match Scan(s, p + 1)
      case None => None
      case Some((end, escapes)) =>
        var d := Decode(s, p + 1, end);
        if d.ok then Some((d.bytes, end + 1)) else None
  }

  // ----- the room is enough

  /** The characters and escapes the scan counts from p on. */
  function Counted(s: seq<byte>, p: nat): nat
    requires Scan(s, p).Some?
  {
    Scan(s, p).value.0 - p - Scan(s, p).value.1
  }

  /** One step of at least two bytes, in halves: bytes written against characters counted. */
  lemma StepFits(bytes: nat, len: nat, ahead: nat, ahead2: nat, counted: nat, counted2: nat)
    requires ahead <= 1 && ahead2 <= 1 && 2 * (counted - counted2) >= len + ahead2 - ahead
    requires (len >= 2 || ahead == 1) && len >= 1
    requires bytes == 1 || (len == 6 && bytes <= 3) || (len == 12 && bytes <= 4)
    ensures bytes + counted2 + ahead2 <= counted + ahead
  {
  }

  lemma PlainStep(s: seq<byte>, p: nat, end: nat)
    requires Scan(s, p).Some? && Scan(s, p).value.0 == end > p && s[p] != BACKSLASH
    ensures |Decode(s, p, end).bytes| == 1 + |Decode(s, p + 1, end).bytes|
    ensures Scan(s, p + 1).Some? && Scan(s, p + 1).value.0 == end && Counted(s, p) == Counted(s, p + 1) + 1
  {
  }

  lemma NothingLeft(s: seq<byte>, p: nat, end: nat)
    requires end < |s| && p >= end
    ensures Decode(s, p, end) == Decoding([], true)
  {
  }

  lemma DecodeStep(s: seq<byte>, p: nat, end: nat)
    requires p < end < |s|
    ensures Decode(s, p, end) ==
            match PieceAt(s, p, end)
            case Bad => Decoding([], false)
            case Piece(bytes, len) => Decoding(bytes + Decode(s, p + len, end).bytes, Decode(s, p + len, end).ok)
  {
    hide PieceAt;
  }

  lemma EscapeEndsInside(s: seq<byte>, p: nat)
    requires Scan(s, p).Some? && s[p] == BACKSLASH
    ensures p + 2 <= Scan(s, p).value.0
  {
  }

  /** At least one is counted for every two bytes; t itself may be the second byte of an escape. */
  lemma {:induction false} CountedFrom(s: seq<byte>, p: nat, t: nat) returns (r: nat)
    requires Scan(s, p).Some? && p <= t <= Scan(s, p).value.0
    ensures (r == t || r == t + 1) && r <= Scan(s, p).value.0
    ensures Scan(s, r).Some? && Scan(s, r).value.0 == Scan(s, p).value.0
    ensures 2 * (Counted(s, p) - Counted(s, r)) >= r - p
    decreases t - p
  {
    if p == t {
      r := p;
    } else if s[p] != BACKSLASH {
      r := CountedFrom(s, p + 1, t);
    } else if p + 1 == t {
      r := t + 1;
    } else {
      r := CountedFrom(s, p + 2, t);
    }
  }

  /**
   The decoder at p writes no more bytes than the scan counts from r on, plus one when it has lost
   step with the scan: it does after an escape with digits that are none.
   */
  lemma {:induction false} WritesWhatIsCounted(s: seq<byte>, p: nat, r: nat, end: nat)
    requires r == p || r == p + 1
    requires Scan(s, r).Some? && Scan(s, r).value.0 == end
    ensures |Decode(s, p, end).bytes| <= Counted(s, r) + r - p
    decreases end - p
  {
    hide PieceAt, Scan, Counted, Decode;
    if p == r && p < end && s[p] != BACKSLASH {
      PlainStep(s, p, end);
      WritesWhatIsCounted(s, p + 1, p + 1, end);
    } else if p >= end {
      NothingLeft(s, p, end);
    } else {
      DecodeStep(s, p, end);
      match PieceAt(s, p, end)
      case Bad =>
      case Piece(bytes, len) =>
        if p + len <= end {
          var next := CountedFrom(s, r, p + len);
          WritesWhatIsCounted(s, p + len, next, end);
          StepFits(|bytes|, len, r - p, next - (p + len), Counted(s, r), Counted(s, next));
        } else {
          NothingLeft(s, p + len, end);
          if r == p {
            EscapeEndsInside(s, p);
          }
        }
    }
  }

  /** Whatever the escapes, what the decoder writes and the closing NUL fit the room the scan computed. */
  lemma {:induction false} DecodedFits(s: seq<byte>, start: nat)
    requires start > 0 && Scan(s, start).Some?
    ensures var (end, escapes) := Scan(s, start).value;
            |Decode(s, start, end).bytes| + 1 < Room(start, end, escapes)
  {
    WritesWhatIsCounted(s, start, start, Scan(s, start).value.0);
  }

  // ----- the round trip

  lemma HexDigitReads(d: nat)
    requires d < 16
    ensures HexValue(HexDigit(d)) == Some(d)
  {
  }

  /** One printed character, scanned and decoded. */
  lemma EscapedReads(s: seq<byte>, p: nat, c: byte, end: nat)
    requires Holds(s, p, Escaped(c)) && p + |Escaped(c)| <= end < |s|
    ensures PieceAt(s, p, end) == Piece([c], |Escaped(c)|)
    ensures Scan(s, p + |Escaped(c)|).Some? ==> Scan(s, p).Some? && Scan(s, p).value.0 == Scan(s, p + |Escaped(c)|).value.0
  {
    var e := Escaped(c);
    forall i | 0 <= i < |e| ensures s[p + i] == e[i] {
      assert s[p..p + |e|][i] == e[i];
    }
    if Letter(c).None? {
      assert s[p] == e[0];
      if c < 0x20 {
        assert s[p + 1] == e[1] && s[p + 2] == e[2] && s[p + 3] == e[3] && s[p + 4] == e[4] && s[p + 5] == e[5];
        ControlReads(s, p, c, end);
      }
    } else {
      assert s[p] == e[0] && s[p + 1] == e[1];
    }
  }

  lemma ControlReads(s: seq<byte>, p: nat, c: byte, end: nat)
    requires p + 6 <= end < |s| && c < 0x20
    requires s[p] == BACKSLASH && s[p + 1] == LETTER_U && s[p + 2] == s[p + 3] == 0x30
    requires s[p + 4] == HexDigit(c / 16) && s[p + 5] == HexDigit(c % 16)
    ensures PieceAt(s, p, end) == Piece([c], 6)
    ensures Scan(s, p + 6).Some? ==> Scan(s, p).Some? && Scan(s, p).value.0 == Scan(s, p + 6).value.0
  {
    HexDigitReads(c / 16);
    HexDigitReads(c % 16);
    assert Hex4(s, p + 2) == c;
    assert Scan(s, p + 5).Some? == Scan(s, p + 6).Some?;
    assert Scan(s, p + 4).Some? == Scan(s, p + 5).Some?;
    assert Scan(s, p + 3).Some? == Scan(s, p + 4).Some?;
    assert Scan(s, p + 2).Some? == Scan(s, p + 3).Some?;
  }

  lemma QuoteReads(s: seq<byte>, end: nat)
    requires end < |s| && s[end] == QUOTE
    ensures Scan(s, end) == Some((end, 0)) && Decode(s, end, end) == Decoding([], true)
  {
  }

  lemma {:induction false} EscapedAllReads(s: seq<byte>, p: nat, x: seq<byte>, end: nat)
    requires Holds(s, p, EscapedAll(x)) && end == p + |EscapedAll(x)| < |s| && s[end] == QUOTE
    ensures Scan(s, p).Some? && Scan(s, p).value.0 == end
    ensures Decode(s, p, end) == Decoding(x, true)
    decreases |x|
  {
    hide PieceAt, Escaped, Decode, Scan;
    if x == [] {
      QuoteReads(s, end);
    } else {
      DecodeStep(s, p, end);
      var len := |Escaped(x[0])|;
      HoldsParts(s, p, Escaped(x[0]), EscapedAll(x[1..]));
      EscapedAllReads(s, p + len, x[1..], end);
      EscapedReads(s, p, x[0], end);
      assert [x[0]] + x[1..] == x;
    }
  }

  /** Reading undoes printing, and stops just past the closing quote, whatever follows. */
  lemma {:induction false} PrintedStringReads(s: seq<byte>, p: nat, x: seq<byte>)
    requires Holds(s, p, PrintedString(x))
    ensures StringAt(s, p) == Some((x, p + |PrintedString(x)|))
  {
    hide EscapedAll, Scan, Decode;
    var end := p + 1 + |EscapedAll(x)|;
    HoldsParts(s, p, [QUOTE] + EscapedAll(x), [QUOTE]);
    HoldsParts(s, p, [QUOTE], EscapedAll(x));
    assert s[p] == s[p..p + 1][0] && s[end] == s[end..end + 1][0];
    EscapedAllReads(s, p + 1, x, end);
  }

  // ----- UTF-8

  function Low(b: byte): nat {
    b % 0x40
  }

  function Less(b: byte, mark: byte): nat
    requires b >= mark
  {
    b - mark
  }

  /** The code point a UTF-8 sequence stands for. */
  function CodePoint(b: seq<byte>): nat
    requires b != []
  {
    if |b| == 2 && b[0] >= 0xC0 then Less(b[0], 0xC0) * 0x40 + Low(b[1])
    else if |b| == 3 && b[0] >= 0xE0 then Less(b[0], 0xE0) * 0x1000 + Low(b[1]) * 0x40 + Low(b[2])
    else if |b| == 4 && b[0] >= 0xF0 then Less(b[0], 0xF0) * 0x4_0000 + Low(b[1]) * 0x1000 + Low(b[2]) * 0x40 + Low(b[3])
    else b[0]
  }

  lemma InGroupsOfSix(n: nat)
    ensures n == n / 0x40 * 0x40 + n % 0x40
    ensures n == n / 0x1000 * 0x1000 + n / 0x40 % 0x40 * 0x40 + n % 0x40
    ensures n == n / 0x4_0000 * 0x4_0000 + n / 0x1000 % 0x40 * 0x1000 + n / 0x40 % 0x40 * 0x40 + n % 0x40
  {
    var a, b, c := n / 0x40, n / 0x40 / 0x40, n / 0x40 / 0x40 / 0x40;
    DivMod(n, 0x1000, b, a % 0x40 * 0x40 + n % 0x40);
    DivMod(n, 0x4_0000, c, b % 0x40 * 0x1000 + a % 0x40 * 0x40 + n % 0x40);
  }

  lemma LowOf(n: nat)
    ensures Low(0x80 + n % 0x40) == n % 0x40
  {
  }

  /** The encoding loses nothing: every code point comes back from its bytes. */
  lemma {:induction false} Utf8Reads(n: nat)
    requires n <= 0x10_FFFF
    ensures CodePoint(Utf8(n)) == n
  {
    InGroupsOfSix(n);
    hide Low;
    LowOf(n);
    LowOf(n / 0x40);
    LowOf(n / 0x1000);
  }

  // ----- escapes of code points

  function CasedDigit(d: nat, upper: bool): byte
    requires d < 16
  {
    if d < 10 then 0x30 + d else (if upper then 0x41 else 0x61) + d - 10
  }

  /** A backslash, u and four digits. */
  function UnitEscape(n: nat, upper: bool): (r: seq<byte>)
    requires n < 0x1_0000
    ensures |r| == 6
  {
    [0x5C, 0x75, CasedDigit(n / 0x1000, upper), CasedDigit(n / 0x100 % 16, upper), CasedDigit(n / 0x10 % 16, upper), CasedDigit(n % 16, upper)]
  }

  /** A code point escaped: from 0x1_0000 on, as a surrogate pair (section 7 of RFC 8259). */
  function CodeEscape(n: nat, upper: bool): seq<byte>
    requires n <= 0x10_FFFF
  {
    if n < 0x1_0000 then UnitEscape(n, upper)
    else UnitEscape(0xD800 + (n - 0x1_0000) / 0x400, upper) + UnitEscape(0xDC00 + (n - 0x1_0000) % 0x400, upper)
  }

  lemma CasedDigitReads(d: nat, upper: bool)
    requires d < 16
    ensures HexValue(CasedDigit(d, upper)) == Some(d)
  {
  }

  lemma Digits(n: nat)
    requires n < 0x1_0000
    ensures ((n / 0x1000 * 16 + n / 0x100 % 16) * 16 + n / 0x10 % 16) * 16 + n % 16 == n
  {
    assert n / 0x100 == n / 0x1000 * 16 + n / 0x100 % 16;
    assert n / 0x10 == n / 0x100 * 16 + n / 0x10 % 16;
  }

  lemma UnitReads(s: seq<byte>, p: nat, n: nat, upper: bool)
    requires n < 0x1_0000 && p + 6 <= |s| && s[p..p + 6] == UnitEscape(n, upper)
    ensures s[p] == BACKSLASH && s[p + 1] == LETTER_U && Hex4(s, p + 2) == n
  {
    hide CasedDigit, HexValue;
    var e := UnitEscape(n, upper);
    assert forall i :: 0 <= i < 6 ==> s[p + i] == s[p..p + 6][i] == e[i];
    assert s[p] == e[0] && s[p + 1] == e[1] && s[p + 2] == e[2] && s[p + 3] == e[3] && s[p + 4] == e[4] && s[p + 5] == e[5];
    CasedDigitReads(n / 0x1000, upper);
    CasedDigitReads(n / 0x100 % 16, upper);
    CasedDigitReads(n / 0x10 % 16, upper);
    CasedDigitReads(n % 16, upper);
    Digits(n);
  }

  /** The escape of any code point but a surrogate reads as that code point, whatever the case of its digits. */
  lemma {:induction false} CodeEscapeReads(s: seq<byte>, p: nat, end: nat, n: nat, upper: bool)
    requires n <= 0x10_FFFF && !(0xD800 <= n <= 0xDFFF)
    requires p + |CodeEscape(n, upper)| <= end < |s| && s[p..p + |CodeEscape(n, upper)|] == CodeEscape(n, upper)
    ensures Utf16(s, p, end) == Piece(Utf8(n), |CodeEscape(n, upper)|)
  {
    hide UnitEscape, Hex4, Utf8;
    if n < 0x1_0000 {
      UnitReads(s, p, n, upper);
    } else {
      var high, low := 0xD800 + (n - 0x1_0000) / 0x400, 0xDC00 + (n - 0x1_0000) % 0x400;
      var a, b := UnitEscape(high, upper), UnitEscape(low, upper);
      assert s[p..p + 6] == (a + b)[..6] == a && s[p + 6..p + 12] == (a + b)[6..] == b;
      UnitReads(s, p, high, upper);
      UnitReads(s, p + 6, low, upper);
      assert 0x1_0000 + (high - 0xD800) * 0x400 + (low - 0xDC00) == n;
    }
  }

  /** A surrogate that is not the first of such a pair is refused. */
  lemma {:induction false} LoneSurrogateRefused(s: seq<byte>, p: nat, end: nat, n: nat, upper: bool)
    requires 0xD800 <= n <= 0xDFFF && p + 6 <= end < |s| && s[p..p + 6] == UnitEscape(n, upper)
    ensures n >= 0xDC00 || end < p + 12 || s[p + 6] != 0x5C || s[p + 7] != 0x75 ==> Utf16(s, p, end) == Bad
  {
    hide UnitEscape, Hex4;
    UnitReads(s, p, n, upper);
  }

  // ----- the loops

  /** Writes a \u escape's bytes at o, last byte first. */
  method Utf16LiteralToUtf8(s: seq<byte>, p: nat, end: nat, output: array<byte>, o: nat) returns (len: nat, next: nat)
    requires p < end < |s|
    requires Utf16(s, p, end).Piece? ==> o + |Utf16(s, p, end).bytes| <= output.Length
    modifies output
    ensures Utf16(s, p, end).Bad? ==> len == 0 && output[..] == old(output[..])
    ensures Utf16(s, p, end).Piece? ==>
              len == Utf16(s, p, end).len && next == o + |Utf16(s, p, end).bytes| &&
              output[..o] == old(output[..o]) && output[o..next] == Utf16(s, p, end).bytes
  {
    len, next := 0, o;
    if end - p < 6 {
      return;
    }
    var first := Hex4(s, p + 2);
    if 0xDC00 <= first <= 0xDFFF {
      return;
    }
    var n := first;
    if 0xD800 <= first <= 0xDBFF {
      if end - (p + 6) < 6 || s[p + 6] != BACKSLASH || s[p + 7] != LETTER_U {
        return;
      }
      var second := Hex4(s, p + 8);
      if second < 0xDC00 || second > 0xDFFF {
        return;
      }
      len, n := 12, 0x1_0000 + (first - 0xD800) * 0x400 + (second - 0xDC00);
    } else {
      len := 6;
    }
    next := WriteUtf8(n, output, o);
  }

  method WriteUtf8(n: nat, output: array<byte>, o: nat) returns (next: nat)
    requires n <= 0x10_FFFF && o + |Utf8(n)| <= output.Length
    modifies output
    ensures next == o + |Utf8(n)| && output[..o] == old(output[..o]) && output[o..next] == Utf8(n)
  {
    var length := if n < 0x80 then 1 else if n < 0x800 then 2 else if n < 0x1_0000 then 3 else 4;
    assert length == |Utf8(n)|;
    hide Utf8;
    var rest, i := n, length - 1;
    while i > 0
      invariant 0 <= i < length && rest == Shifted(n, length - 1 - i)
      invariant output[..o] == old(output[..o])
      invariant forall j :: i < j < length ==> output[o + j] == Utf8(n)[j]
    {
      Utf8ByShifts(n, length, i);
      output[o + i] := 0x80 + rest % 0x40;
      rest := rest / 0x40;
      i := i - 1;
    }
    Utf8ByShifts(n, length, 0);
    output[o] := Mark(length) + rest;
    next := o + length;
  }

  lemma Utf8ByShifts(n: nat, length: nat, i: nat)
    requires n <= 0x10_FFFF && length == |Utf8(n)| && i < length
    ensures Utf8(n)[i] == if i > 0 then 0x80 + Shifted(n, length - 1 - i) % 0x40 else Mark(length) + Shifted(n, length - 1)
  {
    assert Shifted(n, 1) == n / 0x40;
    assert Shifted(n, 2) == n / 0x40 / 0x40 == n / 0x1000;
    assert Shifted(n, 3) == n / 0x1000 / 0x40 == n / 0x4_0000;
  }

  /** The mark of a sequence's first byte. */
  function Mark(length: nat): byte {
    if length == 2 then 0xC0 else if length == 3 then 0xE0 else if length == 4 then 0xF0 else 0
  }

  /** n without its last k groups of six bits. */
  function Shifted(n: nat, k: nat): nat {
    if k == 0 then n else Shifted(n, k - 1) / 0x40
  }

  /** Reads the string at offset into an array of exactly the scanned size: no write is out of its bounds. */
  method ParseString(s: seq<byte>, offset: nat) returns (ok: bool, value: seq<byte>, next: nat)
    ensures ok == StringAt(s, offset).Some?
    ensures ok ==> (value, next) == StringAt(s, offset).value
  {
    hide Scan, Decode;
    ok, value, next := false, [], offset;
    if offset >= |s| || s[offset] != QUOTE {
      return;
    }
    var found, end, skipped := ScanString(s, offset + 1);
    if !found {
      return;
    }
    DecodedFits(s, offset + 1);
    var output := new byte[Room(offset + 1, end, skipped)];
    var o;
    ok, o := DecodeString(s, offset + 1, end, output);
    value, next := output[..o], end + 1;
  }

  method ScanString(s: seq<byte>, start: nat) returns (found: bool, end: nat, skipped: nat)
    requires start <= |s|
    ensures found == Scan(s, start).Some?
    ensures found ==> (end, skipped) == Scan(s, start).value
  {
    end, skipped := start, 0;
    ghost var goal := Scan(s, start);
    while end < |s| && s[end] != QUOTE
      invariant end <= |s|
      invariant match (goal, Scan(s, end))
                case (Some(all), Some(rest)) => all == (rest.0, skipped + rest.1)
                case (None, None) => true
                case _ => false
    {
      if s[end] == BACKSLASH {
        if end + 1 >= |s| {
          return false, end, skipped;
        }
        skipped := skipped + 1;
        end := end + 1;
      }
      end := end + 1;
    }
    found := end < |s|;
  }

  method DecodeString(s: seq<byte>, start: nat, end: nat, output: array<byte>) returns (ok: bool, o: nat)
    requires start <= end < |s| && |Decode(s, start, end).bytes| < output.Length
    modifies output
    ensures o < output.Length && ok == Decode(s, start, end).ok
    ensures ok ==> output[..o] == Decode(s, start, end).bytes && output[o] == 0
  {
    hide Decode, PieceAt;
    o := 0;
    var p := start;
    ghost var goal := Decode(s, start, end);
    while p < end
      invariant o + |Decode(s, p, end).bytes| == |goal.bytes| && goal.ok == Decode(s, p, end).ok
      invariant output[..o] + Decode(s, p, end).bytes == goal.bytes
    {
      DecodeStep(s, p, end);
      var len, next := DecodePiece(s, p, end, output, o);
      if len == 0 {
        return false, o;
      }
      p, o := p + len, next;
    }
    NothingLeft(s, p, end);
    output[o] := 0;
    ok := true;
  }

  method DecodePiece(s: seq<byte>, p: nat, end: nat, output: array<byte>, o: nat) returns (len: nat, next: nat)
    requires p < end < |s| && o < output.Length
    requires PieceAt(s, p, end).Piece? ==> o + |PieceAt(s, p, end).bytes| <= output.Length
    modifies output
    ensures PieceAt(s, p, end).Bad? ==> len == 0 && next == o
    ensures PieceAt(s, p, end).Piece? ==>
              len == PieceAt(s, p, end).len && next == o + |PieceAt(s, p, end).bytes| &&
              output[..next] == old(output[..o]) + PieceAt(s, p, end).bytes
  {
    if s[p] != BACKSLASH {
      output[o] := s[p];
      return 1, o + 1;
    }
    if s[p + 1] == LETTER_U {
      len, next := Utf16LiteralToUtf8(s, p, end, output, o);
      if len == 0 {
        next := o;
      }
      return;
    }
    match Unletter(s[p + 1])
    case None => return 0, o;
    case Some(c) =>
      output[o] := c;
      return 2, o + 1;
  }

  /** The bytes escaping adds to a character. */
  function Extra(c: byte): nat {
    if Letter(c).Some? then 1 else if c < 0x20 then 5 else 0
  }

  function ExtraAll(x: seq<byte>): nat {
    if x == [] then 0 else ExtraAll(x[..|x| - 1]) + Extra(x[|x| - 1])
  }

  lemma {:induction false} EscapedAppend(x: seq<byte>, c: byte)
    ensures EscapedAll(x + [c]) == EscapedAll(x) + Escaped(c)
  {
    hide Escaped;
    if x == [] {
      assert [c][1..] == [] && x + [c] == [c];
    } else {
      EscapedAppend(x[1..], c);
      assert (x + [c])[1..] == x[1..] + [c];
      assert Escaped(x[0]) + (EscapedAll(x[1..]) + Escaped(c)) == Escaped(x[0]) + EscapedAll(x[1..]) + Escaped(c);
    }
  }

  /** The first pass counts exactly the bytes the second writes. */
  lemma {:induction false} EscapedLength(x: seq<byte>)
    ensures |EscapedAll(x)| == |x| + ExtraAll(x)
    ensures ExtraAll(x) == 0 ==> EscapedAll(x) == x
  {
    if x != [] {
      var init, last := x[..|x| - 1], x[|x| - 1];
      EscapedLength(init);
      EscapedAppend(init, last);
      assert x == init + [last];
    }
  }

  /** Prints a string into an array of exactly the counted size, quotes and NUL included. */
  method PrintStringPtr(x: seq<byte>) returns (output: array<byte>)
    ensures fresh(output) && output[..] == PrintedString(x) + [0]
  {
    hide EscapedAll;
    var extra := 0;
    for i := 0 to |x|
      invariant extra == ExtraAll(x[..i])
    {
      assert x[..i + 1][..i] == x[..i];
      extra := extra + if Letter(x[i]).Some? then 1 else if x[i] < 0x20 then 5 else 0;
    }
    assert x[..|x|] == x;
    EscapedLength(x);
    var length := |x| + extra;
    output := new byte[length + 3];
    if extra == 0 {
      forall i | 0 <= i < |x| {
        output[1 + i] := x[i];
      }
    } else {
      WriteEscaped(x, output);
    }
    output[0] := QUOTE;
    output[length + 1] := QUOTE;
    output[length + 2] := 0;
    assert output[1..length + 1] == EscapedAll(x);
  }

  method WriteEscaped(x: seq<byte>, output: array<byte>)
    requires output.Length == |EscapedAll(x)| + 3
    modifies output
    ensures output[1..|EscapedAll(x)| + 1] == EscapedAll(x)
  {
    hide EscapedAll;
    var o := 1;
    assert EscapedAll(x[..0]) == [] by {
      EscapedLength(x[..0]);
    }
    for i := 0 to |x|
      invariant o == 1 + |EscapedAll(x[..i])| && o <= |EscapedAll(x)| + 1
      invariant output[1..o] == EscapedAll(x[..i])
    {
      PrefixEscaped(x, i);
      o := WriteOne(x[i], output, o);
      assert output[1..o] == EscapedAll(x[..i]) + Escaped(x[i]);
    }
    assert x[..|x|] == x;
  }

  lemma PrefixEscaped(x: seq<byte>, i: nat)
    requires i < |x|
    ensures EscapedAll(x[..i + 1]) == EscapedAll(x[..i]) + Escaped(x[i])
    ensures |EscapedAll(x[..i + 1])| <= |EscapedAll(x)|
  {
    assert x[..i + 1] == x[..i] + [x[i]];
    EscapedAppend(x[..i], x[i]);
    PrefixLength(x, i + 1);
  }

  lemma {:induction false} PrefixLength(x: seq<byte>, i: nat)
    requires i <= |x|
    ensures |EscapedAll(x[..i])| <= |EscapedAll(x)|
    decreases |x| - i
  {
    if i == |x| {
      assert x[..i] == x;
    } else {
      assert x[..i + 1] == x[..i] + [x[i]];
      EscapedAppend(x[..i], x[i]);
      PrefixLength(x, i + 1);
    }
  }

  method WriteOne(c: byte, output: array<byte>, o: nat) returns (next: nat)
    requires 1 <= o && o + |Escaped(c)| <= output.Length
    modifies output
    ensures next == o + |Escaped(c)| && output[..o] == old(output[..o]) && output[o..next] == Escaped(c)
  {
    if c > 0x1F && c != QUOTE && c != BACKSLASH {
      output[o] := c;
      return o + 1;
    }
    output[o] := BACKSLASH;
    match Letter(c)
    case Some(letter) =>
      output[o + 1] := letter;
      return o + 2;
    case None =>
      output[o + 1], output[o + 2], output[o + 3] := LETTER_U, 0x30, 0x30;
      output[o + 4], output[o + 5] := HexDigit(c / 16), HexDigit(c % 16);
      return o + 6;
  }
}
