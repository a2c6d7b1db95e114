/**
 The configuration's JSON trees (src/cJSON.cpp): the printer, plain or formatted, the recursive
 parser, and the proof that the parser undoes the printer.
 */
module Json {
  import opened Wrappers
  import opened Bytes
  import opened JsonStrings

  const NESTING_LIMIT := 1000

  const COMMA: byte := 0x2C
  const COLON: byte := 0x3A
  const OPEN_BRACKET: byte := 0x5B
  const CLOSE_BRACKET: byte := 0x5D
  const OPEN_BRACE: byte := 0x7B
  const CLOSE_BRACE: byte := 0x7D

  const NULL: seq<byte> := [0x6E, 0x75, 0x6C, 0x6C]
  const FALSE: seq<byte> := [0x66, 0x61, 0x6C, 0x73, 0x65]
  const TRUE: seq<byte> := [0x74, 0x72, 0x75, 0x65]

  /** A tree as its printer and parser see it; a number is the text it is printed as. */
  datatype Json =
    | Null
    | False
    | True
    | Number(token: seq<byte>)
    | Text(x: seq<byte>)
    | Array(items: Items)
    | Object(members: Members)

  datatype Items = NoItems | Items(head: Json, tail: Items)

  datatype Members = NoMembers | Members(name: seq<byte>, value: Json, rest: Members)

  // ----- printing

  function Tabs(n: nat): (r: seq<byte>)
    ensures |r| == n && forall i :: 0 <= i < n ==> r[i] == 0x09
  {
    seq(n, _ => 0x09 as byte)
  }

  /** What the printer writes at a given depth, plain or formatted. */
  function Printed(t: Json, format: bool, depth: nat): seq<byte> {
    match t
    case Null => NULL
    case False => FALSE
    case True => TRUE
    case Number(token) => token
    case Text(x) => PrintedString(x)
    case Array(items) => [OPEN_BRACKET] + PrintedItems(items, format, depth + 1) + [CLOSE_BRACKET]
    case Object(members) =>
      Opening(format) + PrintedMembers(members, format, depth + 1) + Closing(format, depth)
  }

  function Opening(format: bool): seq<byte> {
    [OPEN_BRACE] + if format then [0x0A] else []
  }

  function Indent(format: bool, depth: nat): seq<byte> {
    if format then Tabs(depth) else []
  }

  function Closing(format: bool, depth: nat): seq<byte> {
    Indent(format, depth) + [CLOSE_BRACE]
  }

  function Separator(format: bool): seq<byte> {
    [COMMA] + if format then [0x20] else []
  }

  function PrintedItems(items: Items, format: bool, depth: nat): seq<byte> {
    match items
    case NoItems => []
    case Items(head, tail) =>
      Printed(head, format, depth) + if tail.NoItems? then [] else Separator(format) + PrintedItems(tail, format, depth)
  }

  function Colon(format: bool): seq<byte> {
    [COLON] + if format then [0x09] else []
  }

  /** Indentation, name and colon. */
  function Label(name: seq<byte>, format: bool, depth: nat): seq<byte> {
    Indent(format, depth) + PrintedString(name) + Colon(format)
  }

  function LineEnd(last: bool, format: bool): seq<byte> {
    (if last then [] else [COMMA]) + if format then [0x0A] else []
  }

  function PrintedMembers(members: Members, format: bool, depth: nat): seq<byte> {
    match members
    case NoMembers => []
    case Members(name, value, rest) =>
      Label(name, format, depth) + Printed(value, format, depth) +
      (LineEnd(rest.NoMembers?, format) + PrintedMembers(rest, format, depth))
  }

  // ----- parsing

  /** Text as the parser gets it, closed by NUL. */
  predicate Terminated(s: seq<byte>) {
    s != [] && s[|s| - 1] == 0
  }

  /** Past white space; the closing NUL counts as some, but is not passed. */
  function Skipped(s: seq<byte>, p: nat): (r: nat)
    requires p < |s|
    ensures p <= r < |s|
    decreases |s| - p
  {
    if s[p] <= 0x20 && p + 1 < |s| then Skipped(s, p + 1) else p
  }

  /** Tab, line feed, carriage return, space and other control characters are skipped, and nothing else. */
  lemma {:induction false} SkipsExactly(s: seq<byte>, p: nat)
    requires p < |s|
    ensures forall i :: p <= i < Skipped(s, p) ==> s[i] <= 32
    ensures s[Skipped(s, p)] > 32 || Skipped(s, p) == |s| - 1
    decreases |s| - p
  {
    if s[p] <= 0x20 && p + 1 < |s| {
      SkipsExactly(s, p + 1);
    }
  }

  predicate IsNumberChar(c: byte) {
    0x30 <= c <= 0x39 || c == 0x2B || c == 0x2D || c == 0x65 || c == 0x45 || c == 0x2E
  }

  predicate StartsNumber(c: byte) {
    c == 0x2D || 0x30 <= c <= 0x39
  }

  /** The end of the number characters from p on, at most n of them. */
  function RunEnd(s: seq<byte>, p: nat, n: nat): (r: nat)
    requires p <= |s|
    ensures p <= r <= |s| && r <= p + n
    decreases n
  {
    if n == 0 || p == |s| || !IsNumberChar(s[p]) then p else RunEnd(s, p + 1, n - 1)
  }

  lemma {:induction false} RunHolds(s: seq<byte>, p: nat, n: nat, i: nat)
    requires p <= |s| && p <= i < RunEnd(s, p, n)
    ensures IsNumberChar(s[i])
    decreases n
  {
    if p < i {
      RunHolds(s, p + 1, n - 1, i);
    }
  }

  /** How many bytes strtod takes of a text. */
  type Strtod = seq<byte> -> nat

  function NumberAt(s: seq<byte>, p: nat, strtod: Strtod): (r: Option<(Json, nat)>)
    requires p < |s| && Terminated(s)
    ensures r.Some? ==> p < r.value.1 < |s|
  {
    var token := s[p..RunEnd(s, p, 63)];
    var used := if strtod(token) <= |token| then strtod(token) else |token|;
    if used == 0 then None
    else
      RunHolds(s, p, 63, p + used - 1);
      Some((Number(token[..used]), p + used))
  }

  predicate Begins(s: seq<byte>, p: nat, word: seq<byte>) {
    p + |word| <= |s| && s[p..p + |word|] == word
  }

  function KeywordAt(s: seq<byte>, p: nat): (r: Option<(Json, nat)>)
    requires p < |s| && Terminated(s)
    ensures r.Some? ==> p < r.value.1 < |s|
  {
    if Begins(s, p, NULL) then
      assert s[p + 3] == s[p..p + 4][3];
      Some((Null, p + 4))
    else if Begins(s, p, FALSE) then
      assert s[p + 4] == s[p..p + 5][4];
      Some((False, p + 5))
    else if Begins(s, p, TRUE) then
      assert s[p + 3] == s[p..p + 4][3];
      Some((True, p + 4))
    else None
  }

  /** A value that holds no others: keyword, string or number. */
  function ScalarAt(s: seq<byte>, p: nat, strtod: Strtod): (r: Option<(Json, nat)>)
    requires p < |s| && Terminated(s)
    ensures r.Some? ==> p < r.value.1 < |s|
  {
    if KeywordAt(s, p).Some? then KeywordAt(s, p)
    else if s[p] == QUOTE then
      match StringAt(s, p)
      case None => None
      case Some((x, next)) => Some((Text(x), next))
    else if StartsNumber(s[p]) then NumberAt(s, p, strtod)
    else None
  }

  /** The value at p and the offset past it. */
  function ValueAt(s: seq<byte>, p: nat, depth: nat, strtod: Strtod): (r: Option<(Json, nat)>)
    requires p < |s| && Terminated(s)
    ensures r.Some? ==> p < r.value.1 < |s|
    decreases |s| - p, 0
  {
    if s[p] == OPEN_BRACKET then
      if depth >= NESTING_LIMIT then None
      else
        var q := Skipped(s, p + 1);
        if s[q] == CLOSE_BRACKET then Some((Array(NoItems), q + 1))
        else
          match ItemsAt(s, q, depth + 1, strtod)
          case None => None
          case Some((items, next)) => Some((Array(items), next))
    else if s[p] == OPEN_BRACE then
      if depth >= NESTING_LIMIT then None
      else
        var q := Skipped(s, p + 1);
        if s[q] == CLOSE_BRACE then Some((Object(NoMembers), q + 1))
        else
          match MembersAt(s, q, depth + 1, strtod)
          case None => None
          case Some((members, next)) => Some((Object(members), next))
    else ScalarAt(s, p, strtod)
  }

  /** The elements from p on, and the offset past the closing bracket. */
  function ItemsAt(s: seq<byte>, p: nat, depth: nat, strtod: Strtod): (r: Option<(Items, nat)>)
    requires p < |s| && Terminated(s)
    ensures r.Some? ==> p < r.value.1 < |s| && r.value.0.Items?
    decreases |s| - p, 1
  {
    match ValueAt(s, Skipped(s, p), depth, strtod)
    case None => None
    case Some((head, next)) =>
      var q := Skipped(s, next);
      if s[q] == COMMA then
        match ItemsAt(s, q + 1, depth, strtod)
        case None => None
        case Some((tail, end)) => Some((Items(head, tail), end))
      else if s[q] == CLOSE_BRACKET then Some((Items(head, NoItems), q + 1))
      else None
  }

  /** One name and value, and the offset past the value. */
  function MemberAt(s: seq<byte>, p: nat, depth: nat, strtod: Strtod): (r: Option<(seq<byte>, Json, nat)>)
    requires p < |s| && Terminated(s)
    ensures r.Some? ==> p < r.value.2 < |s|
    decreases |s| - p, 1
  {
    match StringAt(s, Skipped(s, p))
    case None => None
    case Some((name, e)) =>
      var colon := Skipped(s, e);
      if s[colon] != COLON then None
      else
        match ValueAt(s, Skipped(s, colon + 1), depth, strtod)
        case None => None
        case Some((value, next)) => Some((name, value, next))
  }

  /** The members from p on, and the offset past the closing brace. */
  function MembersAt(s: seq<byte>, p: nat, depth: nat, strtod: Strtod): (r: Option<(Members, nat)>)
    requires p < |s| && Terminated(s)
    ensures r.Some? ==> p < r.value.1 < |s| && r.value.0.Members?
    decreases |s| - p, 2
  {
    match MemberAt(s, p, depth, strtod)
    case None => None
    case Some((name, value, next)) =>
      var q := Skipped(s, next);
      if s[q] == COMMA then
        match MembersAt(s, q + 1, depth, strtod)
        case None => None
        case Some((rest, end)) => Some((Members(name, value, rest), end))
      else if s[q] == CLOSE_BRACE then Some((Members(name, value, NoMembers), q + 1))
      else None
  }

  /** cJSON_Parse of a text without its NUL: a byte order mark and white space may come first. */
  function Parsed(text: seq<byte>, strtod: Strtod): Option<Json> {
    var s := text + [0];
    var start := if |s| > 4 && s[0] == 0xEF && s[1] == 0xBB && s[2] == 0xBF then 3 else 0;
    match ValueAt(s, Skipped(s, start), 0, strtod)
    case None => None
    case Some((t, _)) => Some(t)
  }

  // ----- which trees come back

  /** Arrays and objects inside one another. */
  function Nesting(t: Json): nat {
    match t
    case Array(items) => 1 + NestingOfItems(items)
    case Object(members) => 1 + NestingOfMembers(members)
    case _ => 0
  }

  function Max(a: nat, b: nat): nat {
    if a < b then b else a
  }

  function NestingOfItems(items: Items): nat {
    match items
    case NoItems => 0
    case Items(head, tail) => Max(Nesting(head), NestingOfItems(tail))
  }

  function NestingOfMembers(members: Members): nat {
    match members
    case NoMembers => 0
    case Members(_, value, rest) => Max(Nesting(value), NestingOfMembers(rest))
  }

  /** A text the parser hands to strtod whole, and strtod takes whole. */
  predicate WholeNumber(token: seq<byte>, strtod: Strtod) {
    && 0 < |token| <= 63 && StartsNumber(token[0]) && strtod(token) >= |token|
    && forall i :: 0 <= i < |token| ==> IsNumberChar(token[i])
  }

  predicate WholeNumbers(t: Json, strtod: Strtod) {
    match t
    case Number(token) => WholeNumber(token, strtod)
    case Array(items) => WholeNumbersIn(items, strtod)
    case Object(members) => WholeNumbersAmong(members, strtod)
    case _ => true
  }

  predicate WholeNumbersIn(items: Items, strtod: Strtod) {
    match items
    case NoItems => true
    case Items(head, tail) => WholeNumbers(head, strtod) && WholeNumbersIn(tail, strtod)
  }

  predicate WholeNumbersAmong(members: Members, strtod: Strtod) {
    match members
    case NoMembers => true
    case Members(_, value, rest) => WholeNumbers(value, strtod) && WholeNumbersAmong(rest, strtod)
  }
}
