/** Parsing undoes printing, for every tree nested no deeper than the parser goes. */
module JsonRoundTrip {
  import opened Wrappers
  import opened Bytes
  import opened JsonStrings
  import opened Json

  // ----- single bytes

  lemma HeldByte(s: seq<byte>, p: nat, b: seq<byte>, i: nat)
    requires Holds(s, p, b) && i < |b|
    ensures p + |b| <= |s| && s[p + i] == b[i]
  {
    assert s[p..p + |b|][i] == b[i];
  }

  lemma {:induction false} SkipsTo(s: seq<byte>, p: nat, q: nat)
    requires p <= q < |s| && s[q] > 0x20
    requires forall i :: p <= i < q ==> s[i] <= 0x20
    ensures Skipped(s, p) == q
    decreases q - p
  {
    if p < q {
      SkipsTo(s, p + 1, q);
    }
  }

  /** White space w, and then a byte that is none. */
  lemma SkipsHeld(s: seq<byte>, p: nat, w: seq<byte>)
    requires Holds(s, p, w) && p + |w| < |s| && s[p + |w|] > 0x20
    requires forall i :: 0 <= i < |w| ==> w[i] <= 0x20
    ensures Skipped(s, p) == p + |w|
  {
    forall i | p <= i < p + |w| ensures s[i] <= 0x20 {
      HeldByte(s, p, w, i - p);
    }
    SkipsTo(s, p, p + |w|);
  }

  // ----- scalars

  /** How a printed value can begin. */
  predicate StartsValue(c: byte) {
    c == QUOTE || StartsNumber(c) || c == OPEN_BRACKET || c == OPEN_BRACE || c == 0x6E || c == 0x66 || c == 0x74
  }

  lemma PrintedStarts(t: Json, format: bool, depth: nat, strtod: Strtod)
    requires WholeNumbers(t, strtod)
    ensures Printed(t, format, depth) != [] && StartsValue(Printed(t, format, depth)[0])
  {
  }

  lemma {:induction false} RunIsHeld(s: seq<byte>, p: nat, token: seq<byte>, n: nat)
    requires Holds(s, p, token) && |token| <= n && p + |token| < |s| && !IsNumberChar(s[p + |token|])
    requires forall i :: 0 <= i < |token| ==> IsNumberChar(token[i])
    ensures RunEnd(s, p, n) == p + |token|
    decreases |token|
  {
    if token != [] {
      HeldByte(s, p, token, 0);
      assert token == [token[0]] + token[1..];
      HoldsParts(s, p, [token[0]], token[1..]);
      RunIsHeld(s, p + 1, token[1..], n - 1);
    }
  }

  lemma NumberReads(s: seq<byte>, p: nat, token: seq<byte>, strtod: Strtod)
    requires Terminated(s) && Holds(s, p, token) && p + |token| < |s| && !IsNumberChar(s[p + |token|])
    requires WholeNumber(token, strtod)
    ensures NumberAt(s, p, strtod) == Some((Number(token), p + |token|))
    ensures StartsNumber(s[p]) && KeywordAt(s, p).None?
  {
    hide RunEnd, KeywordAt;
    RunIsHeld(s, p, token, 63);
    assert s[p..p + |token|] == token && token[..|token|] == token;
    HeldByte(s, p, token, 0);
    NoKeyword(s, p);
  }

  lemma FirstOfWord(s: seq<byte>, p: nat, word: seq<byte>)
    requires word != [] && p < |s|
    ensures Begins(s, p, word) ==> s[p] == word[0]
  {
    if Begins(s, p, word) {
      HeldByte(s, p, word, 0);
    }
  }

  lemma NoKeyword(s: seq<byte>, p: nat)
    requires p < |s| && Terminated(s) && s[p] != 0x6E && s[p] != 0x66 && s[p] != 0x74
    ensures KeywordAt(s, p).None?
  {
    FirstOfWord(s, p, NULL);
    FirstOfWord(s, p, FALSE);
    FirstOfWord(s, p, TRUE);
  }

  lemma WordReads(s: seq<byte>, p: nat, t: Json, format: bool, depth: nat)
    requires Terminated(s) && p < |s| && (t.Null? || t.False? || t.True?) && Holds(s, p, Printed(t, format, depth))
    ensures KeywordAt(s, p) == Some((t, p + |Printed(t, format, depth)|))
  {
    FirstOfWord(s, p, NULL);
    FirstOfWord(s, p, FALSE);
    FirstOfWord(s, p, TRUE);
  }

  lemma ScalarReads(s: seq<byte>, p: nat, t: Json, format: bool, depth: nat, strtod: Strtod)
    requires Terminated(s) && !t.Array? && !t.Object? && WholeNumbers(t, strtod)
    requires Holds(s, p, Printed(t, format, depth))
    requires p + |Printed(t, format, depth)| < |s| && !IsNumberChar(s[p + |Printed(t, format, depth)|])
    ensures ScalarAt(s, p, strtod) == Some((t, p + |Printed(t, format, depth)|))
    ensures s[p] != OPEN_BRACKET && s[p] != OPEN_BRACE
  {
    hide StringAt, PrintedString, KeywordAt, NumberAt;
    PrintedStarts(t, format, depth, strtod);
    HeldByte(s, p, Printed(t, format, depth), 0);
    match t
    case Text(x) =>
      PrintedStringReads(s, p, x);
      NoKeyword(s, p);
    case Number(token) =>
      NumberReads(s, p, token, strtod);
    case _ =>
      WordReads(s, p, t, format, depth);
  }

  // ----- trees

  /** The tree printed at p is what the parser finds there. */
  ghost predicate Reads(s: seq<byte>, p: nat, t: Json, format: bool, printDepth: nat, depth: nat, strtod: Strtod)
    requires Terminated(s) && p < |s|
  {
    ValueAt(s, p, depth, strtod) == Some((t, p + |Printed(t, format, printDepth)|))
  }

  lemma {:induction false} ValueReads(s: seq<byte>, p: nat, t: Json, format: bool, printDepth: nat, depth: nat,
          strtod: Strtod)
    requires Terminated(s) && WholeNumbers(t, strtod) && depth + Nesting(t) <= NESTING_LIMIT
    requires Holds(s, p, Printed(t, format, printDepth))
    requires p + |Printed(t, format, printDepth)| < |s| && !IsNumberChar(s[p + |Printed(t, format, printDepth)|])
    ensures Reads(s, p, t, format, printDepth, depth, strtod)
    decreases t
  {
    match t
    case Array(items) =>
      ArrayReads(s, p, items, format, printDepth, depth, strtod);
    case Object(members) =>
      ObjectReads(s, p, members, format, printDepth, depth, strtod);
    case _ =>
      ScalarReads(s, p, t, format, printDepth, strtod);
  }

  lemma {:induction false} ArrayReads(s: seq<byte>, p: nat, items: Items, format: bool, printDepth: nat, depth: nat,
          strtod: Strtod)
    requires Terminated(s) && WholeNumbersIn(items, strtod) && depth + 1 + NestingOfItems(items) <= NESTING_LIMIT
    requires Holds(s, p, Printed(Array(items), format, printDepth))
    requires p + |Printed(Array(items), format, printDepth)| < |s|
    ensures Reads(s, p, Array(items), format, printDepth, depth, strtod)
    decreases items, 1
  {
    hide Holds, Skipped, ItemsAt, MembersAt, ScalarAt, PrintedItems;
    var body := PrintedItems(items, format, printDepth + 1);
    HoldsParts(s, p, [OPEN_BRACKET] + body, [CLOSE_BRACKET]);
    HoldsParts(s, p, [OPEN_BRACKET], body);
    HeldByte(s, p, [OPEN_BRACKET], 0);
    HoldsJoin(s, p + 1, body, [CLOSE_BRACKET]);
    ItemsBegin(s, p + 1, items, format, printDepth + 1, strtod);
    SkipsTo(s, p + 1, p + 1);
    if items.Items? {
      ItemsRead(s, p + 1, p + 1, items, format, printDepth + 1, depth + 1, strtod);
    }
  }

  lemma ItemsBegin(s: seq<byte>, p: nat, items: Items, format: bool, printDepth: nat, strtod: Strtod)
    requires WholeNumbersIn(items, strtod) && Holds(s, p, PrintedItems(items, format, printDepth) + [CLOSE_BRACKET])
    ensures p < |s| && (if items.NoItems? then s[p] == CLOSE_BRACKET else StartsValue(s[p]))
    ensures items.NoItems? ==> PrintedItems(items, format, printDepth) == []
  {
    hide Printed, WholeNumbers;
    HeldByte(s, p, PrintedItems(items, format, printDepth) + [CLOSE_BRACKET], 0);
    if items.Items? {
      PrintedStarts(items.head, format, printDepth, strtod);
    }
  }

  lemma LastItem(s: seq<byte>, p: nat, head: Json, next: nat, depth: nat, strtod: Strtod)
    requires Terminated(s) && p < |s| && ValueAt(s, Skipped(s, p), depth, strtod) == Some((head, next))
    requires Skipped(s, next) == next && s[next] == CLOSE_BRACKET
    ensures ItemsAt(s, p, depth, strtod) == Some((Items(head, NoItems), next + 1))
  {
    hide ValueAt;
  }

  lemma OneMoreItem(s: seq<byte>, p: nat, head: Json, next: nat, tail: Items, end: nat, depth: nat, strtod: Strtod)
    requires Terminated(s) && p < |s| && ValueAt(s, Skipped(s, p), depth, strtod) == Some((head, next))
    requires Skipped(s, next) == next && s[next] == COMMA && next + 1 < |s|
    requires ItemsAt(s, next + 1, depth, strtod) == Some((tail, end))
    ensures ItemsAt(s, p, depth, strtod) == Some((Items(head, tail), end))
  {
    hide ValueAt;
  }

  lemma LastItemHolds(s: seq<byte>, b: nat, items: Items, format: bool, printDepth: nat)
    requires items.Items? && items.tail.NoItems?
    requires Holds(s, b, PrintedItems(items, format, printDepth) + [CLOSE_BRACKET])
    ensures var next := b + |Printed(items.head, format, printDepth)|;
            && Holds(s, b, Printed(items.head, format, printDepth)) && next == b + |PrintedItems(items, format, printDepth)|
            && next < |s| && s[next] == CLOSE_BRACKET && Skipped(s, next) == next && !IsNumberChar(s[next])
  {
    hide Holds, Printed, Skipped;
    var head := Printed(items.head, format, printDepth);
    assert PrintedItems(items, format, printDepth) == head;
    HoldsParts(s, b, head, [CLOSE_BRACKET]);
    HeldByte(s, b + |head|, [CLOSE_BRACKET], 0);
    SkipsTo(s, b + |head|, b + |head|);
  }

  lemma ItemHolds(s: seq<byte>, b: nat, items: Items, format: bool, printDepth: nat, strtod: Strtod)
    requires items.Items? && items.tail.Items? && WholeNumbersIn(items, strtod)
    requires Holds(s, b, PrintedItems(items, format, printDepth) + [CLOSE_BRACKET])
    ensures var next := b + |Printed(items.head, format, printDepth)|;
            var b2 := next + |Separator(format)|;
            && Holds(s, b, Printed(items.head, format, printDepth))
            && next + 1 < |s| && s[next] == COMMA && !IsNumberChar(s[next]) && Skipped(s, next) == next && Skipped(s, next + 1) == b2
            && Holds(s, b2, PrintedItems(items.tail, format, printDepth) + [CLOSE_BRACKET])
            && b2 + |PrintedItems(items.tail, format, printDepth)| == b + |PrintedItems(items, format, printDepth)|
  {
    hide Holds, Printed, Skipped;
    var head, rest := Printed(items.head, format, printDepth), PrintedItems(items.tail, format, printDepth);
    var next := b + |head|;
    var b2 := next + |Separator(format)|;
    HoldsParts(s, b, PrintedItems(items, format, printDepth), [CLOSE_BRACKET]);
    HoldsParts(s, b, head, Separator(format) + rest);
    HoldsParts(s, next, Separator(format), rest);
    HoldsJoin(s, b2, rest, [CLOSE_BRACKET]);
    HoldsParts(s, next, [COMMA], if format then [0x20] else []);
    HeldByte(s, next, [COMMA], 0);
    ItemsBegin(s, b2, items.tail, format, printDepth, strtod);
    SkipsTo(s, next, next);
    SkipsHeld(s, next + 1, if format then [0x20] else []);
  }

  lemma ItemParts(items: Items, depth: nat, strtod: Strtod)
    requires items.Items? && WholeNumbersIn(items, strtod) && depth + NestingOfItems(items) <= NESTING_LIMIT
    ensures WholeNumbers(items.head, strtod) && depth + Nesting(items.head) <= NESTING_LIMIT
    ensures WholeNumbersIn(items.tail, strtod) && depth + NestingOfItems(items.tail) <= NESTING_LIMIT
  {
  }

  /** The elements printed at b, with only white space between p and b. */
  lemma {:induction false} ItemsRead(s: seq<byte>, p: nat, b: nat, items: Items, format: bool, printDepth: nat,
          depth: nat, strtod: Strtod)
    requires Terminated(s) && items.Items? && WholeNumbersIn(items, strtod)
    requires depth + NestingOfItems(items) <= NESTING_LIMIT
    requires p < |s| && Skipped(s, p) == b && Holds(s, b, PrintedItems(items, format, printDepth) + [CLOSE_BRACKET])
    requires b + |PrintedItems(items, format, printDepth)| + 1 < |s|
    ensures ItemsAt(s, p, depth, strtod) == Some((items, b + |PrintedItems(items, format, printDepth)| + 1))
    decreases items, 0
  {
    hide Holds, ValueAt, ItemsAt, Printed, PrintedItems;
    hide Skipped, WholeNumbers, WholeNumbersIn, Nesting, NestingOfItems, IsNumberChar;
    ItemParts(items, depth, strtod);
    var next := b + |Printed(items.head, format, printDepth)|;
    if items.tail.NoItems? {
      LastItemHolds(s, b, items, format, printDepth);
      ValueReads(s, b, items.head, format, printDepth, depth, strtod);
      LastItem(s, p, items.head, next, depth, strtod);
    } else {
      var b2 := next + |Separator(format)|;
      var end := b2 + |PrintedItems(items.tail, format, printDepth)| + 1;
      ItemHolds(s, b, items, format, printDepth, strtod);
      assert ValueAt(s, b, depth, strtod) == Some((items.head, next)) by {
        ValueReads(s, b, items.head, format, printDepth, depth, strtod);
      }
      assert ItemsAt(s, next + 1, depth, strtod) == Some((items.tail, end)) by {
        ItemsRead(s, next + 1, b2, items.tail, format, printDepth, depth, strtod);
      }
      OneMoreItem(s, p, items.head, next, items.tail, end, depth, strtod);
    }
  }

  /** An object's brace, and where the first name or the closing brace is found. */
  lemma ObjectHolds(s: seq<byte>, p: nat, members: Members, format: bool, printDepth: nat)
    requires Holds(s, p, Printed(Object(members), format, printDepth))
    ensures var b, end := p + |Opening(format)|, p + |Printed(Object(members), format, printDepth)| - 1;
            && p + 1 < |s| && s[p] == OPEN_BRACE
            && Holds(s, b, PrintedMembers(members, format, printDepth + 1) + Closing(format, printDepth))
            && (members.NoMembers? ==> p < end < |s| && Skipped(s, p + 1) == end && s[end] == CLOSE_BRACE)
            && (members.Members? ==>
                  var n := b + |Indent(format, printDepth + 1)|;
                  n < |s| && Skipped(s, p + 1) == n && s[n] == QUOTE && Skipped(s, n) == n)
  {
    hide Holds, Skipped, PrintedMembers, Closing, Indent;
    var body, closing := PrintedMembers(members, format, printDepth + 1), Closing(format, printDepth);
    var line := if format then [0x0A] else [];
    var b := p + |Opening(format)|;
    HoldsParts(s, p, Opening(format) + body, closing);
    HoldsParts(s, p, Opening(format), body);
    HoldsParts(s, p, [OPEN_BRACE], line);
    HeldByte(s, p, [OPEN_BRACE], 0);
    HoldsJoin(s, b, body, closing);
    if members.NoMembers? {
      NoneToPrint(format, printDepth + 1);
      ClosingReads(s, p + 1, line, format, printDepth);
    } else {
      NameStands(s, b, members, format, printDepth + 1, closing);
      WhiteThenName(s, p + 1, line, format, printDepth + 1);
      var n := b + |Indent(format, printDepth + 1)|;
      SkipsTo(s, n, n);
    }
  }

  lemma {:induction false} ObjectReads(s: seq<byte>, p: nat, members: Members, format: bool, printDepth: nat,
          depth: nat, strtod: Strtod)
    requires Terminated(s) && WholeNumbersAmong(members, strtod)
    requires depth + 1 + NestingOfMembers(members) <= NESTING_LIMIT
    requires Holds(s, p, Printed(Object(members), format, printDepth))
    requires p + |Printed(Object(members), format, printDepth)| < |s|
    ensures Reads(s, p, Object(members), format, printDepth, depth, strtod)
    decreases members, 1
  {
    hide Holds, Skipped, ItemsAt, MembersAt, ScalarAt;
    hide PrintedMembers, Closing, Indent, WholeNumbersAmong, NestingOfMembers;
    ObjectHolds(s, p, members, format, printDepth);
    if members.Members? {
      var b := p + |Opening(format)|;
      MembersRead(s, b + |Indent(format, printDepth + 1)|, b, members, format, printDepth, depth + 1, strtod);
    }
  }

  lemma NoneToPrint(format: bool, depth: nat)
    ensures PrintedMembers(NoMembers, format, depth) == []
  {
  }

  /** A line's end and the indentation before a name are skipped. */
  lemma WhiteThenName(s: seq<byte>, p: nat, line: seq<byte>, format: bool, depth: nat)
    requires Holds(s, p, line) && Holds(s, p + |line|, Indent(format, depth))
    requires forall i :: 0 <= i < |line| ==> line[i] <= 0x20
    requires p + |line| + |Indent(format, depth)| < |s| && s[p + |line| + |Indent(format, depth)|] == QUOTE
    ensures Skipped(s, p) == p + |line| + |Indent(format, depth)|
  {
    HoldsJoin(s, p, line, Indent(format, depth));
    SkipsHeld(s, p, line + Indent(format, depth));
  }

  lemma HoldsJoin(s: seq<byte>, p: nat, a: seq<byte>, b: seq<byte>)
    requires Holds(s, p, a) && Holds(s, p + |a|, b)
    ensures Holds(s, p, a + b)
  {
    assert s[p..p + |a + b|] == s[p..p + |a|] + s[p + |a|..p + |a| + |b|];
  }

  /** White space, indentation and the closing brace. */
  lemma ClosingReads(s: seq<byte>, p: nat, white: seq<byte>, format: bool, depth: nat)
    requires Holds(s, p, white) && Holds(s, p + |white|, Closing(format, depth))
    requires forall i :: 0 <= i < |white| ==> white[i] <= 0x20
    ensures Skipped(s, p) == p + |white| + |Closing(format, depth)| - 1
    ensures s[p + |white| + |Closing(format, depth)| - 1] == CLOSE_BRACE
  {
    var indent := Indent(format, depth);
    HoldsParts(s, p + |white|, indent, [CLOSE_BRACE]);
    HeldByte(s, p + |white| + |indent|, [CLOSE_BRACE], 0);
    HoldsJoin(s, p, white, indent);
    SkipsHeld(s, p, white + indent);
  }

  /** Where the first member's name stands. */
  lemma NameStands(s: seq<byte>, b: nat, members: Members, format: bool, printDepth: nat, more: seq<byte>)
    requires members.Members? && Holds(s, b, PrintedMembers(members, format, printDepth) + more)
    ensures Holds(s, b, Indent(format, printDepth)) && b + |Indent(format, printDepth)| < |s|
    ensures s[b + |Indent(format, printDepth)|] == QUOTE
  {
    hide Holds, PrintedString, Printed, Colon, LineEnd;
    MemberHolds(s, b, members, format, printDepth, more);
    var indent, name := Indent(format, printDepth), PrintedString(members.name);
    HoldsParts(s, b, indent + name, Colon(format));
    HoldsParts(s, b, indent, name);
    NameBegins(members.name);
    HeldByte(s, b + |indent|, name, 0);
  }

  lemma NameBegins(name: seq<byte>)
    ensures PrintedString(name) != [] && PrintedString(name)[0] == QUOTE
  {
  }

  lemma LabelReads(s: seq<byte>, b: nat, name: seq<byte>, format: bool, printDepth: nat)
    requires Holds(s, b, Label(name, format, printDepth)) && b + |Label(name, format, printDepth)| < |s|
    requires s[b + |Label(name, format, printDepth)|] > 0x20
    ensures var e := b + |Indent(format, printDepth)| + |PrintedString(name)|;
            && StringAt(s, b + |Indent(format, printDepth)|) == Some((name, e)) && e + 1 < |s|
            && Skipped(s, e) == e && s[e] == COLON && Skipped(s, e + 1) == b + |Label(name, format, printDepth)|
  {
    hide Holds, Indent, PrintedString, StringAt, Skipped;
    var indent := Indent(format, printDepth);
    var e := b + |indent| + |PrintedString(name)|;
    HoldsParts(s, b, indent + PrintedString(name), Colon(format));
    HoldsParts(s, b, indent, PrintedString(name));
    PrintedStringReads(s, b + |indent|, name);
    HeldByte(s, e, Colon(format), 0);
    SkipsTo(s, e, e);
    HoldsParts(s, e, [COLON], if format then [0x09] else []);
    SkipsHeld(s, e + 1, if format then [0x09] else []);
  }

  /** The pieces of the first member printed at b. */
  lemma MemberHolds(s: seq<byte>, b: nat, members: Members, format: bool, printDepth: nat, more: seq<byte>)
    requires members.Members? && Holds(s, b, PrintedMembers(members, format, printDepth) + more)
    ensures var v := b + |Label(members.name, format, printDepth)|;
            var next := v + |Printed(members.value, format, printDepth)|;
            var line := LineEnd(members.rest.NoMembers?, format);
            && Holds(s, b, Label(members.name, format, printDepth)) && Holds(s, v, Printed(members.value, format, printDepth))
            && Holds(s, next, line) && Holds(s, next + |line|, PrintedMembers(members.rest, format, printDepth) + more)
  {
    hide Holds, Printed, Label, LineEnd;
    var name, value := Label(members.name, format, printDepth), Printed(members.value, format, printDepth);
    var line, rest := LineEnd(members.rest.NoMembers?, format), PrintedMembers(members.rest, format, printDepth);
    HoldsParts(s, b, name + value + (line + rest), more);
    HoldsParts(s, b, name + value, line + rest);
    HoldsParts(s, b, name, value);
    HoldsParts(s, b + |name| + |value|, line, rest);
    HoldsJoin(s, b + |name| + |value| + |line|, rest, more);
  }

  lemma LastMember(s: seq<byte>, p: nat, name: seq<byte>, colon: nat, value: Json, next: nat, end: nat, depth: nat,
          strtod: Strtod)
    requires Terminated(s) && p < |s| && StringAt(s, Skipped(s, p)) == Some((name, colon)) && colon + 1 < |s|
    requires Skipped(s, colon) == colon && s[colon] == COLON
    requires ValueAt(s, Skipped(s, colon + 1), depth, strtod) == Some((value, next))
    requires next <= end < |s| && Skipped(s, next) == end && s[end] == CLOSE_BRACE
    ensures MembersAt(s, p, depth, strtod) == Some((Members(name, value, NoMembers), end + 1))
  {
    hide ValueAt, StringAt;
  }

  lemma OneMoreMember(s: seq<byte>, p: nat, name: seq<byte>, colon: nat, value: Json, next: nat, rest: Members,
          end: nat, depth: nat, strtod: Strtod)
    requires Terminated(s) && p < |s| && StringAt(s, Skipped(s, p)) == Some((name, colon)) && colon + 1 < |s|
    requires Skipped(s, colon) == colon && s[colon] == COLON
    requires ValueAt(s, Skipped(s, colon + 1), depth, strtod) == Some((value, next))
    requires next + 1 < |s| && Skipped(s, next) == next && s[next] == COMMA
    requires MembersAt(s, next + 1, depth, strtod) == Some((rest, end))
    ensures MembersAt(s, p, depth, strtod) == Some((Members(name, value, rest), end))
  {
    hide ValueAt, StringAt;
  }

  /** The first member printed at b, parsed up to its value. */
  lemma MemberReads(s: seq<byte>, b: nat, members: Members, format: bool, inner: nat, more: seq<byte>, strtod: Strtod)
    requires members.Members? && WholeNumbersAmong(members, strtod)
    requires Holds(s, b, PrintedMembers(members, format, inner) + more)
    ensures var v := b + |Label(members.name, format, inner)|;
            var colon := b + |Indent(format, inner)| + |PrintedString(members.name)|;
            var next := v + |Printed(members.value, format, inner)|;
            var b2 := next + |LineEnd(members.rest.NoMembers?, format)|;
            && StringAt(s, b + |Indent(format, inner)|) == Some((members.name, colon)) && colon + 1 < |s|
            && Skipped(s, colon) == colon && s[colon] == COLON && Skipped(s, colon + 1) == v
            && Holds(s, v, Printed(members.value, format, inner))
            && Holds(s, next, LineEnd(members.rest.NoMembers?, format))
            && Holds(s, b2, PrintedMembers(members.rest, format, inner) + more)
            && b2 + |PrintedMembers(members.rest, format, inner)| == b + |PrintedMembers(members, format, inner)|
  {
    hide Holds, StringAt, Skipped, Printed, PrintedString, Indent, Colon, LineEnd;
    MemberHolds(s, b, members, format, inner, more);
    PrintedStarts(members.value, format, inner, strtod);
    HeldByte(s, b + |Label(members.name, format, inner)|, Printed(members.value, format, inner), 0);
    LabelReads(s, b, members.name, format, inner);
  }

  lemma LastMemberEnds(s: seq<byte>, next: nat, format: bool, outer: nat)
    requires Holds(s, next, LineEnd(true, format))
    requires Holds(s, next + |LineEnd(true, format)|, PrintedMembers(NoMembers, format, outer + 1) + Closing(format, outer))
    ensures var end := next + |LineEnd(true, format)| + |Closing(format, outer)| - 1;
            && next <= end < |s| && Skipped(s, next) == end && s[end] == CLOSE_BRACE && !IsNumberChar(s[next])
  {
    assert PrintedMembers(NoMembers, format, outer + 1) + Closing(format, outer) == Closing(format, outer);
    ClosingReads(s, next, LineEnd(true, format), format, outer);
    AfterLast(s, next, LineEnd(true, format), format, outer);
  }

  lemma MemberEnds(s: seq<byte>, next: nat, rest: Members, format: bool, inner: nat, more: seq<byte>)
    requires rest.Members? && Holds(s, next, LineEnd(false, format))
    requires Holds(s, next + |LineEnd(false, format)|, PrintedMembers(rest, format, inner) + more)
    ensures next + 1 < |s| && s[next] == COMMA && !IsNumberChar(s[next]) && Skipped(s, next) == next
    ensures Skipped(s, next + 1) == next + |LineEnd(false, format)| + |Indent(format, inner)|
  {
    hide Holds, Skipped, PrintedMembers, Indent;
    var line := if format then [0x0A] else [];
    HoldsParts(s, next, [COMMA], line);
    HeldByte(s, next, [COMMA], 0);
    SkipsTo(s, next, next);
    NameStands(s, next + |LineEnd(false, format)|, rest, format, inner, more);
    WhiteThenName(s, next + 1, line, format, inner);
  }

  lemma MemberParts(members: Members, depth: nat, strtod: Strtod)
    requires members.Members? && WholeNumbersAmong(members, strtod)
    requires depth + NestingOfMembers(members) <= NESTING_LIMIT
    ensures WholeNumbers(members.value, strtod) && depth + Nesting(members.value) <= NESTING_LIMIT
    ensures WholeNumbersAmong(members.rest, strtod) && depth + NestingOfMembers(members.rest) <= NESTING_LIMIT
  {
  }

  /** The members printed at b, with only white space between p and the first name. */
  lemma {:induction false} MembersRead(s: seq<byte>, p: nat, b: nat, members: Members, format: bool, outer: nat,
          depth: nat, strtod: Strtod)
    requires Terminated(s) && members.Members? && WholeNumbersAmong(members, strtod)
    requires depth + NestingOfMembers(members) <= NESTING_LIMIT
    requires p < |s| && Skipped(s, p) == b + |Indent(format, outer + 1)|
    requires Holds(s, b, PrintedMembers(members, format, outer + 1) + Closing(format, outer))
    requires b + |PrintedMembers(members, format, outer + 1)| + |Closing(format, outer)| < |s|
    ensures MembersAt(s, p, depth, strtod)
         == Some((members, b + |PrintedMembers(members, format, outer + 1)| + |Closing(format, outer)|))
    decreases members, 0
  {
    hide Holds, ValueAt, MembersAt, StringAt, Skipped, Printed, PrintedString, Label, Indent, Closing, LineEnd;
    hide WholeNumbers, WholeNumbersAmong, Nesting, NestingOfMembers, IsNumberChar;
    MemberParts(members, depth, strtod);
    var inner := outer + 1;
    var v := b + |Label(members.name, format, inner)|;
    var colon := b + |Indent(format, inner)| + |PrintedString(members.name)|;
    var next := v + |Printed(members.value, format, inner)|;
    var b2 := next + |LineEnd(members.rest.NoMembers?, format)|;
    MemberReads(s, b, members, format, inner, Closing(format, outer), strtod);
    if members.rest.NoMembers? {
      NoneToPrint(format, inner);
      hide PrintedMembers;
      LastMemberEnds(s, next, format, outer);
      ValueReads(s, v, members.value, format, inner, depth, strtod);
      LastMember(s, p, members.name, colon, members.value, next, b2 + |Closing(format, outer)| - 1, depth, strtod);
    } else {
      hide PrintedMembers;
      MemberEnds(s, next, members.rest, format, inner, Closing(format, outer));
      ValueReads(s, v, members.value, format, inner, depth, strtod);
      MembersRead(s, next + 1, b2, members.rest, format, outer, depth, strtod);
      OneMoreMember(s, p, members.name, colon, members.value, next, members.rest,
                    b2 + |PrintedMembers(members.rest, format, inner)| + |Closing(format, outer)|, depth, strtod);
    }
  }

  /** What follows the last value is no part of a number. */
  lemma AfterLast(s: seq<byte>, next: nat, line: seq<byte>, format: bool, outer: nat)
    requires line == LineEnd(true, format) && Holds(s, next, line) && Holds(s, next + |line|, Closing(format, outer))
    ensures next < |s| && !IsNumberChar(s[next])
  {
    HoldsJoin(s, next, line, Closing(format, outer));
    HeldByte(s, next, line + Closing(format, outer), 0);
  }

  // ----- the limit

  /** Whatever the text, the parser returns no tree that nests deeper than it goes. */
  lemma {:induction false} ValueIsShallow(s: seq<byte>, p: nat, depth: nat, strtod: Strtod)
    requires Terminated(s) && p < |s| && depth <= NESTING_LIMIT && ValueAt(s, p, depth, strtod).Some?
    ensures depth + Nesting(ValueAt(s, p, depth, strtod).value.0) <= NESTING_LIMIT
    decreases |s| - p, 0
  {
    hide Skipped, ScalarAt, ItemsAt, MembersAt;
    if s[p] == OPEN_BRACKET {
      var q := Skipped(s, p + 1);
      if s[q] != CLOSE_BRACKET {
        ItemsAreShallow(s, q, depth + 1, strtod);
      }
    } else if s[p] == OPEN_BRACE {
      var q := Skipped(s, p + 1);
      if s[q] != CLOSE_BRACE {
        MembersAreShallow(s, q, depth + 1, strtod);
      }
    } else {
      ScalarIsFlat(s, p, strtod);
    }
  }

  lemma ScalarIsFlat(s: seq<byte>, p: nat, strtod: Strtod)
    requires Terminated(s) && p < |s| && ScalarAt(s, p, strtod).Some?
    ensures Nesting(ScalarAt(s, p, strtod).value.0) == 0
  {
  }

  lemma {:induction false} ItemsAreShallow(s: seq<byte>, p: nat, depth: nat, strtod: Strtod)
    requires Terminated(s) && p < |s| && depth <= NESTING_LIMIT && ItemsAt(s, p, depth, strtod).Some?
    ensures depth + NestingOfItems(ItemsAt(s, p, depth, strtod).value.0) <= NESTING_LIMIT
    decreases |s| - p, 1
  {
    hide Skipped, ValueAt;
    ValueIsShallow(s, Skipped(s, p), depth, strtod);
    var next := ValueAt(s, Skipped(s, p), depth, strtod).value.1;
    var q := Skipped(s, next);
    if s[q] == COMMA {
      ItemsAreShallow(s, q + 1, depth, strtod);
    }
  }

  lemma {:induction false} MembersAreShallow(s: seq<byte>, p: nat, depth: nat, strtod: Strtod)
    requires Terminated(s) && p < |s| && depth <= NESTING_LIMIT && MembersAt(s, p, depth, strtod).Some?
    ensures depth + NestingOfMembers(MembersAt(s, p, depth, strtod).value.0) <= NESTING_LIMIT
    decreases |s| - p, 1
  {
    hide Skipped, ValueAt, StringAt;
    var colon := Skipped(s, StringAt(s, Skipped(s, p)).value.1);
    ValueIsShallow(s, Skipped(s, colon + 1), depth, strtod);
    var next := ValueAt(s, Skipped(s, colon + 1), depth, strtod).value.1;
    var q := Skipped(s, next);
    if s[q] == COMMA {
      MembersAreShallow(s, q + 1, depth, strtod);
    }
  }

  // ----- the whole text

  /**
   The round trip. A tree whose numbers strtod takes as printed is what parsing its plain or
   formatted print gives back, exactly when it is nested at most 1000 deep.
   */
  lemma {:induction false} ParsedUndoesPrinted(t: Json, format: bool, strtod: Strtod)
    requires WholeNumbers(t, strtod)
    ensures Parsed(Printed(t, format, 0), strtod) == Some(t) <==> Nesting(t) <= NESTING_LIMIT
  {
    hide Printed, WholeNumbers, Nesting, ValueAt, Skipped;
    var text := Printed(t, format, 0);
    var s := text + [0];
    assert s[..|text|] == text;
    PrintedStarts(t, format, 0, strtod);
    assert s[0] == text[0];
    SkipsTo(s, 0, 0);
    if Nesting(t) <= NESTING_LIMIT {
      ValueReads(s, 0, t, format, 0, 0, strtod);
    } else if ValueAt(s, 0, 0, strtod).Some? {
      ValueIsShallow(s, 0, 0, strtod);
    }
  }
}
