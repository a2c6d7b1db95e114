/** The loops behind the JSON parser and printer (src/cJSON.cpp), over the buffers they move along. */
module JsonBuffers {
  import opened Wrappers
  import opened Bytes
  import opened JsonStrings
  import opened Json

  /** A linked list built by adding nodes at its end, before it is closed by tail. */
  function Chain(children: seq<Json>, tail: Items): Items {
    if children == [] then tail
    else Chain(children[..|children| - 1], Items(children[|children| - 1], tail))
  }

  function Chained(children: seq<Json>, rest: Option<(Items, nat)>): Option<(Items, nat)> {
    match rest
    case None => None
    case Some((tail, end)) => Some((Chain(children, tail), end))
  }

  function ChainMembers(children: seq<(seq<byte>, Json)>, tail: Members): Members {
    if children == [] then tail
    else
      var (name, value) := children[|children| - 1];
      ChainMembers(children[..|children| - 1], Members(name, value, tail))
  }

  function ChainedMembers(children: seq<(seq<byte>, Json)>, rest: Option<(Members, nat)>): Option<(Members, nat)> {
    match rest
    case None => None
    case Some((tail, end)) => Some((ChainMembers(children, tail), end))
  }

  class ParseBuffer {
    const content: seq<byte>
    const strtod: Strtod
    var offset: nat
    var depth: nat

    predicate Valid()
      reads this`offset
    {
      Terminated(content) && offset < |content|
    }

    constructor (text: seq<byte>, strtod: Strtod)
      ensures Valid() && content == text + [0] && this.strtod == strtod && offset == 0 && depth == 0
    {
      content, this.strtod := text + [0], strtod;
      offset, depth := 0, 0;
    }

    method BufferSkipWhitespace()
      requires Valid()
      modifies this`offset
      ensures Valid() && offset == Skipped(content, old(offset))
    {
      while offset < |content| && content[offset] <= 0x20
        invariant old(offset) <= offset <= |content|
        invariant if offset < |content| then Skipped(content, offset) == Skipped(content, old(offset))
                  else Skipped(content, old(offset)) == |content| - 1
      {
        offset := offset + 1;
      }
      if offset == |content| {
        offset := offset - 1;
      }
    }

    method ParseScalar() returns (ok: bool, t: Json)
      requires Valid()
      modifies this`offset
      ensures ok == ScalarAt(content, old(offset), strtod).Some?
      ensures ok ==> Valid() && (t, offset) == ScalarAt(content, old(offset), strtod).value
    {
      t := Null;
      if Begins(content, offset, NULL) {
        offset := offset + 4;
        return true, Null;
      }
      if Begins(content, offset, FALSE) {
        offset := offset + 5;
        return true, False;
      }
      if Begins(content, offset, TRUE) {
        offset := offset + 4;
        return true, True;
      }
      if content[offset] == QUOTE {
        var x, next;
        ok, x, next := ParseString(content, offset);
        t, offset := Text(x), next;
        return;
      }
      ok := false;
      if StartsNumber(content[offset]) {
        ok, t := ParseNumber();
      }
    }

    method NumberEnd() returns (end: nat)
      requires Valid()
      ensures end == RunEnd(content, offset, 63)
    {
      hide IsNumberChar;
      var i := 0;
      while i < 63 && offset + i < |content| && IsNumberChar(content[offset + i])
        invariant i <= 63 && offset + i <= |content|
        invariant RunEnd(content, offset, 63) == RunEnd(content, offset + i, 63 - i)
      {
        i := i + 1;
      }
      end := offset + i;
    }

    method ParseNumber() returns (ok: bool, t: Json)
      requires Valid()
      modifies this`offset
      ensures ok == NumberAt(content, old(offset), strtod).Some?
      ensures ok ==> Valid() && (t, offset) == NumberAt(content, old(offset), strtod).value
    {
      hide IsNumberChar, RunEnd;
      var end := NumberEnd();
      var token := content[offset..end];
      var used := if strtod(token) <= |token| then strtod(token) else |token|;
      t := Number(token[..used]);
      ok := used != 0;
      offset := offset + used;
    }

    method ParseValue() returns (ok: bool, t: Json)
      requires Valid()
      modifies this`offset, this`depth
      ensures ok == ValueAt(content, old(offset), old(depth), strtod).Some?
      ensures ok ==> Valid() && depth == old(depth) && (t, offset) == ValueAt(content, old(offset), old(depth), strtod).value
      decreases |content| - offset, 1
    {
      hide Skipped, ScalarAt, ItemsAt, MembersAt;
      if content[offset] == OPEN_BRACKET {
        ok, t := ParseArray();
      } else if content[offset] == OPEN_BRACE {
        ok, t := ParseObject();
      } else {
        ok, t := ParseScalar();
      }
    }

    method ParseArray() returns (ok: bool, t: Json)
      requires Valid() && content[offset] == OPEN_BRACKET
      modifies this`offset, this`depth
      ensures ok == ValueAt(content, old(offset), old(depth), strtod).Some?
      ensures ok ==> Valid() && depth == old(depth) && (t, offset) == ValueAt(content, old(offset), old(depth), strtod).value
      decreases |content| - offset, 0
    {
      hide Skipped, ScalarAt, ItemsAt, MembersAt;
      t := Null;
      if depth >= NESTING_LIMIT {
        return false, t;
      }
      depth := depth + 1;
      offset := offset + 1;
      BufferSkipWhitespace();
      if content[offset] == CLOSE_BRACKET {
        depth := depth - 1;
        offset := offset + 1;
        return true, Array(NoItems);
      }
      var items;
      ok, items := ParseElements();
      if !ok {
        return;
      }
      depth := depth - 1;
      t := Array(items);
    }

    method ParseElements() returns (ok: bool, items: Items)
      requires Valid() && offset > 0 && depth > 0
      modifies this`offset, this`depth
      ensures ok == ItemsAt(content, old(offset), old(depth), strtod).Some?
      ensures ok ==> Valid() && depth == old(depth) && (items, offset) == ItemsAt(content, old(offset), old(depth), strtod).value
      decreases |content| - offset, 2
    {
      hide Skipped, ValueAt;
      ghost var goal := ItemsAt(content, offset, depth, strtod);
      ghost var start, d := offset, depth;
      var children: seq<Json> := [];
      items := NoItems;
      offset := offset - 1;
      var more := true;
      while more
        invariant depth == d > 0 && offset + 1 >= start && Valid()
        invariant more ==> offset + 1 < |content| && goal == Chained(children, ItemsAt(content, offset + 1, d, strtod))
        invariant !more ==> goal == if content[offset] == CLOSE_BRACKET then Some((Chain(children, NoItems), offset + 1)) else None
        invariant !more && content[offset] == CLOSE_BRACKET ==> offset + 1 < |content|
        decreases |content| - offset
      {
        offset := offset + 1;
        BufferSkipWhitespace();
        var parsed, child := ParseValue();
        if !parsed {
          return false, items;
        }
        children := children + [child];
        BufferSkipWhitespace();
        more := content[offset] == COMMA;
        assert children[..|children| - 1] + [child] == children;
      }
      ok := content[offset] == CLOSE_BRACKET;
      items := Chain(children, NoItems);
      offset := offset + 1;
    }

    method ParseObject() returns (ok: bool, t: Json)
      requires Valid() && content[offset] == OPEN_BRACE
      modifies this`offset, this`depth
      ensures ok == ValueAt(content, old(offset), old(depth), strtod).Some?
      ensures ok ==> Valid() && depth == old(depth) && (t, offset) == ValueAt(content, old(offset), old(depth), strtod).value
      decreases |content| - offset, 0
    {
      hide Skipped, ScalarAt, ItemsAt, MembersAt;
      t := Null;
      if depth >= NESTING_LIMIT {
        return false, t;
      }
      depth := depth + 1;
      offset := offset + 1;
      BufferSkipWhitespace();
      if content[offset] == CLOSE_BRACE {
        depth := depth - 1;
        offset := offset + 1;
        return true, Object(NoMembers);
      }
      var members;
      ok, members := ParseMembers();
      if !ok {
        return;
      }
      depth := depth - 1;
      t := Object(members);
    }

    method ParseMembers() returns (ok: bool, members: Members)
      requires Valid() && offset > 0 && depth > 0
      modifies this`offset, this`depth
      ensures ok == MembersAt(content, old(offset), old(depth), strtod).Some?
      ensures ok ==> Valid() && depth == old(depth) && (members, offset) == MembersAt(content, old(offset), old(depth), strtod).value
      decreases |content| - offset, 3
    {
      hide Skipped, MemberAt;
      ghost var goal := MembersAt(content, offset, depth, strtod);
      ghost var start, d := offset, depth;
      var children: seq<(seq<byte>, Json)> := [];
      members := NoMembers;
      offset := offset - 1;
      var more := true;
      while more
        invariant depth == d > 0 && offset + 1 >= start && Valid()
        invariant more ==> offset + 1 < |content| && goal == ChainedMembers(children, MembersAt(content, offset + 1, d, strtod))
        invariant !more ==> goal == if content[offset] == CLOSE_BRACE then Some((ChainMembers(children, NoMembers), offset + 1)) else None
        invariant !more && content[offset] == CLOSE_BRACE ==> offset + 1 < |content|
        decreases |content| - offset
      {
        offset := offset + 1;
        var parsed, name, child;
        parsed, name, child := ParseMember();
        if !parsed {
          return false, members;
        }
        children := children + [(name, child)];
        BufferSkipWhitespace();
        more := content[offset] == COMMA;
        assert children[..|children| - 1] + [(name, child)] == children;
      }
      ok := content[offset] == CLOSE_BRACE;
      members := ChainMembers(children, NoMembers);
      offset := offset + 1;
    }

    /** A name, a colon and a value, up to the end of the value. */
    method ParseMember() returns (ok: bool, name: seq<byte>, child: Json)
      requires Valid()
      modifies this`offset, this`depth
      ensures ok == MemberAt(content, old(offset), old(depth), strtod).Some?
      ensures ok ==> Valid() && depth == old(depth) && (name, child, offset) == MemberAt(content, old(offset), old(depth), strtod).value
      decreases |content| - offset, 2
    {
      hide Skipped, ValueAt, StringAt;
      child := Null;
      BufferSkipWhitespace();
      var next;
      ok, name, next := ParseString(content, offset);
      if !ok {
        return;
      }
      offset := next;
      BufferSkipWhitespace();
      if content[offset] != COLON {
        ok := false;
        return;
      }
      offset := offset + 1;
      BufferSkipWhitespace();
      ok, child := ParseValue();
    }
  }

  /** cJSON_Parse. */
  method Parse(text: seq<byte>, strtod: Strtod) returns (ok: bool, t: Json)
    ensures (if ok then Some(t) else None) == Parsed(text, strtod)
  {
    hide Skipped, ValueAt;
    var buffer := new ParseBuffer(text, strtod);
    var s := buffer.content;
    if |s| > 4 && s[0] == 0xEF && s[1] == 0xBB && s[2] == 0xBF {
      buffer.offset := 3;
    }
    buffer.BufferSkipWhitespace();
    ok, t := buffer.ParseValue();
  }

  // ----- printing

  /** What the printer has written; growing the allocation behind it is not modelled. */
  class PrintBuffer {
    const format: bool
    var buffer: seq<byte>
    var depth: nat

    constructor (format: bool)
      ensures this.format == format && buffer == [] && depth == 0
    {
      this.format, buffer, depth := format, [], 0;
    }

    method PrintValue(t: Json)
      modifies this`buffer, this`depth
      ensures buffer == old(buffer) + Printed(t, format, old(depth)) && depth == old(depth)
      decreases t, 0
    {
      match t
      case Null => buffer := buffer + NULL;
      case False => buffer := buffer + FALSE;
      case True => buffer := buffer + TRUE;
      case Number(token) => buffer := buffer + token;
      case Text(x) => PrintString(x);
      case Array(items) => PrintArray(items);
      case Object(members) => PrintObject(members);
    }

    method PrintString(x: seq<byte>)
      modifies this`buffer
      ensures buffer == old(buffer) + PrintedString(x)
    {
      var output := PrintStringPtr(x);
      buffer := buffer + output[..output.Length - 1];
      assert output[..output.Length - 1] == PrintedString(x);
    }

    method PrintArray(items: Items)
      modifies this`buffer, this`depth
      ensures buffer == old(buffer) + Printed(Array(items), format, old(depth)) && depth == old(depth)
      decreases items, 1
    {
      hide Printed, PrintedItems;
      buffer := buffer + [OPEN_BRACKET];
      depth := depth + 1;
      ghost var before := buffer;
      var current := items;
      while current.Items?
        invariant depth == old(depth) + 1
        invariant current == items || current < items
        invariant buffer + PrintedItems(current, format, depth) == before + PrintedItems(items, format, depth)
        decreases current
      {
        ghost var was := buffer;
        PrintValue(current.head);
        if current.tail.Items? {
          buffer := buffer + ([COMMA] + if format then [0x20] else []);
        }
        OneItem(was, current, format, depth, buffer);
        current := current.tail;
      }
      AllItems(old(buffer), items, format, old(depth), buffer);
      buffer := buffer + [CLOSE_BRACKET];
      depth := depth - 1;
    }

    lemma OneItem(was: seq<byte>, current: Items, format: bool, depth: nat, now: seq<byte>)
      requires current.Items?
      requires now == was + Printed(current.head, format, depth) + if current.tail.Items? then Separator(format) else []
      ensures now + PrintedItems(current.tail, format, depth) == was + PrintedItems(current, format, depth)
    {
      hide Printed;
    }

    lemma AllItems(start: seq<byte>, items: Items, format: bool, depth: nat, now: seq<byte>)
      requires now + PrintedItems(NoItems, format, depth + 1) == start + [OPEN_BRACKET] + PrintedItems(items, format, depth + 1)
      ensures now + [CLOSE_BRACKET] == start + Printed(Array(items), format, depth)
    {
      var body := PrintedItems(items, format, depth + 1);
      assert start + [OPEN_BRACKET] + body + [CLOSE_BRACKET] == start + ([OPEN_BRACKET] + body + [CLOSE_BRACKET]);
    }

    method PrintObject(members: Members)
      modifies this`buffer, this`depth
      ensures buffer == old(buffer) + Printed(Object(members), format, old(depth)) && depth == old(depth)
      decreases members, 1
    {
      hide Printed, PrintedMembers, PrintedString, Tabs;
      buffer := buffer + ([OPEN_BRACE] + if format then [0x0A] else []);
      depth := depth + 1;
      ghost var before := buffer;
      var current := members;
      while current.Members?
        invariant depth == old(depth) + 1
        invariant current == members || current < members
        invariant buffer + PrintedMembers(current, format, depth) == before + PrintedMembers(members, format, depth)
        decreases current
      {
        ghost var was := buffer;
        if format {
          buffer := buffer + Tabs(depth);
        }
        assert buffer == was + Indent(format, depth);
        PrintString(current.name);
        buffer := buffer + ([COLON] + if format then [0x09] else []);
        PrintValue(current.value);
        buffer := buffer + ((if current.rest.NoMembers? then [] else [COMMA]) + if format then [0x0A] else []);
        OneMember(was, current, format, depth, buffer);
        current := current.rest;
      }
      AllMembers(old(buffer), members, format, old(depth), buffer);
      if format {
        buffer := buffer + Tabs(depth - 1);
      }
      buffer := buffer + [CLOSE_BRACE];
      depth := depth - 1;
    }

    lemma OneMember(was: seq<byte>, current: Members, format: bool, depth: nat, now: seq<byte>)
      requires current.Members?
      requires now == was + Indent(format, depth) + PrintedString(current.name) + Colon(format)
                      + Printed(current.value, format, depth) + LineEnd(current.rest.NoMembers?, format)
      ensures now + PrintedMembers(current.rest, format, depth) == was + PrintedMembers(current, format, depth)
    {
      hide Printed, PrintedString, Indent, Colon, LineEnd;
    }

    lemma AllMembers(start: seq<byte>, members: Members, format: bool, depth: nat, now: seq<byte>)
      requires now + PrintedMembers(NoMembers, format, depth + 1) == start + Opening(format) + PrintedMembers(members, format, depth + 1)
      ensures now + Indent(format, depth) + [CLOSE_BRACE] == start + Printed(Object(members), format, depth)
    {
      hide Indent, Opening;
      var body := PrintedMembers(members, format, depth + 1);
      assert now == now + PrintedMembers(NoMembers, format, depth + 1);
      assert start + Opening(format) + body + Indent(format, depth) + [CLOSE_BRACE]
          == start + (Opening(format) + body + (Indent(format, depth) + [CLOSE_BRACE]));
    }
  }

  /** cJSON_Print and cJSON_PrintUnformatted. */
  method Print(t: Json, format: bool) returns (text: seq<byte>)
    ensures text == Printed(t, format, 0)
  {
    var p := new PrintBuffer(format);
    p.PrintValue(t);
    text := p.buffer;
  }
}
