/** The nesting of a JSON text, counted byte by byte, against the depth of the value it spells. */
module JsonDepth {
  import opened Basics

  // The scanner

  datatype Scan = Scan(depth: nat, deepest: nat, inString: bool, escaped: bool) {
    function Next(c: char): Scan {
      if inString then
        if escaped then this.(escaped := false)
        else if c == '\\' then this.(escaped := true)
        else if c == '"' then this.(inString := false)
        else this
      else if c == '"' then this.(inString := true)
      else if c == '{' || c == '[' then this.(depth := depth + 1, deepest := Max(deepest, depth + 1))
      else if c == '}' || c == ']' then this.(depth := if depth == 0 then 0 else depth - 1)
      else this
    }
  }

  function Run(scan: Scan, text: string): Scan
    decreases |text|
  {
    if text == "" then scan else Run(scan.Next(text[0]), text[1..])
  }

  const START := Scan(0, 0, false, false)

  method Depth(data: string) returns (deepest: nat)
    ensures deepest == Run(START, data).deepest
  {
    var depth: nat := 0;
    deepest := 0;
    var inString, escaped := false, false;
    for n := 0 to |data|
      invariant Run(START, data) == Run(Scan(depth, deepest, inString, escaped), data[n..])
    {
      var c := data[n];
      assert data[n..][1..] == data[n + 1..];
      if inString {
        if escaped {
          escaped := false;
        } else if c == '\\' {
          escaped := true;
        } else if c == '"' {
          inString := false;
        }
      } else if c == '"' {
        inString := true;
      } else if c == '{' || c == '[' {
        depth := depth + 1;
        deepest := Max(deepest, depth);
      } else if c == '}' || c == ']' {
        depth := if depth == 0 then 0 else depth - 1;
      }
    }
    assert data[|data|..] == "";
  }

  // JSON texts

  /** Characters that stand outside strings and brackets: whitespace, commas, colons, numbers and
      the three literal names. */
  predicate IsPlain(c: char) { c != '"' && c != '{' && c != '[' && c != '}' && c != ']' }

  predicate Plain(text: string) { forall i :: 0 <= i < |text| ==> IsPlain(text[i]) }

  /** What may stand between the quotes of a string: any character but a quote or a backslash, or a
      backslash and the character it escapes, as section 7 of RFC 8259 writes strings. */
  predicate IsBody(body: string) {
    || body == ""
    || (body[0] != '"' && body[0] != '\\' && IsBody(body[1..]))
    || (body[0] == '\\' && |body| >= 2 && IsBody(body[2..]))
  }

  /** A JSON text as it is spelled, with everything plain between its tokens kept. */
  datatype Json =
    | Atom(text: string)
    | Text(body: string)
    | Array(gap: string, items: Items)
    | Object(gap: string, members: Members)

  datatype Items = NoItem | Item(value: Json, gap: string, rest: Items)
  datatype Members = NoMember | Member(key: string, colon: string, value: Json, gap: string, rest: Members)

  predicate WellSpelled(j: Json) {
    match j
    case Atom(text) => Plain(text)
    case Text(body) => IsBody(body)
    case Array(gap, items) => Plain(gap) && ItemsWellSpelled(items)
    case Object(gap, members) => Plain(gap) && MembersWellSpelled(members)
  }

  predicate ItemsWellSpelled(items: Items) {
    items.Item? ==> WellSpelled(items.value) && Plain(items.gap) && ItemsWellSpelled(items.rest)
  }

  predicate MembersWellSpelled(members: Members) {
    members.Member? ==>
      IsBody(members.key) && Plain(members.colon) && WellSpelled(members.value)
        && Plain(members.gap) && MembersWellSpelled(members.rest)
  }

  function Spelled(j: Json): string {
    match j
    case Atom(text) => text
    case Text(body) => "\"" + body + "\""
    case Array(gap, items) => "[" + gap + ItemsSpelled(items) + "]"
    case Object(gap, members) => "{" + gap + MembersSpelled(members) + "}"
  }

  function ItemsSpelled(items: Items): string {
    match items
    case NoItem => ""
    case Item(value, gap, rest) => Spelled(value) + gap + ItemsSpelled(rest)
  }

  function MembersSpelled(members: Members): string {
    match members
    case NoMember => ""
    case Member(key, colon, value, gap, rest) => "\"" + key + "\"" + colon + Spelled(value) + gap + MembersSpelled(rest)
  }

  function ValueDepth(j: Json): nat {
    match j
    case Array(_, items) => 1 + ItemsDepth(items)
    case Object(_, members) => 1 + MembersDepth(members)
    case _ => 0
  }

  function ItemsDepth(items: Items): nat {
    match items
    case NoItem => 0
    case Item(value, _, rest) => Max(ValueDepth(value), ItemsDepth(rest))
  }

  function MembersDepth(members: Members): nat {
    match members
    case NoMember => 0
    case Member(_, _, value, _, rest) => Max(ValueDepth(value), MembersDepth(rest))
  }

  // The scanner reads a text part by part

  lemma {:induction false} RunOn(scan: Scan, a: string, b: string)
    ensures Run(scan, a + b) == Run(Run(scan, a), b)
    decreases |a|
  {
    if a == "" {
      assert a + b == b;
    } else {
      RunOn(scan.Next(a[0]), a[1..], b);
      assert (a + b)[1..] == a[1..] + b;
    }
  }

  lemma {:induction false} PlainChangesNothing(scan: Scan, text: string)
    requires !scan.inString && Plain(text)
    ensures Run(scan, text) == scan
    decreases |text|
  {
    if text != "" {
      PlainChangesNothing(scan, text[1..]);
    }
  }

  lemma {:induction false} BodyStaysInside(scan: Scan, body: string)
    requires scan.inString && !scan.escaped && IsBody(body)
    ensures Run(scan, body) == scan
    decreases |body|
  {
    if body != "" {
      if body[0] == '\\' {
        BodyStaysInside(scan, body[2..]);
        assert body[1..][1..] == body[2..];
        assert scan.Next(body[0]).Next(body[1]) == scan;
        assert Run(scan.Next(body[0]), body[1..]) == Run(scan, body[2..]);
      } else {
        BodyStaysInside(scan, body[1..]);
      }
    }
  }

  /** A string changes nothing, whatever brackets, quotes and backslashes it holds. */
  lemma StringChangesNothing(scan: Scan, body: string)
    requires !scan.inString && !scan.escaped && IsBody(body)
    ensures Run(scan, "\"" + body + "\"") == scan
  {
    var inside := scan.(inString := true);
    OneCharacter(scan, '"');
    OneCharacter(inside, '"');
    BodyStaysInside(inside, body);
    RunOn(scan, "\"", body);
    RunOn(scan, "\"" + body, "\"");
  }

  lemma OneCharacter(scan: Scan, c: char)
    ensures Run(scan, [c]) == scan.Next(c)
  {
    assert [c][1..] == "";
  }

  function Outside(depth: nat, deepest: nat): Scan { Scan(depth, deepest, false, false) }

  /** A value leaves the depth as it was and the deepest at least its own depth below. */
  lemma {:induction false} ValueIsCounted(depth: nat, deepest: nat, j: Json)
    requires WellSpelled(j) && depth <= deepest
    ensures Run(Outside(depth, deepest), Spelled(j)) == Outside(depth, Max(deepest, depth + ValueDepth(j)))
    decreases j
  {
    match j
    case Atom(text) =>
      PlainChangesNothing(Outside(depth, deepest), text);
    case Text(body) =>
      StringChangesNothing(Outside(depth, deepest), body);
    case Array(gap, items) =>
      ItemsAreCounted(depth + 1, Max(deepest, depth + 1), items);
      Bracketed(depth, deepest, '[', gap, ItemsSpelled(items), ']', ItemsDepth(items));
    case Object(gap, members) =>
      MembersAreCounted(depth + 1, Max(deepest, depth + 1), members);
      Bracketed(depth, deepest, '{', gap, MembersSpelled(members), '}', MembersDepth(members));
  }

  lemma Bracketed(depth: nat, deepest: nat, left: char, gap: string, inner: string, right: char, below: nat)
    requires (left == '[' || left == '{') && (right == ']' || right == '}') && Plain(gap) && depth <= deepest
    requires Run(Outside(depth + 1, Max(deepest, depth + 1)), inner) ==
      Outside(depth + 1, Max(Max(deepest, depth + 1), depth + 1 + below))
    ensures Run(Outside(depth, deepest), [left] + gap + inner + [right]) ==
      Outside(depth, Max(deepest, depth + 1 + below))
  {
    var start, within := Outside(depth, deepest), Outside(depth + 1, Max(deepest, depth + 1));
    OneCharacter(start, left);
    PlainChangesNothing(within, gap);
    OneCharacter(Run(within, inner), right);
    RunOn(start, [left], gap);
    RunOn(start, [left] + gap, inner);
    RunOn(start, [left] + gap + inner, [right]);
  }

  lemma {:induction false} ItemsAreCounted(depth: nat, deepest: nat, items: Items)
    requires ItemsWellSpelled(items) && depth <= deepest
    ensures Run(Outside(depth, deepest), ItemsSpelled(items)) == Outside(depth, Max(deepest, depth + ItemsDepth(items)))
    decreases items
  {
    if items.Item? {
      var start, after := Outside(depth, deepest), Max(deepest, depth + ValueDepth(items.value));
      ValueIsCounted(depth, deepest, items.value);
      PlainChangesNothing(Outside(depth, after), items.gap);
      ItemsAreCounted(depth, after, items.rest);
      RunOn(start, Spelled(items.value), items.gap);
      RunOn(start, Spelled(items.value) + items.gap, ItemsSpelled(items.rest));
    }
  }

  lemma {:induction false} MembersAreCounted(depth: nat, deepest: nat, members: Members)
    requires MembersWellSpelled(members) && depth <= deepest
    ensures Run(Outside(depth, deepest), MembersSpelled(members)) ==
      Outside(depth, Max(deepest, depth + MembersDepth(members)))
    decreases members
  {
    if members.Member? {
      var start, after := Outside(depth, deepest), Max(deepest, depth + ValueDepth(members.value));
      var key := "\"" + members.key + "\"";
      StringChangesNothing(start, members.key);
      PlainChangesNothing(start, members.colon);
      ValueIsCounted(depth, deepest, members.value);
      PlainChangesNothing(Outside(depth, after), members.gap);
      MembersAreCounted(depth, after, members.rest);
      RunOn(start, key, members.colon);
      RunOn(start, key + members.colon, Spelled(members.value));
      RunOn(start, key + members.colon + Spelled(members.value), members.gap);
      RunOn(start, key + members.colon + Spelled(members.value) + members.gap, MembersSpelled(members.rest));
    }
  }

  /** However a value is spelled, with whatever around it, the scanner counts its depth. */
  lemma ScannedIsValueDepth(before: string, j: Json, after: string)
    requires WellSpelled(j) && Plain(before) && Plain(after)
    ensures Run(START, before + Spelled(j) + after).deepest == ValueDepth(j)
  {
    PlainChangesNothing(START, before);
    ValueIsCounted(0, 0, j);
    PlainChangesNothing(Outside(0, ValueDepth(j)), after);
    RunOn(START, before, Spelled(j));
    RunOn(START, before + Spelled(j), after);
  }
}
