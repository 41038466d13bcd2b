/** Levenshtein distance and its semi-global form, computed row by row. */
module Alignment {
  import opened Basics

  function Cost(a: char, b: char): nat { if a == b then 0 else 1 }

  function Init(s: string): string
    requires s != ""
  {
    s[..|s| - 1]
  }

  function Last(s: string): char
    requires s != ""
  {
    s[|s| - 1]
  }

  function Distance(a: string, b: string): (d: nat)
    decreases |a| + |b|
  {
    if a == "" then |b|
    else if b == "" then |a|
    else Min(Min(Distance(Init(a), b), Distance(a, Init(b))) + 1, Distance(Init(a), Init(b)) + Cost(Last(a), Last(b)))
  }

  // Distance is a metric

  lemma {:induction false} DistanceIsSymmetric(a: string, b: string)
    ensures Distance(a, b) == Distance(b, a)
    decreases |a| + |b|
  {
    if a != "" && b != "" {
      DistanceIsSymmetric(Init(a), b);
      DistanceIsSymmetric(a, Init(b));
      DistanceIsSymmetric(Init(a), Init(b));
    }
  }

  lemma {:induction false} DistanceBounds(a: string, b: string)
    ensures |a| - |b| <= Distance(a, b) && |b| - |a| <= Distance(a, b)
    ensures Distance(a, b) <= |a| + |b|
    decreases |a| + |b|
  {
    if a != "" && b != "" {
      DistanceBounds(Init(a), b);
      DistanceBounds(a, Init(b));
      DistanceBounds(Init(a), Init(b));
    }
  }

  lemma {:induction false} ZeroIsEqual(a: string, b: string)
    ensures Distance(a, b) == 0 <==> a == b
    decreases |a| + |b|
  {
    if a != "" && b != "" {
      ZeroIsEqual(Init(a), Init(b));
      assert a == Init(a) + [Last(a)] && b == Init(b) + [Last(b)];
    }
  }

  /** Each of the three choices bounds the distance. */
  lemma Choices(a: string, b: string)
    ensures a != "" ==> Distance(a, b) <= Distance(Init(a), b) + 1
    ensures b != "" ==> Distance(a, b) <= Distance(a, Init(b)) + 1
    ensures a != "" && b != "" ==> Distance(a, b) <= Distance(Init(a), Init(b)) + Cost(Last(a), Last(b))
  {
    DistanceBounds(a, b);
    if a != "" { DistanceBounds(Init(a), b); }
    if b != "" { DistanceBounds(a, Init(b)); }
  }

  lemma {:induction false} Triangle(a: string, b: string, c: string)
    ensures Distance(a, c) <= Distance(a, b) + Distance(b, c)
    decreases |a| + |b| + |c|
  {
    DistanceBounds(a, b);
    DistanceBounds(b, c);
    DistanceBounds(a, c);
    if a != "" && b != "" && c != "" {
      Choices(a, c);
      if Distance(a, b) == Distance(Init(a), b) + 1 {
        Triangle(Init(a), b, c);
      } else if Distance(b, c) == Distance(b, Init(c)) + 1 {
        Triangle(a, b, Init(c));
      } else {
        Triangle(a, Init(b), c);
        Triangle(a, Init(b), Init(c));
        Triangle(Init(a), Init(b), c);
        Triangle(Init(a), Init(b), Init(c));
      }
    }
  }

  // Distance is the length of the shortest edit script

  /** One change of one character, anywhere in the text. */
  datatype Edit = Insert(at: nat, c: char) | Delete(at: nat) | Replace(at: nat, c: char)

  predicate Fits(e: Edit, s: string) {
    if e.Insert? then e.at <= |s| else e.at < |s|
  }

  function Edited(s: string, e: Edit): string
    requires Fits(e, s)
  {
    match e
    case Insert(k, c) => s[..k] + [c] + s[k..]
    case Delete(k) => s[..k] + s[k + 1..]
    case Replace(k, c) => s[..k] + [c] + s[k + 1..]
  }

  ghost predicate Turns(a: string, script: seq<Edit>, b: string)
    decreases |script|
  {
    if script == [] then a == b
    else Fits(script[0], a) && Turns(Edited(a, script[0]), script[1..], b)
  }

  lemma {:induction false} SameEnd(a: string, b: string, end: string)
    ensures Distance(a + end, b + end) <= Distance(a, b)
    decreases |end|
  {
    if end == "" {
      assert a + end == a && b + end == b;
    } else {
      SameEnd(a, b, Init(end));
      Choices(a + end, b + end);
      assert Init(a + end) == a + Init(end) && Init(b + end) == b + Init(end);
    }
  }

  lemma OneMoreCharacter(front: string, c: char)
    ensures Distance(front, front + [c]) <= 1 && Distance(front + [c], front) <= 1
  {
    ZeroIsEqual(front, front);
    Choices(front, front + [c]);
    Choices(front + [c], front);
    assert Init(front + [c]) == front;
  }

  lemma AnotherCharacter(front: string, c: char, d: char)
    ensures Distance(front + [c], front + [d]) <= 1
  {
    ZeroIsEqual(front, front);
    Choices(front + [c], front + [d]);
    assert Init(front + [c]) == front && Init(front + [d]) == front;
  }

  lemma AfterTheFront(front: string, u: string, v: string)
    requires |u| <= 1 && |v| <= 1
    ensures Distance(front + u, front + v) <= 1
  {
    if u != "" && v != "" {
      AnotherCharacter(front, u[0], v[0]);
      assert u == [u[0]] && v == [v[0]];
    } else if u != "" {
      OneMoreCharacter(front, u[0]);
      assert u == [u[0]] && front + v == front;
    } else if v != "" {
      OneMoreCharacter(front, v[0]);
      assert v == [v[0]] && front + u == front;
    } else {
      ZeroIsEqual(front + u, front + v);
    }
  }

  lemma Around(front: string, u: string, v: string, end: string)
    requires |u| <= 1 && |v| <= 1
    ensures Distance(front + u + end, front + v + end) <= 1
  {
    AfterTheFront(front, u, v);
    SameEnd(front + u, front + v, end);
  }

  lemma OneEditApart(s: string, e: Edit)
    requires Fits(e, s)
    ensures Distance(s, Edited(s, e)) <= 1
  {
    var front := s[..e.at];
    var u := if e.Insert? then "" else [s[e.at]];
    var v := if e.Delete? then "" else [e.c];
    var end := s[e.at + |u|..];
    Around(front, u, v, end);
    assert front + u + end == s && front + v + end == Edited(s, e);
  }

  /** No script is shorter than the distance. */
  lemma {:induction false} NoShorterScript(a: string, script: seq<Edit>, b: string)
    requires Turns(a, script, b)
    ensures Distance(a, b) <= |script|
    decreases |script|
  {
    if script == [] {
      ZeroIsEqual(a, b);
    } else {
      var next := Edited(a, script[0]);
      NoShorterScript(next, script[1..], b);
      OneEditApart(a, script[0]);
      Triangle(a, next, b);
    }
  }

  lemma {:induction false} ThenOne(a: string, script: seq<Edit>, b: string, e: Edit)
    requires Turns(a, script, b) && Fits(e, b)
    ensures Turns(a, script + [e], Edited(b, e))
    decreases |script|
  {
    if script == [] {
      assert [e][1..] == [];
    } else {
      ThenOne(Edited(a, script[0]), script[1..], b, e);
      assert (script + [e])[1..] == script[1..] + [e];
    }
  }

  lemma EditedBefore(s: string, e: Edit, c: char)
    requires Fits(e, s)
    ensures Fits(e, s + [c]) && Edited(s + [c], e) == Edited(s, e) + [c]
  {
    var k := e.at;
    assert (s + [c])[..k] == s[..k];
    if e.Insert? {
      assert (s + [c])[k..] == s[k..] + [c];
    } else {
      assert (s + [c])[k + 1..] == s[k + 1..] + [c];
    }
  }

  /** A script does the same in front of one more character. */
  lemma {:induction false} BeforeOneMore(a: string, script: seq<Edit>, b: string, c: char)
    requires Turns(a, script, b)
    ensures Turns(a + [c], script, b + [c])
    decreases |script|
  {
    if script != [] {
      var e := script[0];
      BeforeOneMore(Edited(a, e), script[1..], b, c);
      EditedBefore(a, e, c);
    }
  }

  lemma {:induction false} InsertAll(b: string) returns (script: seq<Edit>)
    ensures Turns("", script, b) && |script| == |b|
    decreases |b|
  {
    if b == "" {
      script := [];
    } else {
      var init := InsertAll(Init(b));
      var e := Insert(|b| - 1, Last(b));
      ThenOne("", init, Init(b), e);
      script := init + [e];
      assert Edited(Init(b), e) == b;
    }
  }

  lemma {:induction false} DeleteLast(a: string, script: seq<Edit>, b: string)
    requires a != "" && Turns(Init(a), script, b)
    ensures Turns(a, [Delete(|a| - 1)] + script, b)
  {
    assert Edited(a, Delete(|a| - 1)) == Init(a);
    assert ([Delete(|a| - 1)] + script)[1..] == script;
  }

  /** Some script is as short as the distance. */
  lemma {:induction false} ShortestScript(a: string, b: string) returns (script: seq<Edit>)
    ensures Turns(a, script, b) && |script| == Distance(a, b)
    decreases |a| + |b|
  {
    if a == "" {
      script := InsertAll(b);
    } else if b == "" {
      var rest := ShortestScript(Init(a), b);
      DeleteLast(a, rest, b);
      script := [Delete(|a| - 1)] + rest;
      assert Distance(Init(a), "") == |a| - 1;
    } else if Distance(a, b) == Distance(Init(a), b) + 1 {
      var rest := ShortestScript(Init(a), b);
      DeleteLast(a, rest, b);
      script := [Delete(|a| - 1)] + rest;
    } else if Distance(a, b) == Distance(a, Init(b)) + 1 {
      var rest := ShortestScript(a, Init(b));
      script := InsertLast(a, rest, b);
    } else {
      var rest := ShortestScript(Init(a), Init(b));
      script := ReplaceLast(a, rest, b);
    }
  }

  lemma InsertLast(a: string, rest: seq<Edit>, b: string) returns (script: seq<Edit>)
    requires b != "" && Turns(a, rest, Init(b))
    ensures Turns(a, script, b) && |script| == |rest| + 1
  {
    var e := Insert(|b| - 1, Last(b));
    ThenOne(a, rest, Init(b), e);
    script := rest + [e];
    assert Edited(Init(b), e) == b;
  }

  lemma ReplaceLast(a: string, rest: seq<Edit>, b: string) returns (script: seq<Edit>)
    requires a != "" && b != "" && Turns(Init(a), rest, Init(b))
    ensures Turns(a, script, b) && |script| == |rest| + Cost(Last(a), Last(b))
  {
    BeforeOneMore(Init(a), rest, Init(b), Last(a));
    assert Init(a) + [Last(a)] == a && Init(b) + [Last(b)] == b;
    if Last(a) == Last(b) {
      script := rest;
    } else {
      var e := Replace(|b| - 1, Last(b));
      ThenOne(a, rest, Init(b) + [Last(a)], e);
      script := rest + [e];
      assert Edited(Init(b) + [Last(a)], e) == b;
    }
  }

  // The row-by-row computation

  /** The next entry of a row, from its three neighbours. */
  function Entry(above: nat, beside: nat, across: nat, a: char, b: char): nat {
    Min(Min(above + 1, beside + 1), across + Cost(a, b))
  }

  ghost predicate IsRow(row: seq<nat>, a: string, b: string) {
    |row| <= |b| + 1 && forall j :: 0 <= j < |row| ==> row[j] == Distance(a, b[..j])
  }

  method EditDistance(one: string, other: string) returns (d: nat)
    ensures d == Distance(one, other)
  {
    var left, right := one, other;
    if |left| < |right| {
      left, right := right, left;
      DistanceIsSymmetric(one, other);
    }
    var previous: seq<nat> := seq(|right| + 1, j => j);
    FirstRow(right, previous);
    for i := 0 to |left|
      invariant |previous| == |right| + 1 && IsRow(previous, left[..i], right)
    {
      var current: seq<nat> := [i + 1];
      FirstEntry(left[..i + 1], right);
      for j := 0 to |right|
        invariant |current| == j + 1 && IsRow(current, left[..i + 1], right)
      {
        NextEntry(left, i, right, j, previous, current);
        current := current + [Entry(previous[j + 1], current[j], previous[j], left[i], right[j])];
      }
      previous := current;
    }
    assert left[..|left|] == left && right[..|right|] == right;
    d := previous[|previous| - 1];
  }

  lemma FirstRow(right: string, row: seq<nat>)
    requires |row| == |right| + 1 && forall j :: 0 <= j < |row| ==> row[j] == j
    ensures IsRow(row, "", right)
  {
  }

  lemma FirstEntry(a: string, right: string)
    ensures IsRow([|a|], a, right)
  {
  }

  lemma NextEntry(left: string, i: nat, right: string, j: nat, previous: seq<nat>, current: seq<nat>)
    requires i < |left| && j < |right| && |previous| == |right| + 1 && |current| == j + 1
    requires IsRow(previous, left[..i], right) && IsRow(current, left[..i + 1], right)
    ensures IsRow(current + [Entry(previous[j + 1], current[j], previous[j], left[i], right[j])], left[..i + 1], right)
  {
    var a, b := left[..i + 1], right[..j + 1];
    assert Init(a) == left[..i] && Init(b) == right[..j] && Last(a) == left[i] && Last(b) == right[j];
  }
}
