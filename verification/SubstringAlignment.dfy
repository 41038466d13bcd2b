/** The least distance between a text and any substring of another. */
module SubstringAlignment {
  import opened Basics
  import opened Alignment

  /** The least distance between `a` and any ending of `h`. */
  function EndDistance(a: string, h: string): (d: nat)
    decreases |a| + |h|
  {
    if a == "" then 0
    else if h == "" then |a|
    else Min(Min(EndDistance(Init(a), h), EndDistance(a, Init(h))) + 1,
      EndDistance(Init(a), Init(h)) + Cost(Last(a), Last(h)))
  }

  /** No ending is nearer. */
  lemma {:induction false} NoNearerEnding(a: string, h: string, k: nat)
    requires k <= |h|
    ensures EndDistance(a, h) <= Distance(a, h[k..])
    decreases |a| + |h|
  {
    EndBound(a, h);
    if a != "" && k < |h| {
      NoNearerEnding(Init(a), h, k);
      NoNearerEnding(a, Init(h), k);
      NoNearerEnding(Init(a), Init(h), k);
      assert Init(h[k..]) == Init(h)[k..] && Last(h[k..]) == Last(h);
    }
  }

  lemma {:induction false} EndBound(a: string, h: string)
    ensures EndDistance(a, h) <= |a|
    decreases |a| + |h|
  {
    if a != "" && h != "" { EndBound(Init(a), h); }
  }

  /** Some ending is as near. */
  lemma {:induction false} NearestEnding(a: string, h: string) returns (k: nat)
    ensures k <= |h| && Distance(a, h[k..]) == EndDistance(a, h)
    decreases |a| + |h|
  {
    if a == "" || h == "" {
      k := |h|;
    } else if EndDistance(a, h) == EndDistance(Init(a), h) + 1 {
      k := NearestEnding(Init(a), h);
      Choices(a, h[k..]);
    } else if EndDistance(a, h) == EndDistance(a, Init(h)) + 1 {
      k := NearestEnding(a, Init(h));
      assert Init(h[k..]) == Init(h)[k..];
      Choices(a, h[k..]);
    } else {
      k := NearestEnding(Init(a), Init(h));
      assert Init(h[k..]) == Init(h)[k..] && Last(h[k..]) == Last(h);
      Choices(a, h[k..]);
    }
    NoNearerEnding(a, h, k);
  }

  /** `d` is the least distance between the needle and any substring of the haystack. */
  ghost predicate IsNearest(needle: string, haystack: string, d: nat) {
    && (exists j, k :: 0 <= j <= k <= |haystack| && Distance(needle, haystack[j..k]) == d)
    && forall j, k :: 0 <= j <= k <= |haystack| ==> d <= Distance(needle, haystack[j..k])
  }

  ghost predicate IsEndRow(row: seq<nat>, a: string, h: string) {
    |row| <= |h| + 1 && forall j :: 0 <= j < |row| ==> row[j] == EndDistance(a, h[..j])
  }

  method SubstringDistance(needle: string, haystack: string) returns (d: nat)
    ensures IsNearest(needle, haystack, d)
    ensures d == 0 <==> Occurs(needle, haystack)
    ensures d <= |needle|
  {
    if needle == "" {
      EmptyIsEverywhere(haystack);
      return 0;
    }
    var previous: seq<nat> := seq(|haystack| + 1, j => 0);
    for i := 0 to |needle|
      invariant |previous| == |haystack| + 1 && IsEndRow(previous, needle[..i], haystack)
    {
      var current: seq<nat> := [i + 1];
      for j := 0 to |haystack|
        invariant |current| == j + 1 && IsEndRow(current, needle[..i + 1], haystack)
      {
        NextEndEntry(needle, i, haystack, j, previous, current);
        current := current + [Entry(previous[j + 1], current[j], previous[j], needle[i], haystack[j])];
      }
      previous := current;
    }
    assert needle[..|needle|] == needle;
    d := Least(previous);
    LeastIsNearest(needle, haystack, previous, d);
    NearestBounds(needle, haystack, d);
  }

  lemma NextEndEntry(needle: string, i: nat, haystack: string, j: nat, previous: seq<nat>, current: seq<nat>)
    requires i < |needle| && j < |haystack| && |previous| == |haystack| + 1 && |current| == j + 1
    requires IsEndRow(previous, needle[..i], haystack) && IsEndRow(current, needle[..i + 1], haystack)
    ensures IsEndRow(current + [Entry(previous[j + 1], current[j], previous[j], needle[i], haystack[j])],
      needle[..i + 1], haystack)
  {
    var a, h := needle[..i + 1], haystack[..j + 1];
    assert Init(a) == needle[..i] && Init(h) == haystack[..j] && Last(a) == needle[i] && Last(h) == haystack[j];
  }

  method Least(row: seq<nat>) returns (d: nat)
    requires row != []
    ensures d in row && forall j :: 0 <= j < |row| ==> d <= row[j]
  {
    d := row[0];
    for j := 0 to |row|
      invariant d in row && forall i :: 0 <= i < j ==> d <= row[i]
    {
      d := Min(d, row[j]);
    }
  }

  lemma LeastIsNearest(needle: string, haystack: string, row: seq<nat>, d: nat)
    requires |row| == |haystack| + 1 && IsEndRow(row, needle, haystack)
    requires d in row && forall j :: 0 <= j < |row| ==> d <= row[j]
    ensures IsNearest(needle, haystack, d)
  {
    var k :| 0 <= k < |row| && row[k] == d;
    var j := NearestEnding(needle, haystack[..k]);
    assert haystack[..k][j..] == haystack[j..k];
    forall j, k | 0 <= j <= k <= |haystack| ensures d <= Distance(needle, haystack[j..k]) {
      NoNearerEnding(needle, haystack[..k], j);
      assert haystack[..k][j..] == haystack[j..k];
      assert d <= row[k];
    }
  }

  ghost predicate Occurs(needle: string, haystack: string) {
    exists j, k :: 0 <= j <= k <= |haystack| && haystack[j..k] == needle
  }

  lemma NearestBounds(needle: string, haystack: string, d: nat)
    requires IsNearest(needle, haystack, d)
    ensures d == 0 <==> Occurs(needle, haystack)
    ensures d <= |needle|
  {
    var j, k :| 0 <= j <= k <= |haystack| && Distance(needle, haystack[j..k]) == d;
    ZeroIsEqual(needle, haystack[j..k]);
    if Occurs(needle, haystack) {
      var m, n :| 0 <= m <= n <= |haystack| && haystack[m..n] == needle;
      ZeroIsEqual(needle, haystack[m..n]);
    }
    assert haystack[0..0] == "";
    assert Distance(needle, haystack[0..0]) == |needle|;
  }

  lemma EmptyIsEverywhere(haystack: string)
    ensures IsNearest("", haystack, 0) && Occurs("", haystack)
  {
    assert haystack[0..0] == "";
    assert Distance("", haystack[0..0]) == 0;
  }
}
