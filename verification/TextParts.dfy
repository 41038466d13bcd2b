/** Text made of parts with a separator between them. */
module TextParts {
  import opened Basics

  function Join(parts: seq<string>, sep: char): string
    requires parts != []
  {
    if |parts| == 1 then parts[0] else parts[0] + [sep] + Join(parts[1..], sep)
  }

  function IndexOf(text: string, sep: char): (k: nat)
    requires sep in text
    ensures k < |text| && text[k] == sep && sep !in text[..k]
  {
    if text[0] == sep then 0
    else
      var k := 1 + IndexOf(text[1..], sep);
      assert text[..k] == [text[0]] + text[1..][..k - 1];
      k
  }

  function Split(text: string, sep: char): (parts: seq<string>)
    ensures parts != []
    decreases |text|
  {
    if sep !in text then [text]
    else
      var k := IndexOf(text, sep);
      [text[..k]] + Split(text[k + 1..], sep)
  }

  ghost predicate Free(parts: seq<string>, sep: char) {
    forall i :: 0 <= i < |parts| ==> sep !in parts[i]
  }

  lemma BothFree(a: seq<string>, b: seq<string>, sep: char)
    requires Free(a, sep) && Free(b, sep)
    ensures Free(a + b, sep)
  {
  }

  lemma {:induction false} JoinSplit(text: string, sep: char)
    ensures Join(Split(text, sep), sep) == text && Free(Split(text, sep), sep)
    decreases |text|
  {
    if sep in text {
      var k := IndexOf(text, sep);
      var rest := Split(text[k + 1..], sep);
      JoinSplit(text[k + 1..], sep);
      assert Split(text, sep)[1..] == rest;
      assert text == text[..k] + [sep] + text[k + 1..];
    }
  }

  lemma {:induction false} SplitJoin(parts: seq<string>, sep: char)
    requires parts != [] && Free(parts, sep)
    ensures Split(Join(parts, sep), sep) == parts
  {
    if |parts| == 1 {
      assert parts == [parts[0]];
    } else {
      var text, rest := Join(parts, sep), Join(parts[1..], sep);
      var k := |parts[0]|;
      SplitJoin(parts[1..], sep);
      assert text[k] == sep && text[..k] == parts[0] && text[k + 1..] == rest;
      IndexIs(text, sep, k);
    }
  }

  lemma {:induction false} IndexIs(text: string, sep: char, k: nat)
    requires k < |text| && text[k] == sep && sep !in text[..k]
    ensures IndexOf(text, sep) == k
    decreases k
  {
    if k > 0 {
      assert text[..k][0] == text[0];
      assert text[1..][..k - 1] == text[..k][1..];
      IndexIs(text[1..], sep, k - 1);
    }
  }

  /** Parts that hold no separator are told apart by their joined text. */
  lemma JoinIsInjective(a: seq<string>, b: seq<string>, sep: char)
    requires a != [] && b != [] && Free(a, sep) && Free(b, sep) && Join(a, sep) == Join(b, sep)
    ensures a == b
  {
    SplitJoin(a, sep);
    SplitJoin(b, sep);
  }

  lemma {:induction false} JoinMore(parts: seq<string>, part: string, sep: char)
    requires parts != []
    ensures Join(parts + [part], sep) == Join(parts, sep) + [sep] + part
  {
    if |parts| > 1 {
      JoinMore(parts[1..], part, sep);
      assert (parts + [part])[1..] == parts[1..] + [part];
    } else {
      assert (parts + [part])[1..] == [part];
    }
  }
}
