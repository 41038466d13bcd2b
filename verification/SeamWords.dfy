/** What rule 3 does to the words: which ones a seam cuts from a segment, and which segments it drops. */
module SeamWords {
  import opened Basics
  import opened Spans
  import opened ChunkMerge

  // Runs of words

  /** Equal runs, or runs of four or more that differ in one word that is neither the first nor the
      last. */
  ghost predicate SameSpeech(one: seq<string>, other: seq<string>) {
    || one == other
    || (|one| == |other| >= 4 && exists i :: 0 < i < |one| - 1 && one[i] != other[i] && one == other[i := one[i]])
  }

  lemma {:induction false} NoDifferences(one: seq<string>, other: seq<string>)
    requires |one| == |other|
    ensures Differences(one, other) == 0 <==> one == other
  {
    if one != [] {
      NoDifferences(one[1..], other[1..]);
      assert one == [one[0]] + one[1..] && other == [other[0]] + other[1..];
    }
  }

  lemma {:induction false} OneDifference(one: seq<string>, other: seq<string>)
    requires |one| == |other|
    ensures Differences(one, other) == 1
       <==> exists i :: 0 <= i < |one| && one[i] != other[i] && one == other[i := one[i]]
  {
    if one != [] {
      NoDifferences(one[1..], other[1..]);
      OneDifference(one[1..], other[1..]);
      if one[0] != other[0] {
        if one[1..] == other[1..] { assert one == other[0 := one[0]]; }
        forall i | 0 <= i < |one| && one == other[i := one[i]] ensures i == 0 && one[1..] == other[1..] {
          assert one[0] == other[i := one[i]][0];
        }
      } else {
        DifferenceMoves(one, other);
      }
    }
  }

  lemma DifferenceMoves(one: seq<string>, other: seq<string>)
    requires |one| == |other| > 0 && one[0] == other[0]
    ensures (exists i :: 0 <= i < |one| && one[i] != other[i] && one == other[i := one[i]])
       <==> exists i :: 0 <= i < |one[1..]| && one[1..][i] != other[1..][i] && one[1..] == other[1..][i := one[1..][i]]
  {
    forall i | 0 <= i < |one| && one[i] != other[i] && one == other[i := one[i]]
      ensures 0 <= i - 1 && one[1..][i - 1] != other[1..][i - 1] && one[1..] == other[1..][i - 1 := one[1..][i - 1]]
    {
      assert one[1..] == other[i := one[i]][1..];
    }
    forall i | 0 <= i < |one[1..]| && one[1..][i] != other[1..][i] && one[1..] == other[1..][i := one[1..][i]]
      ensures one[i + 1] != other[i + 1] && one == other[i + 1 := one[i + 1]]
    {
      assert one == [one[0]] + other[1..][i := one[1..][i]];
    }
  }

  lemma SameSeamWordsIs(one: seq<string>, other: seq<string>)
    ensures SameSeamWords(one, other) <==> SameSpeech(one, other)
  {
    if |one| == |other| {
      NoDifferences(one, other);
      OneDifference(one, other);
      if one != [] && |one| >= 4 {
        forall i | 0 <= i < |one| && one[i] != other[i] && one == other[i := one[i]]
          ensures one[0] == other[0] && one[|one| - 1] == other[|one| - 1] <==> 0 < i < |one| - 1
        {
          assert forall j :: 0 <= j < |one| && j != i ==> one[j] == other[i := one[i]][j];
        }
      }
    }
  }

  /** The first `n` of the words, and no more of them, are the last of the earlier ones. */
  ghost predicate EndIs(earlier: seq<string>, words: seq<string>, n: nat) {
    2 <= n <= |earlier| && n <= |words| && SameSpeech(earlier[|earlier| - n..], words[..n])
  }

  ghost predicate HeldAt(earlier: seq<string>, words: seq<string>, at: nat) {
    at + |words| <= |earlier| && SameSpeech(earlier[at..at + |words|], words)
  }

  /** All of the words, two or more, are somewhere in the earlier ones. */
  ghost predicate Holds(earlier: seq<string>, words: seq<string>) {
    |words| >= 2 && exists at :: HeldAt(earlier, words, at)
  }

  /** The words say again what the earlier ones end with, or all of it is in them. */
  ghost predicate Repeats(earlier: seq<string>, words: seq<string>) {
    Holds(earlier, words) || exists n :: EndIs(earlier, words, n)
  }

  /** The longest run that the words begin with and the earlier ones end with, with more after it. */
  ghost predicate CutsOff(earlier: seq<string>, words: seq<string>, n: nat) {
    && EndIs(earlier, words, n) && n < |words| && !Holds(earlier, words)
    && forall m: nat :: EndIs(earlier, words, m) ==> m <= n
  }

  lemma {:induction false} LongestSharedEndIs(earlier: seq<string>, later: seq<string>, length: nat)
    requires length <= |earlier| && length <= |later|
    ensures var n := LongestSharedEnd(earlier, later, length);
      && n <= length && (n > 0 ==> EndIs(earlier, later, n))
      && forall m: nat :: EndIs(earlier, later, m) && m <= length ==> m <= n
  {
    if length >= MIN_SEAM_DUPLICATE_WORDS {
      SameSeamWordsIs(earlier[|earlier| - length..], later[..length]);
      if !SameSeamWords(earlier[|earlier| - length..], later[..length]) {
        LongestSharedEndIs(earlier, later, length - 1);
      }
    }
  }

  lemma HoldsIs(earlier: seq<string>, later: seq<string>)
    ensures Holds(earlier, later) <==>
      |later| >= MIN_SEAM_DUPLICATE_WORDS
      && exists at :: 0 <= at <= |earlier| - |later| && RepeatedAt(earlier, at, later)
  {
    forall at: nat | at + |later| <= |earlier|
      ensures RepeatedAt(earlier, at, later) <==> HeldAt(earlier, later, at)
    {
      SameSeamWordsIs(earlier[at..at + |later|], later);
    }
  }

  /** Nothing is shared exactly when nothing is repeated; all of it when it is held; else the longest
      end. */
  lemma SharedSeamWordsIs(earlier: seq<string>, later: seq<string>)
    ensures var n := SharedSeamWords(earlier, later);
      && (n == 0 <==> !Repeats(earlier, later))
      && (0 < n < |later| ==> CutsOff(earlier, later, n))
      && (n > 0 && n >= |later| ==> Holds(earlier, later))
  {
    HoldsIs(earlier, later);
    var least := if |earlier| < |later| then |earlier| else |later|;
    LongestSharedEndIs(earlier, later, least);
    var n := LongestSharedEnd(earlier, later, least);
    if n > 0 && n == |later| {
      assert later[..n] == later && earlier[|earlier| - n..] == earlier[|earlier| - n..|earlier| - n + |later|];
      assert HeldAt(earlier, later, |earlier| - n);
    }
  }

  // Cutting words from a text

  lemma {:induction false} FoldedSplits(text: Text, k: nat)
    requires k <= |text|
    ensures Folded(text) == Folded(text[..k]) + Folded(text[k..])
  {
    if k > 0 {
      FoldedSplits(text[1..], k - 1);
      assert text[..k][1..] == text[1..][..k - 1] && text[1..][k - 1..] == text[k..];
    } else {
      assert text[..0] == [] && text[0..] == text;
    }
  }

  /** Skipping words leaves the end of the text, from right after the last word skipped. */
  lemma {:induction false} SkippedIs(text: Text, count: nat) returns (k: nat)
    requires count <= |Folded(text)|
    ensures k <= |text| && SkipWords(text, count) == text[k..] && |Folded(text[..k])| == count
    ensures count > 0 ==> k > 0
  {
    if text == [] || count == 0 {
      k := 0;
    } else {
      var j := SkippedIs(text[1..], if text[0].folded == "" then count else count - 1);
      k := j + 1;
      assert text[..k][1..] == text[1..][..j] && text[k..] == text[1..][j..];
    }
  }

  lemma {:induction false} WordsAreLeft(text: Text)
    ensures Folded(text) != [] <==> exists w :: w in text && w.folded != ""
  {
    if text != [] {
      WordsAreLeft(text[1..]);
      assert text == [text[0]] + text[1..];
    }
  }

  /** Two segments that rule 3 compares. */
  predicate Related(earlier: Merged, later: Merged) {
    earlier.chunk + 1 == later.chunk && earlier.segment.range.Overlaps(later.segment.range)
  }

  /** What a comparison says of the words: nothing is repeated; the longest repeated beginning is cut
      off and nothing else; or all of them are repeated. */
  lemma JudgeTells(earlier: Merged, later: Merged) returns (k: nat)
    ensures k <= |later.segment.text|
    ensures var e, w := Folded(earlier.segment.text), Folded(later.segment.text);
      match Judge(earlier, later)
      case Unrelated => !Related(earlier, later) || !Repeats(e, w)
      case Trimmed(text) =>
        && Related(earlier, later) && k > 0 && text == later.segment.text[k..]
        && CutsOff(e, w, |Folded(later.segment.text[..k])|)
      case Repeated => Related(earlier, later) && Holds(e, w)
  {
    k := 0;
    if Related(earlier, later) {
      var text := later.segment.text;
      var e, w := Folded(earlier.segment.text), Folded(text);
      var n := SharedSeamWords(e, w);
      SharedSeamWordsIs(e, w);
      if 0 < n < |w| {
        k := SkippedIs(text, n);
        FoldedSplits(text, k);
        WordsAreLeft(text[k..]);
      }
    }
  }
}
