/** A seam that is cut once and still repeats: what is left of the later segment begins again with the
    words that the earlier one ends with. */
module SeamTwice {
  import opened Basics
  import opened Spans
  import opened ChunkMerge
  import opened SeamWords
  import opened SeamTrails
  import opened MergeWords
  import MergeCoverage

  const SECOND: nat := 1_000_000

  function Say(words: seq<string>): Text { seq(|words|, i requires 0 <= i < |words| => Word(words[i], words[i])) }

  function Said(from: nat, until: nat, words: seq<string>): Draft
    requires from < until
  {
    Draft(Span(from * SECOND, until * SECOND), Say(words), Reading(0, 0, 0, false))
  }

  const EARLIER: seq<string> := ["we", "go", "up", "on"]
  const LATER: seq<string> := ["up", "on", "up", "on", "now"]
  const REST: seq<string> := ["up", "on", "now"]
  const CHUNKS: seq<Chunk> := [
    Chunk(Span(0, 30 * SECOND), [Said(20, 29, EARLIER)]), Chunk(Span(25 * SECOND, 55 * SECOND), [Said(27, 29, LATER)])]
  const FIRST := Id(0, 0)
  const NEXT := Id(1, 0)

  lemma {:induction false} SaidWords(words: seq<string>)
    requires "" !in words
    ensures Folded(Say(words)) == words
    decreases |words|
  {
    if words != [] {
      assert Say(words)[1..] == Say(words[1..]);
      SaidWords(words[1..]);
    }
  }

  lemma BothAreKept()
    ensures forall id :: id in Kept(CHUNKS) <==> id == FIRST || id == NEXT
  {
    forall id ensures Valid(CHUNKS, id) <==> id == FIRST || id == NEXT {
    }
    OwnInOwnCore();
    assert FIRST in KeptFor(CHUNKS, FIRST) && NEXT in KeptFor(CHUNKS, NEXT);
    MergeCoverage.GuardedOnlyAdds(CHUNKS, KeptByRules(CHUNKS), Stretches(CHUNKS));
    KeptIsValid(CHUNKS);
  }

  lemma OwnInOwnCore()
    ensures Owner(CHUNKS, FIRST) == 0 && Owner(CHUNKS, NEXT) == 1
  {
    assert InCore(CHUNKS, 0, Midpoint(At(CHUNKS, FIRST).range));
    assert !InCore(CHUNKS, 0, Midpoint(At(CHUNKS, NEXT).range));
    assert InCore(CHUNKS, 1, Midpoint(At(CHUNKS, NEXT).range));
  }

  lemma SortedPair(a: Key, b: Key)
    requires Before(a, b)
    ensures Sorted({a, b}) == [a, b]
  {
    var keys := {a, b};
    assert Least(keys) == a && keys - {a} == {b} && Least({b}) == b && {b} - {b} == {};
    assert Sorted({}) == [] && Sorted({b}) == [b];
  }

  lemma BothAreListed()
    ensures forall k :: k in Sorted(Placed(CHUNKS, Kept(CHUNKS))) ==> Valid(CHUNKS, k.id)
    ensures Drafts(CHUNKS, Sorted(Placed(CHUNKS, Kept(CHUNKS))))
         == [Merged(0, At(CHUNKS, FIRST)), Merged(1, At(CHUNKS, NEXT))]
  {
    BothAreKept();
    var first, next := KeyOf(CHUNKS, FIRST), KeyOf(CHUNKS, NEXT);
    assert Placed(CHUNKS, Kept(CHUNKS)) == {first, next};
    SortedPair(first, next);
    assert [first, next][1..] == [next] && [next][1..] == [];
  }

  lemma CutsTheFirstTwo()
    ensures SharedSeamWords(EARLIER, LATER) == 2
  {
    assert EARLIER[0..] == EARLIER && EARLIER[1..] == ["go", "up", "on"] && EARLIER[2..] == ["up", "on"];
    assert LATER[..4] == ["up", "on", "up", "on"] && LATER[..3] == ["up", "on", "up"] && LATER[..2] == ["up", "on"];
    assert EARLIER[0] != LATER[..4][0] && EARLIER[1] != LATER[..4][1];
    NoDifferences(EARLIER, LATER[..4]);
    NoDifferences(EARLIER[1..], LATER[..3]);
    NoDifferences(EARLIER[2..], LATER[..2]);
    assert !SameSeamWords(EARLIER[0..], LATER[..4]) && !SameSeamWords(EARLIER[1..], LATER[..3]);
    assert SameSeamWords(EARLIER[2..], LATER[..2]);
    assert LongestSharedEnd(EARLIER, LATER, 4) == LongestSharedEnd(EARLIER, LATER, 3);
    assert LongestSharedEnd(EARLIER, LATER, 3) == LongestSharedEnd(EARLIER, LATER, 2) == 2;
  }

  lemma WhatIsLeft()
    ensures Judge(Merged(0, At(CHUNKS, FIRST)), Merged(1, At(CHUNKS, NEXT))) == Trimmed(Say(REST))
  {
    var a, b := Merged(0, At(CHUNKS, FIRST)), Merged(1, At(CHUNKS, NEXT));
    SaidWords(EARLIER);
    SaidWords(LATER);
    CutsTheFirstTwo();
    SkipsTheFirstTwo();
    assert a.segment.range.Overlaps(b.segment.range);
    assert SharedSeamWords(Folded(a.segment.text), Folded(b.segment.text)) == 2 < |Folded(b.segment.text)|;
  }

  lemma SkipsTheFirstTwo()
    ensures WithoutLeadingWords(Say(LATER), 2) == Some(Say(REST))
  {
    var text := Say(LATER);
    assert text[1..] == Say(["on", "up", "on", "now"]) && text[1..][1..] == Say(REST);
    assert SkipWords(text[1..][1..], 0) == Say(REST);
    assert SkipWords(text[1..], 1) == Say(REST);
    assert SkipWords(text, 2) == Say(REST);
    assert Say(REST)[0].folded != "" && Say(REST)[0] in Say(REST);
  }

  lemma FirstStays(union: set<nat>, horizon: nat, a: Merged, b: Merged)
    requires a.chunk == 0 && b.chunk == 1
    ensures Compare(union, horizon, [a, b], 0, 0) == Compared([a, b], false)
  {
    assert Judge(a, a) == Unrelated && Judge(b, a) == Unrelated;
    assert Compare(union, horizon, [a, b], 0, 2) == Compared([a, b], false);
    assert Compare(union, horizon, [a, b], 0, 1) == Compare(union, horizon, [a, b], 0, 2);
  }

  lemma NextIsCut(union: set<nat>, horizon: nat, a: Merged, b: Merged, text: Text)
    requires a.chunk == 0 && b.chunk == 1 && Judge(a, b) == Trimmed(text)
    ensures Compare(union, horizon, [a, b], 1, 0) == Compared([a, WithText(b, text)], false)
  {
    var c := WithText(b, text);
    assert [a, b][1 := c] == [a, c] && Judge(c, c) == Unrelated;
    assert Compare(union, horizon, [a, c], 1, 2) == Compared([a, c], false);
    assert Compare(union, horizon, [a, c], 1, 1) == Compare(union, horizon, [a, c], 1, 2);
  }

  /** What these two chunks merge to. */
  lemma MergesTo()
    ensures MergeChunks(CHUNKS) == [Merged(0, At(CHUNKS, FIRST)), Merged(1, Said(27, 29, REST))]
  {
    BothAreListed();
    WhatIsLeft();
    var u, h := Union(CHUNKS), Horizon(CHUNKS);
    var a, b, c := Merged(0, At(CHUNKS, FIRST)), Merged(1, At(CHUNKS, NEXT)), Merged(1, Said(27, 29, REST));
    FirstStays(u, h, a, b);
    NextIsCut(u, h, a, b, Say(REST));
    assert WithoutRepeats(u, h, [a, c], 2) == [a, c];
    assert WithoutRepeats(u, h, [a, b], 1) == WithoutRepeats(u, h, [a, c], 2);
  }

  /** The seam was cut, and what is left still begins with words that the segment before ends with,
      and not all of it is in there. */
  lemma SeamMayRepeat() returns (trails: seq<Trail>)
    ensures Tracks(CHUNKS, Kept(CHUNKS), MergeChunks(CHUNKS), trails)
    ensures !NoSeamRepeats(CHUNKS, MergeChunks(CHUNKS), trails)
  {
    trails := MergeTells(CHUNKS);
    var merged := MergeChunks(CHUNKS);
    MergesTo();
    BothAreKept();
    assert Follows(CHUNKS, Kept(CHUNKS), merged[0], trails[0]);
    assert trails[0].id == FIRST;
    StillRepeats(merged, trails);
    assert !NothingLeft(CHUNKS, HeardBy(CHUNKS), merged, trails, 0, 1);
  }

  lemma StillRepeats(merged: seq<Merged>, trails: seq<Trail>)
    requires merged == [Merged(0, At(CHUNKS, FIRST)), Merged(1, Said(27, 29, REST))]
    requires |trails| == 2 && trails[0].id == FIRST
    ensures !NothingLeft(CHUNKS, HeardBy(CHUNKS), merged, trails, 0, 1)
  {
    SaidWords(EARLIER);
    SaidWords(REST);
    assert EARLIER[2..] == REST[..2];
    assert EndIs(EARLIER, REST, 2);
    NowIsNew();
  }

  lemma NowIsNew()
    ensures !Holds(EARLIER, REST)
  {
    forall at: nat ensures !HeldAt(EARLIER, REST, at) {
      if at + 3 <= 4 { assert EARLIER[at..at + 3][2] != REST[2]; }
    }
  }
}
