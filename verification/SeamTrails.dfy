/** Rule 3 over the whole list: what is left of every kept segment, and why the rest is gone. */
module SeamTrails {
  import opened Basics
  import opened Spans
  import opened ChunkMerge
  import opened SeamWords
  import MergeCoverage

  /** What became of a kept segment: how much of its text was cut away, and what cut it last. */
  datatype Trail = Trail(id: Id, cut: nat, cutter: Option<Id>)

  /** A segment of the chunk before, heard at the same time. */
  predicate Precedes(chunks: seq<Chunk>, e: Id, id: Id) {
    && Valid(chunks, e) && Valid(chunks, id)
    && e.chunk + 1 == id.chunk && At(chunks, e).range.Overlaps(At(chunks, id).range)
  }

  function WordsFrom(chunks: seq<Chunk>, id: Id, k: nat): seq<string>
    requires Valid(chunks, id) && k <= |At(chunks, id).text|
  {
    Folded(At(chunks, id).text[k..])
  }

  /** The first `k` words of the segment's text may go: each cut took the longest run that what was
      left began with and that what was left of a kept segment of the chunk before ended with. */
  ghost predicate CutAway(chunks: seq<Chunk>, kept: set<Id>, t: Trail)
    requires Valid(chunks, t.id)
    decreases t.id.chunk, t.cut, 1
  {
    && t.cut <= |At(chunks, t.id).text|
    && if t.cut == 0 then t.cutter == None else exists before, e :: LastCut(chunks, kept, t, before, e)
  }

  ghost predicate LastCut(chunks: seq<Chunk>, kept: set<Id>, t: Trail, before: Trail, e: Trail)
    requires Valid(chunks, t.id)
    decreases t.id.chunk, t.cut, 0
  {
    && t.cut <= |At(chunks, t.id).text| && before.id == t.id && before.cut < t.cut
    && t.cutter == Some(e.id) && e.id in kept && Precedes(chunks, e.id, t.id)
    && CutAway(chunks, kept, before) && CutAway(chunks, kept, e)
    && CutsOff(WordsFrom(chunks, e.id, e.cut), WordsFrom(chunks, t.id, before.cut),
         |Folded(At(chunks, t.id).text[before.cut..t.cut])|)
  }

  /** All words that were left of the segment are in what was left of one of the chunk before. */
  ghost predicate Swallowed(chunks: seq<Chunk>, kept: set<Id>, id: Id) {
    exists t, e :: IsIn(chunks, kept, id, t, e)
  }

  ghost predicate IsIn(chunks: seq<Chunk>, kept: set<Id>, id: Id, t: Trail, e: Trail) {
    && t.id == id && e.id in kept && Precedes(chunks, e.id, id)
    && CutAway(chunks, kept, t) && CutAway(chunks, kept, e)
    && Holds(WordsFrom(chunks, e.id, e.cut), WordsFrom(chunks, id, t.cut))
  }

  /** The listed segment is the kept one with the end of its text. */
  ghost predicate Follows(chunks: seq<Chunk>, kept: set<Id>, m: Merged, t: Trail) {
    && t.id in kept && Valid(chunks, t.id) && CutAway(chunks, kept, t)
    && m == Merged(t.id.chunk, At(chunks, t.id).(text := At(chunks, t.id).text[t.cut..]))
  }

  ghost predicate Tracks(chunks: seq<Chunk>, kept: set<Id>, ordered: seq<Merged>, trails: seq<Trail>) {
    |ordered| == |trails| && forall i :: 0 <= i < |ordered| ==> Follows(chunks, kept, ordered[i], trails[i])
  }

  function KeyOf(chunks: seq<Chunk>, id: Id): Key
    requires Valid(chunks, id)
  {
    Key(0, At(chunks, id).range, id)
  }

  ghost predicate Sooner(chunks: seq<Chunk>, a: Id, b: Id) {
    Valid(chunks, a) && Valid(chunks, b) && Before(KeyOf(chunks, a), KeyOf(chunks, b))
  }

  ghost predicate Ascending(chunks: seq<Chunk>, trails: seq<Trail>) {
    forall i, j :: 0 <= i < j < |trails| ==> Sooner(chunks, trails[i].id, trails[j].id)
  }

  /** The segment comes after the one that cut last, if one did. */
  ghost predicate Past(chunks: seq<Chunk>, cutter: Option<Id>, e: Id) {
    cutter.None? || Sooner(chunks, cutter.value, e)
  }

  datatype Heard = Heard(union: set<nat>, horizon: nat)

  /** The later segment repeats nothing of the earlier one, unless all its words were in that one and
      dropping it would leave a hole. */
  ghost predicate NothingLeft(
      chunks: seq<Chunk>, heard: Heard, ordered: seq<Merged>, trails: seq<Trail>, e: nat, l: nat)
    requires e < |ordered| == |trails| && l < |ordered|
  {
    Related(ordered[e], ordered[l]) && Repeats(Folded(ordered[e].segment.text), Folded(ordered[l].segment.text)) ==>
      && Valid(chunks, trails[e].id) && Holds(Folded(At(chunks, trails[e].id).text), Folded(ordered[l].segment.text))
      && DroppingLeavesAHole(heard.union, heard.horizon, ordered, l)
  }

  /** Of the segments after the one that cut it last, the later segment repeats none. */
  ghost predicate Done(chunks: seq<Chunk>, heard: Heard, ordered: seq<Merged>, trails: seq<Trail>, l: nat)
    requires |ordered| == |trails| && l < |ordered|
  {
    forall e :: 0 <= e < |ordered| && Past(chunks, trails[l].cutter, trails[e].id) ==>
      NothingLeft(chunks, heard, ordered, trails, e, l)
  }

  // Changing the list

  ghost predicate SameBut(ordered: seq<Merged>, trimmed: seq<Merged>, l: nat) {
    && |ordered| == |trimmed| && l < |ordered|
    && (forall i :: 0 <= i < |ordered| && i != l ==> ordered[i] == trimmed[i])
    && trimmed[l].chunk == ordered[l].chunk && trimmed[l].segment.range == ordered[l].segment.range
    && IsEnd(trimmed[l].segment.text, ordered[l].segment.text)
  }

  predicate IsEnd(part: Text, text: Text) { |part| <= |text| && part == text[|text| - |part|..] }

  lemma SameHoles(heard: Heard, ordered: seq<Merged>, trimmed: seq<Merged>, l: nat, i: nat)
    requires SameBut(ordered, trimmed, l) && i < |ordered|
    ensures DroppingLeavesAHole(heard.union, heard.horizon, ordered, i)
       <==> DroppingLeavesAHole(heard.union, heard.horizon, trimmed, i)
  {
    forall from: nat, until: nat
      ensures CoveredInstead(ordered, i, from, until) == CoveredInstead(trimmed, i, from, until)
    {
      forall t: nat ensures HearsInstead(ordered, i, t) <==> HearsInstead(trimmed, i, t) {
        assert forall j :: 0 <= j < |ordered| ==> ordered[j].segment.range == trimmed[j].segment.range;
      }
    }
  }

  lemma EndOfEnd(earlier: seq<string>, k: nat, words: seq<string>, n: nat)
    requires k <= |earlier| && EndIs(earlier[k..], words, n)
    ensures EndIs(earlier, words, n)
  {
    assert earlier[k..][|earlier| - k - n..] == earlier[|earlier| - n..];
  }

  lemma MoreHoldsMore(earlier: seq<string>, k: nat, words: seq<string>)
    requires k <= |earlier| && Holds(earlier[k..], words)
    ensures Holds(earlier, words)
  {
    var end := earlier[k..];
    var at: nat :| HeldAt(end, words, at);
    assert end[at..at + |words|] == earlier[k + at..k + at + |words|];
    assert HeldAt(earlier, words, k + at);
  }

  /** The end of a text repeats nothing that the whole does not. */
  lemma LessRepeatsLess(earlier: seq<string>, k: nat, words: seq<string>)
    requires k <= |earlier| && Repeats(earlier[k..], words)
    ensures Repeats(earlier, words)
  {
    if Holds(earlier[k..], words) {
      MoreHoldsMore(earlier, k, words);
    } else {
      var n: nat :| EndIs(earlier[k..], words, n);
      EndOfEnd(earlier, k, words, n);
    }
  }

  lemma TrimKeepsDone(
      chunks: seq<Chunk>, heard: Heard, ordered: seq<Merged>, trimmed: seq<Merged>, trails: seq<Trail>, l: nat,
      t: Trail, i: nat)
    requires |trails| == |ordered| && SameBut(ordered, trimmed, l) && t.id == trails[l].id && i < |ordered| && i != l
    requires Done(chunks, heard, ordered, trails, i)
    ensures Done(chunks, heard, trimmed, trails[l := t], i)
  {
    SameHoles(heard, ordered, trimmed, l, i);
    var k := |ordered[l].segment.text| - |trimmed[l].segment.text|;
    FoldedSplits(ordered[l].segment.text, k);
    var words, n := Folded(ordered[l].segment.text), |Folded(ordered[l].segment.text[..k])|;
    assert Folded(trimmed[l].segment.text) == words[n..];
    forall e | 0 <= e < |ordered| && Past(chunks, trails[i].cutter, trails[e].id)
      ensures NothingLeft(chunks, heard, trimmed, trails[l := t], e, i)
    {
      assert NothingLeft(chunks, heard, ordered, trails, e, i) && trails[l := t][e].id == trails[e].id;
      if e == l && Repeats(words[n..], Folded(ordered[i].segment.text)) {
        LessRepeatsLess(words, n, Folded(ordered[i].segment.text));
      }
    }
  }

  lemma DropCoversLess(ordered: seq<Merged>, l: nat, i: nat, from: nat, until: nat)
    requires l < |ordered| && i < |ordered| && i != l
    ensures CoveredInstead(Without(ordered, l), if i < l then i else i - 1, from, until)
         <= CoveredInstead(ordered, i, from, until)
  {
    var rest, j := Without(ordered, l), if i < l then i else i - 1;
    forall t: nat | HearsInstead(rest, j, t) ensures HearsInstead(ordered, i, t) {
      var m :| 0 <= m < |rest| && m != j && rest[m].segment.range.Holds(t);
      assert rest[m] == ordered[if m < l then m else m + 1];
    }
  }

  /** Dropping a segment leaves every hole that dropping another would leave. */
  lemma DropKeepsHoles(heard: Heard, ordered: seq<Merged>, l: nat, i: nat)
    requires l < |ordered| && i < |ordered| && i != l
    requires DroppingLeavesAHole(heard.union, heard.horizon, ordered, i)
    ensures DroppingLeavesAHole(heard.union, heard.horizon, Without(ordered, l), if i < l then i else i - 1)
  {
    var rest, j := Without(ordered, l), if i < l then i else i - 1;
    assert rest[j] == ordered[i];
    var stretch, gap :|
      && stretch in Runs(heard.union, 0, heard.horizon) && stretch.Overlaps(ordered[i].segment.range)
      && gap in Gaps(CoveredInstead(ordered, i, stretch.start, stretch.end), stretch.start, stretch.end)
      && gap.Length() > SEAM_TOLERANCE && gap.Overlaps(ordered[i].segment.range);
    var points := CoveredInstead(rest, j, stretch.start, stretch.end);
    GapsAreMaximal(CoveredInstead(ordered, i, stretch.start, stretch.end), stretch.start, stretch.end, gap);
    DropCoversLess(ordered, l, i, stretch.start, stretch.end);
    var wider := MergeCoverage.WideGapAround(points, stretch.start, stretch.end, gap.start, gap.end);
    assert wider.Overlaps(rest[j].segment.range);
  }

  function WithoutTrail(trails: seq<Trail>, l: nat): seq<Trail>
    requires l < |trails|
  {
    trails[..l] + trails[l + 1..]
  }

  lemma DropKeepsDone(chunks: seq<Chunk>, heard: Heard, ordered: seq<Merged>, trails: seq<Trail>, l: nat, i: nat)
    requires |trails| == |ordered| && l < |ordered| && i < l && Done(chunks, heard, ordered, trails, i)
    ensures Done(chunks, heard, Without(ordered, l), WithoutTrail(trails, l), i)
  {
    var rest, left := Without(ordered, l), WithoutTrail(trails, l);
    if DroppingLeavesAHole(heard.union, heard.horizon, ordered, i) { DropKeepsHoles(heard, ordered, l, i); }
    forall e | 0 <= e < |rest| && Past(chunks, left[i].cutter, left[e].id)
      ensures NothingLeft(chunks, heard, rest, left, e, i)
    {
      var was := if e < l then e else e + 1;
      assert rest[e] == ordered[was] && left[e] == trails[was];
      assert NothingLeft(chunks, heard, ordered, trails, was, i);
    }
  }

  // One segment

  /** What comparing one segment with those of the list made of it and of the list. */
  ghost predicate Compares(
      chunks: seq<Chunk>, kept: set<Id>, heard: Heard, ordered: seq<Merged>, trails: seq<Trail>, l: nat, c: Compared,
      t: Trail)
    requires l < |ordered| == |trails|
  {
    && t.id == trails[l].id
    && if c.dropped then c.ordered == Without(ordered, l) && Swallowed(chunks, kept, t.id)
       else
         && SameBut(ordered, c.ordered, l) && Tracks(chunks, kept, c.ordered, trails[l := t])
         && Done(chunks, heard, c.ordered, trails[l := t], l)
  }

  lemma WordsOf(chunks: seq<Chunk>, kept: set<Id>, m: Merged, t: Trail)
    requires Follows(chunks, kept, m, t)
    ensures t.cut <= |At(chunks, t.id).text| && Folded(m.segment.text) == WordsFrom(chunks, t.id, t.cut)
  {
  }

  lemma RelatedIds(chunks: seq<Chunk>, kept: set<Id>, m: Merged, t: Trail, n: Merged, s: Trail)
    requires Follows(chunks, kept, m, t) && Follows(chunks, kept, n, s)
    ensures Related(m, n) <==> Precedes(chunks, t.id, s.id)
  {
  }

  /** One more cut. */
  lemma CutMore(chunks: seq<Chunk>, kept: set<Id>, e: Merged, te: Trail, l: Merged, tl: Trail, k: nat)
      returns (t: Trail)
    requires Follows(chunks, kept, e, te) && Follows(chunks, kept, l, tl) && Related(e, l)
    requires 0 < k <= |l.segment.text|
    requires CutsOff(Folded(e.segment.text), Folded(l.segment.text), |Folded(l.segment.text[..k])|)
    ensures t == Trail(tl.id, tl.cut + k, Some(te.id))
    ensures Follows(chunks, kept, WithText(l, l.segment.text[k..]), t)
  {
    t := Trail(tl.id, tl.cut + k, Some(te.id));
    var text := At(chunks, tl.id).text;
    assert text[tl.cut..][..k] == text[tl.cut..t.cut] && text[tl.cut..][k..] == text[t.cut..];
    RelatedIds(chunks, kept, e, te, l, tl);
    assert LastCut(chunks, kept, t, tl, te);
  }

  lemma SwallowedBy(chunks: seq<Chunk>, kept: set<Id>, e: Merged, te: Trail, l: Merged, tl: Trail)
    requires Follows(chunks, kept, e, te) && Follows(chunks, kept, l, tl) && Related(e, l)
    requires Holds(Folded(e.segment.text), Folded(l.segment.text))
    ensures Swallowed(chunks, kept, tl.id)
  {
    RelatedIds(chunks, kept, e, te, l, tl);
    assert IsIn(chunks, kept, tl.id, tl, te);
  }

  lemma TracksOneCut(
      chunks: seq<Chunk>, kept: set<Id>, ordered: seq<Merged>, trails: seq<Trail>, l: nat, m: Merged, t: Trail)
    requires Tracks(chunks, kept, ordered, trails) && l < |ordered| && Follows(chunks, kept, m, t)
    ensures Tracks(chunks, kept, ordered[l := m], trails[l := t])
  {
  }

  lemma SameButTwice(a: seq<Merged>, b: seq<Merged>, c: seq<Merged>, l: nat)
    requires SameBut(a, b, l) && SameBut(b, c, l)
    ensures SameBut(a, c, l)
  {
    EndOfText(a[l].segment.text, b[l].segment.text, c[l].segment.text);
  }

  lemma EndOfText(a: Text, b: Text, c: Text)
    requires IsEnd(b, a) && IsEnd(c, b)
    ensures IsEnd(c, a)
  {
    var j := |a| - |b|;
    assert a[j..][|b| - |c|..] == a[j + |b| - |c|..];
  }

  lemma SameButItself(ordered: seq<Merged>, l: nat)
    requires l < |ordered|
    ensures SameBut(ordered, ordered, l)
  {
    assert ordered[l].segment.text == ordered[l].segment.text[0..];
  }

  /** Of the first few segments, the later one repeats none that is past what cut it last. */
  ghost predicate DoneSoFar(
      chunks: seq<Chunk>, heard: Heard, ordered: seq<Merged>, trails: seq<Trail>, l: nat, n: nat)
    requires |ordered| == |trails| && l < |ordered| && n <= |ordered|
  {
    forall e :: 0 <= e < n && Past(chunks, trails[l].cutter, trails[e].id) ==>
      NothingLeft(chunks, heard, ordered, trails, e, l)
  }

  lemma CutIsDone(chunks: seq<Chunk>, heard: Heard, ordered: seq<Merged>, trails: seq<Trail>, l: nat, t: Trail, n: nat)
    requires |ordered| == |trails| && l < |ordered| && n < |ordered| && Ascending(chunks, trails)
    requires t.id == trails[l].id && t.cutter == Some(trails[n].id) && n != l
    ensures DoneSoFar(chunks, heard, ordered, trails[l := t], l, n + 1)
  {
    var after := trails[l := t];
    forall e | 0 <= e <= n ensures !Past(chunks, after[l].cutter, after[e].id) {
      assert after[e].id == trails[e].id;
      assert e < n ==> Sooner(chunks, trails[e].id, trails[n].id);
    }
  }

  /** What is left of a segment's words is the end of all its words. */
  lemma WordsLeft(chunks: seq<Chunk>, kept: set<Id>, m: Merged, t: Trail) returns (k: nat)
    requires Follows(chunks, kept, m, t)
    ensures k <= |Folded(At(chunks, t.id).text)| && Folded(m.segment.text) == Folded(At(chunks, t.id).text)[k..]
  {
    var text := At(chunks, t.id).text;
    FoldedSplits(text, t.cut);
    k := |Folded(text[..t.cut])|;
  }

  lemma NothingIsLeft(
      chunks: seq<Chunk>, kept: set<Id>, heard: Heard, ordered: seq<Merged>, trails: seq<Trail>, l: nat, n: nat)
    requires |ordered| == |trails| && n < |ordered| && Follows(chunks, kept, ordered[n], trails[n]) && l < |ordered|
    requires Judge(ordered[n], ordered[l]).Unrelated?
      || (Judge(ordered[n], ordered[l]).Repeated? && DroppingLeavesAHole(heard.union, heard.horizon, ordered, l))
    ensures NothingLeft(chunks, heard, ordered, trails, n, l)
  {
    var k := JudgeTells(ordered[n], ordered[l]);
    var j := WordsLeft(chunks, kept, ordered[n], trails[n]);
    if Judge(ordered[n], ordered[l]).Repeated? {
      MoreHoldsMore(Folded(At(chunks, trails[n].id).text), j, Folded(ordered[l].segment.text));
    }
  }

  lemma OneMoreDone(chunks: seq<Chunk>, heard: Heard, ordered: seq<Merged>, trails: seq<Trail>, l: nat, n: nat)
    requires |ordered| == |trails| && l < |ordered| && n < |ordered|
    requires DoneSoFar(chunks, heard, ordered, trails, l, n) && NothingLeft(chunks, heard, ordered, trails, n, l)
    ensures DoneSoFar(chunks, heard, ordered, trails, l, n + 1)
  {
  }

  lemma DropCompares(
      chunks: seq<Chunk>, kept: set<Id>, heard: Heard, base: seq<Merged>, ordered: seq<Merged>, trails: seq<Trail>,
      l: nat, n: nat)
    requires Tracks(chunks, kept, ordered, trails) && n < |ordered| && SameBut(base, ordered, l)
    requires Judge(ordered[n], ordered[l]).Repeated?
    ensures Compares(chunks, kept, heard, base, trails, l, Compared(Without(ordered, l), true), trails[l])
  {
    var k := JudgeTells(ordered[n], ordered[l]);
    SwallowedBy(chunks, kept, ordered[n], trails[n], ordered[l], trails[l]);
    assert Without(ordered, l) == Without(base, l);
  }

  lemma SameIdsAscend(chunks: seq<Chunk>, trails: seq<Trail>, l: nat, t: Trail)
    requires l < |trails| && t.id == trails[l].id && Ascending(chunks, trails)
    ensures Ascending(chunks, trails[l := t])
  {
    assert forall i :: 0 <= i < |trails| ==> trails[l := t][i].id == trails[i].id;
  }

  /** How far the comparison of one segment of the list has come. */
  ghost predicate Comparing(
      chunks: seq<Chunk>, kept: set<Id>, heard: Heard, base: seq<Merged>, ordered: seq<Merged>, trails: seq<Trail>,
      l: nat, n: nat) {
    && SameBut(base, ordered, l) && Tracks(chunks, kept, ordered, trails) && Ascending(chunks, trails)
    && n <= |ordered| && DoneSoFar(chunks, heard, ordered, trails, l, n)
  }

  lemma CutOnce(
      chunks: seq<Chunk>, kept: set<Id>, heard: Heard, base: seq<Merged>, ordered: seq<Merged>, trails: seq<Trail>,
      l: nat, n: nat)
      returns (cut: Trail)
    requires Comparing(chunks, kept, heard, base, ordered, trails, l, n) && n < |ordered|
    requires Judge(ordered[n], ordered[l]).Trimmed?
    ensures cut.id == trails[l].id
    ensures Comparing(chunks, kept, heard, base,
      ordered[l := WithText(ordered[l], Judge(ordered[n], ordered[l]).text)], trails[l := cut], l, n + 1)
  {
    var k := JudgeTells(ordered[n], ordered[l]);
    var m := WithText(ordered[l], ordered[l].segment.text[k..]);
    cut := CutMore(chunks, kept, ordered[n], trails[n], ordered[l], trails[l], k);
    TracksOneCut(chunks, kept, ordered, trails, l, m, cut);
    SameIdsAscend(chunks, trails, l, cut);
    CutIsDone(chunks, heard, ordered[l := m], trails, l, cut, n);
    SameButTwice(base, ordered, ordered[l := m], l);
  }

  /** One comparison that changes nothing. */
  lemma PassOne(
      chunks: seq<Chunk>, kept: set<Id>, heard: Heard, base: seq<Merged>, ordered: seq<Merged>, trails: seq<Trail>,
      l: nat, n: nat)
    requires Comparing(chunks, kept, heard, base, ordered, trails, l, n) && n < |ordered|
    requires Judge(ordered[n], ordered[l]).Unrelated?
      || (Judge(ordered[n], ordered[l]).Repeated? && DroppingLeavesAHole(heard.union, heard.horizon, ordered, l))
    ensures Comparing(chunks, kept, heard, base, ordered, trails, l, n + 1)
  {
    NothingIsLeft(chunks, kept, heard, ordered, trails, l, n);
    OneMoreDone(chunks, heard, ordered, trails, l, n);
  }

  lemma AllPassed(
      chunks: seq<Chunk>, kept: set<Id>, heard: Heard, base: seq<Merged>, ordered: seq<Merged>, trails: seq<Trail>,
      l: nat)
    requires Comparing(chunks, kept, heard, base, ordered, trails, l, |ordered|)
    ensures Compares(chunks, kept, heard, base, trails, l, Compared(ordered, false), trails[l])
  {
    assert trails[l := trails[l]] == trails;
  }

  /** The outcome depends on the other segments' trails only. */
  lemma SameOutcome(
      chunks: seq<Chunk>, kept: set<Id>, heard: Heard, base: seq<Merged>, trails: seq<Trail>, cut: Trail, l: nat,
      c: Compared, t: Trail)
    requires l < |base| == |trails| && cut.id == trails[l].id
    requires Compares(chunks, kept, heard, base, trails[l := cut], l, c, t)
    ensures Compares(chunks, kept, heard, base, trails, l, c, t)
  {
    assert trails[l := cut][l := t] == trails[l := t];
  }

  lemma {:induction false} CompareTells(
      chunks: seq<Chunk>, kept: set<Id>, heard: Heard, base: seq<Merged>, ordered: seq<Merged>, trails: seq<Trail>,
      l: nat, n: nat)
      returns (t: Trail)
    requires Comparing(chunks, kept, heard, base, ordered, trails, l, n)
    ensures Compares(chunks, kept, heard, base, trails, l, Compare(heard.union, heard.horizon, ordered, l, n), t)
    decreases |ordered| - n
  {
    if n == |ordered| {
      t := trails[l];
      AllPassed(chunks, kept, heard, base, ordered, trails, l);
    } else if Judge(ordered[n], ordered[l]).Trimmed? {
      var cut := CutOnce(chunks, kept, heard, base, ordered, trails, l, n);
      var trimmed := ordered[l := WithText(ordered[l], Judge(ordered[n], ordered[l]).text)];
      t := CompareTells(chunks, kept, heard, base, trimmed, trails[l := cut], l, n + 1);
      SameOutcome(chunks, kept, heard, base, trails, cut, l, Compare(heard.union, heard.horizon, trimmed, l, n + 1), t);
    } else if Judge(ordered[n], ordered[l]).Repeated?
           && !DroppingLeavesAHole(heard.union, heard.horizon, ordered, l) {
      t := trails[l];
      DropCompares(chunks, kept, heard, base, ordered, trails, l, n);
    } else {
      PassOne(chunks, kept, heard, base, ordered, trails, l, n);
      t := CompareTells(chunks, kept, heard, base, ordered, trails, l, n + 1);
    }
  }

  // The list

  /** Nothing is lost but what was swallowed. */
  ghost predicate Accounts(chunks: seq<Chunk>, kept: set<Id>, all: set<Id>, trails: seq<Trail>) {
    forall id :: id in all ==> IsListed(trails, id) || Swallowed(chunks, kept, id)
  }

  ghost predicate IsListed(trails: seq<Trail>, id: Id) { exists i :: 0 <= i < |trails| && trails[i].id == id }

  ghost predicate AllDone(chunks: seq<Chunk>, heard: Heard, ordered: seq<Merged>, trails: seq<Trail>, n: nat)
    requires |ordered| == |trails| && n <= |ordered|
  {
    forall l :: 0 <= l < n ==> Done(chunks, heard, ordered, trails, l)
  }

  /** What rule 3 has made of the list so far. */
  ghost predicate IsListSoFar(
      chunks: seq<Chunk>, kept: set<Id>, heard: Heard, ordered: seq<Merged>, trails: seq<Trail>, n: nat) {
    && Tracks(chunks, kept, ordered, trails) && Ascending(chunks, trails) && n <= |ordered|
    && Accounts(chunks, kept, kept, trails) && AllDone(chunks, heard, ordered, trails, n)
  }

  lemma ListedWithout(trails: seq<Trail>, l: nat)
    requires l < |trails|
    ensures forall id :: IsListed(trails, id) ==> id == trails[l].id || IsListed(WithoutTrail(trails, l), id)
  {
    var left := WithoutTrail(trails, l);
    forall id | IsListed(trails, id) ensures id == trails[l].id || IsListed(left, id) {
      var i :| 0 <= i < |trails| && trails[i].id == id;
      if i != l { assert left[if i < l then i else i - 1].id == id; }
    }
  }

  lemma AscendingWithout(chunks: seq<Chunk>, trails: seq<Trail>, l: nat)
    requires l < |trails| && Ascending(chunks, trails)
    ensures Ascending(chunks, WithoutTrail(trails, l))
  {
    var left := WithoutTrail(trails, l);
    forall i, j | 0 <= i < j < |left| ensures Sooner(chunks, left[i].id, left[j].id) {
      assert left[i] == trails[if i < l then i else i + 1] && left[j] == trails[if j < l then j else j + 1];
    }
  }

  lemma TracksWithout(chunks: seq<Chunk>, kept: set<Id>, ordered: seq<Merged>, trails: seq<Trail>, l: nat)
    requires l < |ordered| && Tracks(chunks, kept, ordered, trails)
    ensures Tracks(chunks, kept, Without(ordered, l), WithoutTrail(trails, l))
  {
    var rest, left := Without(ordered, l), WithoutTrail(trails, l);
    forall i | 0 <= i < |rest| ensures Follows(chunks, kept, rest[i], left[i]) {
      assert rest[i] == ordered[if i < l then i else i + 1] && left[i] == trails[if i < l then i else i + 1];
    }
  }

  lemma RunWithout(
      chunks: seq<Chunk>, kept: set<Id>, heard: Heard, ordered: seq<Merged>, trails: seq<Trail>, l: nat)
    requires IsListSoFar(chunks, kept, heard, ordered, trails, l) && l < |ordered|
      && Swallowed(chunks, kept, trails[l].id)
    ensures IsListSoFar(chunks, kept, heard, Without(ordered, l), WithoutTrail(trails, l), l)
  {
    var rest, left := Without(ordered, l), WithoutTrail(trails, l);
    TracksWithout(chunks, kept, ordered, trails, l);
    AscendingWithout(chunks, trails, l);
    ListedWithout(trails, l);
    forall i | 0 <= i < l ensures Done(chunks, heard, rest, left, i) {
      DropKeepsDone(chunks, heard, ordered, trails, l, i);
    }
  }

  lemma RunWith(
      chunks: seq<Chunk>, kept: set<Id>, heard: Heard, ordered: seq<Merged>, trails: seq<Trail>, l: nat,
      trimmed: seq<Merged>, t: Trail)
    requires IsListSoFar(chunks, kept, heard, ordered, trails, l) && l < |ordered| && t.id == trails[l].id
    requires SameBut(ordered, trimmed, l) && Tracks(chunks, kept, trimmed, trails[l := t])
    requires Done(chunks, heard, trimmed, trails[l := t], l)
    ensures IsListSoFar(chunks, kept, heard, trimmed, trails[l := t], l + 1)
  {
    var after := trails[l := t];
    assert forall i :: 0 <= i < |trails| ==> after[i].id == trails[i].id;
    forall id | IsListed(trails, id) ensures IsListed(after, id) {
      var i :| 0 <= i < |trails| && trails[i].id == id;
      assert after[i].id == id;
    }
    forall i | 0 <= i < l ensures Done(chunks, heard, trimmed, after, i) {
      TrimKeepsDone(chunks, heard, ordered, trimmed, trails, l, t, i);
    }
  }

  lemma {:induction false} RuleThreeTells(
      chunks: seq<Chunk>, kept: set<Id>, heard: Heard, ordered: seq<Merged>, trails: seq<Trail>, l: nat)
      returns (left: seq<Trail>)
    requires IsListSoFar(chunks, kept, heard, ordered, trails, l)
    ensures var result := WithoutRepeats(heard.union, heard.horizon, ordered, l);
      IsListSoFar(chunks, kept, heard, result, left, |result|)
    decreases |ordered| - l
  {
    if l == |ordered| {
      left := trails;
    } else {
      SameButItself(ordered, l);
      var t := CompareTells(chunks, kept, heard, ordered, ordered, trails, l, 0);
      var c := Compare(heard.union, heard.horizon, ordered, l, 0);
      if c.dropped {
        RunWithout(chunks, kept, heard, ordered, trails, l);
        left := RuleThreeTells(chunks, kept, heard, c.ordered, WithoutTrail(trails, l), l);
      } else {
        RunWith(chunks, kept, heard, ordered, trails, l, c.ordered, t);
        left := RuleThreeTells(chunks, kept, heard, c.ordered, trails[l := t], l + 1);
      }
    }
  }
}
