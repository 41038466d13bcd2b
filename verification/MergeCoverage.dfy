/** The guarantee of the guard, before and after rule 3: no stretch longer than the
    tolerance that any chunk heard is left without a kept segment. */
module MergeCoverage {
  import opened Basics
  import opened Spans
  import opened ChunkMerge

  ghost predicate Fills(points: set<nat>, a: nat, b: nat) { forall t: nat :: a <= t < b ==> t in points }

  ghost predicate Meets(points: set<nat>, a: nat, b: nat) { exists t: nat :: a <= t < b && t in points }

  /** A stretch that the chunks heard, longer than the tolerance. */
  ghost predicate Speech(chunks: seq<Chunk>, a: nat, b: nat) {
    a + SEAM_TOLERANCE < b && Fills(Union(chunks), a, b)
  }

  /** Everything inside `[a, b)` that a fully uncovered window belongs to is one wide gap. */
  lemma WideGapAround(points: set<nat>, from: nat, until: nat, a: nat, b: nat) returns (gap: Span)
    requires from <= a < b <= until && !Meets(points, a, b)
    ensures gap in Gaps(points, from, until) && gap.start <= a && b <= gap.end
  {
    assert a !in points;
    gap := GapHolding(points, from, until, a);
    assert gap.end < b ==> gap.end in points;
  }

  lemma StretchAround(chunks: seq<Chunk>, a: nat, b: nat) returns (stretch: Span)
    requires a < b && Fills(Union(chunks), a, b)
    ensures stretch in Stretches(chunks) && stretch.start <= a && b <= stretch.end
  {
    var union, horizon := Union(chunks), Horizon(chunks);
    assert a in union && b - 1 in union;
    stretch := RunHolding(union, 0, horizon, a);
    RunsAreMaximal(union, 0, horizon, stretch);
    assert stretch.end < b ==> stretch.end in union;
  }

  lemma CoveredGrows(chunks: seq<Chunk>, fewer: set<Id>, more: set<Id>)
    requires fewer <= more
    ensures Covered(chunks, fewer) <= Covered(chunks, more)
  {
  }

  lemma {:induction false} RestoreOnlyAdds(chunks: seq<Chunk>, kept: set<Id>, hole: Span, candidates: seq<Key>)
    ensures kept <= Restore(chunks, kept, hole, candidates)
    ensures forall id :: id in Restore(chunks, kept, hole, candidates) && id !in kept ==>
      exists k :: k in candidates && k.id == id
    decreases |candidates|
  {
    if candidates != [] {
      var next := candidates[0];
      var more := if WideGapUnder(chunks, kept, hole, next.range) then kept + {next.id} else kept;
      RestoreOnlyAdds(chunks, more, hole, candidates[1..]);
      forall id | id in Restore(chunks, kept, hole, candidates) && id !in kept
        ensures exists k :: k in candidates && k.id == id
      {
        if id !in more {
          var k :| k in candidates[1..] && k.id == id;
          assert k in candidates;
        } else {
          assert candidates[0] in candidates;
        }
      }
    }
  }

  /** A candidate over a stretch that would stay bare is restored. */
  lemma {:induction false} RestoreTakes(
    chunks: seq<Chunk>, kept: set<Id>, hole: Span, candidates: seq<Key>, key: Key, a: nat, b: nat)
    requires key in candidates && Valid(chunks, key.id) && key.range == At(chunks, key.id).range
    requires hole.start <= a && a + SEAM_TOLERANCE < b <= hole.end && key.range.Holds(a)
    requires !Meets(Covered(chunks, Restore(chunks, kept, hole, candidates)), a, b)
    ensures key.id in Restore(chunks, kept, hole, candidates)
    decreases |candidates|
  {
    var next := candidates[0];
    var more := if WideGapUnder(chunks, kept, hole, next.range) then kept + {next.id} else kept;
    RestoreOnlyAdds(chunks, more, hole, candidates[1..]);
    if next == key {
      CoveredGrows(chunks, kept, Restore(chunks, kept, hole, candidates));
      var gap := WideGapAround(Covered(chunks, kept), hole.start, hole.end, a, b);
      assert key.range.Overlaps(gap);
    } else {
      assert key in candidates[1..];
      RestoreTakes(chunks, more, hole, candidates[1..], key, a, b);
    }
  }

  lemma HoleCloses(chunks: seq<Chunk>, kept: set<Id>, hole: Span, a: nat, b: nat)
    requires Speech(chunks, a, b) && hole.start <= a && b <= hole.end
    ensures Meets(Covered(chunks, Restore(chunks, kept, hole, Sorted(Candidates(chunks, kept, hole)))), a, b)
  {
    var candidates := Sorted(Candidates(chunks, kept, hole));
    var restored := Restore(chunks, kept, hole, candidates);
    if !Meets(Covered(chunks, restored), a, b) {
      var id := UnheardId(chunks, restored, a, b);
      RestoreOnlyAdds(chunks, kept, hole, candidates);
      var range := At(chunks, id).range;
      var key := Key(-Overlap(range, hole), range, id);
      assert range.Overlaps(hole);
      assert key in candidates;
      RestoreTakes(chunks, kept, hole, candidates, key, a, b);
    }
  }

  /** A segment heard at `a` that is not among those whose speech misses it. */
  lemma UnheardId(chunks: seq<Chunk>, ids: set<Id>, a: nat, b: nat) returns (id: Id)
    requires Speech(chunks, a, b) && !Meets(Covered(chunks, ids), a, b)
    ensures id in AllIds(chunks) && id !in ids && Valid(chunks, id) && At(chunks, id).range.Holds(a)
  {
    assert a in Union(chunks) && a !in Covered(chunks, ids);
    id :| id in AllIds(chunks) && Valid(chunks, id) && At(chunks, id).range.Holds(a);
  }

  lemma {:induction false} CloseHolesOnlyAdds(chunks: seq<Chunk>, kept: set<Id>, holes: seq<Span>)
    ensures kept <= CloseHoles(chunks, kept, holes)
    decreases |holes|
  {
    if holes != [] {
      var candidates := Sorted(Candidates(chunks, kept, holes[0]));
      RestoreOnlyAdds(chunks, kept, holes[0], candidates);
      CloseHolesOnlyAdds(chunks,
        if holes[0].Length() > SEAM_TOLERANCE then Restore(chunks, kept, holes[0], candidates) else kept, holes[1..]);
    }
  }

  lemma {:induction false} ListedHoleCloses(
    chunks: seq<Chunk>, kept: set<Id>, holes: seq<Span>, hole: Span, a: nat, b: nat)
    requires hole in holes
    requires Speech(chunks, a, b) && hole.start <= a && b <= hole.end
    ensures Meets(Covered(chunks, CloseHoles(chunks, kept, holes)), a, b)
    decreases |holes|
  {
    var candidates := Sorted(Candidates(chunks, kept, holes[0]));
    var more := if holes[0].Length() > SEAM_TOLERANCE then Restore(chunks, kept, holes[0], candidates) else kept;
    if holes[0] == hole {
      HoleCloses(chunks, kept, hole, a, b);
      CloseHolesOnlyAdds(chunks, more, holes[1..]);
      CoveredGrows(chunks, more, CloseHoles(chunks, kept, holes));
    } else {
      ListedHoleCloses(chunks, more, holes[1..], hole, a, b);
    }
  }

  lemma {:induction false} GuardedOnlyAdds(chunks: seq<Chunk>, kept: set<Id>, stretches: seq<Span>)
    ensures kept <= Guarded(chunks, kept, stretches)
    decreases |stretches|
  {
    if stretches != [] {
      var holes := Gaps(Covered(chunks, kept), stretches[0].start, stretches[0].end);
      CloseHolesOnlyAdds(chunks, kept, holes);
      GuardedOnlyAdds(chunks, CloseHoles(chunks, kept, holes), stretches[1..]);
    }
  }

  lemma {:induction false} GuardedStretch(
    chunks: seq<Chunk>, kept: set<Id>, stretches: seq<Span>, stretch: Span, a: nat, b: nat)
    requires stretch in stretches
    requires Speech(chunks, a, b) && stretch.start <= a && b <= stretch.end
    ensures Meets(Covered(chunks, Guarded(chunks, kept, stretches)), a, b)
    decreases |stretches|
  {
    var covered := Covered(chunks, kept);
    var holes := Gaps(covered, stretches[0].start, stretches[0].end);
    var more := CloseHoles(chunks, kept, holes);
    if stretches[0] == stretch {
      if Meets(covered, a, b) {
        CloseHolesOnlyAdds(chunks, kept, holes);
        CoveredGrows(chunks, kept, more);
      } else {
        var hole := WideGapAround(covered, stretch.start, stretch.end, a, b);
        ListedHoleCloses(chunks, kept, holes, hole, a, b);
      }
      GuardedOnlyAdds(chunks, more, stretches[1..]);
      CoveredGrows(chunks, more, Guarded(chunks, kept, stretches));
    } else {
      GuardedStretch(chunks, more, stretches[1..], stretch, a, b);
    }
  }

  /** What the guard keeps misses no speech. */
  lemma GuardLosesNoSpeech(chunks: seq<Chunk>, a: nat, b: nat)
    requires Speech(chunks, a, b)
    ensures Meets(Covered(chunks, Kept(chunks)), a, b)
  {
    var stretch := StretchAround(chunks, a, b);
    GuardedStretch(chunks, KeptByRules(chunks), Stretches(chunks), stretch, a, b);
  }

  // Rule 3

  ghost predicate Heard(ordered: seq<Merged>, t: nat) {
    exists i :: 0 <= i < |ordered| && ordered[i].segment.range.Holds(t)
  }

  ghost predicate HeardWithin(ordered: seq<Merged>, a: nat, b: nat) {
    exists t: nat :: a <= t < b && Heard(ordered, t)
  }

  /** Every stretch of speech has some text of the list in it. */
  ghost predicate LosesNoSpeech(chunks: seq<Chunk>, ordered: seq<Merged>) {
    forall a: nat, b: nat :: Speech(chunks, a, b) ==> HeardWithin(ordered, a, b)
  }

  lemma DropLosesNoSpeech(chunks: seq<Chunk>, ordered: seq<Merged>, later: nat)
    requires later < |ordered| && LosesNoSpeech(chunks, ordered)
    requires !DroppingLeavesAHole(Union(chunks), Horizon(chunks), ordered, later)
    ensures LosesNoSpeech(chunks, Without(ordered, later))
  {
    var rest := Without(ordered, later);
    forall a: nat, b: nat | Speech(chunks, a, b) ensures HeardWithin(rest, a, b) {
      var t: nat :| a <= t < b && Heard(ordered, t);
      var i :| 0 <= i < |ordered| && ordered[i].segment.range.Holds(t);
      if i != later {
        assert rest[if i < later then i else i - 1] == ordered[i];
        assert Heard(rest, t);
      } else if !HeardWithin(rest, a, b) {
        var stretch := StretchAround(chunks, a, b);
        var instead := CoveredInstead(ordered, later, stretch.start, stretch.end);
        forall s: nat | a <= s < b ensures s !in instead {
          assert !Heard(rest, s);
          forall j | 0 <= j < |ordered| && j != later ensures !ordered[j].segment.range.Holds(s) {
            assert rest[if j < later then j else j - 1] == ordered[j];
          }
        }
        var gap := WideGapAround(instead, stretch.start, stretch.end, a, b);
        assert stretch.Overlaps(ordered[later].segment.range) && gap.Overlaps(ordered[later].segment.range);
      }
    }
  }

  lemma TrimKeepsTimes(chunks: seq<Chunk>, ordered: seq<Merged>, trimmed: seq<Merged>)
    requires |ordered| == |trimmed| && LosesNoSpeech(chunks, ordered)
    requires forall i :: 0 <= i < |ordered| ==> trimmed[i].segment.range == ordered[i].segment.range
    ensures LosesNoSpeech(chunks, trimmed)
  {
    forall a: nat, b: nat | Speech(chunks, a, b) ensures HeardWithin(trimmed, a, b) {
      var t: nat :| a <= t < b && Heard(ordered, t);
      var i :| 0 <= i < |ordered| && ordered[i].segment.range.Holds(t);
      assert trimmed[i].segment.range.Holds(t);
      assert Heard(trimmed, t);
    }
  }

  lemma {:induction false} CompareLosesNoSpeech(chunks: seq<Chunk>, ordered: seq<Merged>, later: nat, earlier: nat)
    requires later < |ordered| && LosesNoSpeech(chunks, ordered)
    ensures LosesNoSpeech(chunks, Compare(Union(chunks), Horizon(chunks), ordered, later, earlier).ordered)
    decreases |ordered| - earlier
  {
    if earlier < |ordered| {
      match Judge(ordered[earlier], ordered[later])
      case Unrelated => CompareLosesNoSpeech(chunks, ordered, later, earlier + 1);
      case Trimmed(text) =>
        var trimmed := ordered[later := WithText(ordered[later], text)];
        TrimKeepsTimes(chunks, ordered, trimmed);
        CompareLosesNoSpeech(chunks, trimmed, later, earlier + 1);
      case Repeated =>
        if DroppingLeavesAHole(Union(chunks), Horizon(chunks), ordered, later) {
          CompareLosesNoSpeech(chunks, ordered, later, earlier + 1);
        } else {
          DropLosesNoSpeech(chunks, ordered, later);
        }
    }
  }

  lemma {:induction false} RuleThreeLosesNoSpeech(chunks: seq<Chunk>, ordered: seq<Merged>, later: nat)
    requires LosesNoSpeech(chunks, ordered)
    ensures LosesNoSpeech(chunks, WithoutRepeats(Union(chunks), Horizon(chunks), ordered, later))
    decreases |ordered| - later
  {
    if later < |ordered| {
      var c := Compare(Union(chunks), Horizon(chunks), ordered, later, 0);
      CompareLosesNoSpeech(chunks, ordered, later, 0);
      RuleThreeLosesNoSpeech(chunks, c.ordered, if c.dropped then later else later + 1);
    }
  }

  lemma PlacingLosesNothing(chunks: seq<Chunk>, kept: set<Id>, a: nat, b: nat)
    requires Meets(Covered(chunks, kept), a, b)
    ensures HeardWithin(Drafts(chunks, Sorted(Placed(chunks, kept))), a, b)
  {
    var keys := Sorted(Placed(chunks, kept));
    var t: nat :| a <= t < b && t in Covered(chunks, kept);
    var id :| id in kept && Valid(chunks, id) && At(chunks, id).range.Holds(t);
    var key := Key(0, At(chunks, id).range, id);
    assert key in keys;
    var i :| 0 <= i < |keys| && keys[i] == key;
    assert Heard(Drafts(chunks, keys), t) by {
      assert Drafts(chunks, keys)[i].segment.range.Holds(t);
    }
  }

  /** The merge of any chunks misses no stretch longer than the tolerance of what they heard. */
  lemma MergeLosesNoSpeech(chunks: seq<Chunk>)
    ensures LosesNoSpeech(chunks, MergeChunks(chunks))
  {
    var ordered := Drafts(chunks, Sorted(Placed(chunks, Kept(chunks))));
    assert LosesNoSpeech(chunks, ordered) by {
      forall a: nat, b: nat | Speech(chunks, a, b) ensures HeardWithin(ordered, a, b) {
        GuardLosesNoSpeech(chunks, a, b);
        PlacingLosesNothing(chunks, Kept(chunks), a, b);
      }
    }
    RuleThreeLosesNoSpeech(chunks, ordered, 0);
  }
}
