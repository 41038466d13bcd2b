/** What the merged transcript says: which words of the chunks it holds, and which it does not. */
module MergeWords {
  import opened Basics
  import opened Spans
  import opened ChunkMerge
  import opened SeamWords
  import opened SeamTrails
  import MergeCoverage

  ghost predicate InKeyOrder(keys: seq<Key>) { forall i, j :: 0 <= i < j < |keys| ==> Before(keys[i], keys[j]) }

  lemma {:induction false} SortedIsInOrder(keys: set<Key>)
    ensures InKeyOrder(Sorted(keys))
  {
    if keys != {} {
      var least, rest := Least(keys), Sorted(keys - {Least(keys)});
      SortedIsInOrder(keys - {least});
      forall j | 0 <= j < |rest| ensures Before(least, rest[j]) {
        assert rest[j] in rest && rest[j] in keys && rest[j] != least;
      }
    }
  }

  /** The kept segments, none of them cut yet. */
  ghost function Uncut(keys: seq<Key>): (trails: seq<Trail>)
    ensures |trails| == |keys| && forall i :: 0 <= i < |keys| ==> trails[i] == Trail(keys[i].id, 0, None)
  {
    if keys == [] then [] else Uncut(keys[..|keys| - 1]) + [Trail(keys[|keys| - 1].id, 0, None)]
  }

  lemma UncutFollows(chunks: seq<Chunk>, kept: set<Id>, id: Id)
    requires id in kept && Valid(chunks, id)
    ensures Follows(chunks, kept, Merged(id.chunk, At(chunks, id)), Trail(id, 0, None))
  {
    var text := At(chunks, id).text;
    assert text[0..] == text;
  }

  lemma PlacedKeys(chunks: seq<Chunk>, kept: set<Id>)
    requires forall id :: id in kept ==> Valid(chunks, id)
    ensures var keys := Sorted(Placed(chunks, kept));
      && InKeyOrder(keys) && (forall key :: key in keys ==> Valid(chunks, key.id))
      && (forall i :: 0 <= i < |keys| ==> keys[i].id in kept && keys[i] == KeyOf(chunks, keys[i].id))
      && (forall id :: id in kept ==> KeyOf(chunks, id) in keys)
  {
    var keys := Sorted(Placed(chunks, kept));
    SortedIsInOrder(Placed(chunks, kept));
    forall i | 0 <= i < |keys| ensures keys[i].id in kept && keys[i] == KeyOf(chunks, keys[i].id) {
      assert keys[i] in keys && keys[i] in Placed(chunks, kept);
    }
  }

  lemma UncutLists(chunks: seq<Chunk>, kept: set<Id>, keys: seq<Key>)
    requires forall id :: id in kept ==> Valid(chunks, id) && KeyOf(chunks, id) in keys
    ensures forall id :: id in kept ==> IsListed(Uncut(keys), id)
  {
    forall id | id in kept ensures IsListed(Uncut(keys), id) {
      var i :| 0 <= i < |keys| && keys[i] == KeyOf(chunks, id);
      assert Uncut(keys)[i].id == id;
    }
  }

  lemma PlacedStarts(chunks: seq<Chunk>, kept: set<Id>)
    requires forall id :: id in kept ==> Valid(chunks, id)
    ensures var keys := Sorted(Placed(chunks, kept));
      && (forall key :: key in keys ==> Valid(chunks, key.id))
      && IsListSoFar(chunks, kept, HeardBy(chunks), Drafts(chunks, keys), Uncut(keys), 0)
  {
    var keys := Sorted(Placed(chunks, kept));
    PlacedKeys(chunks, kept);
    UncutLists(chunks, kept, keys);
    forall i | 0 <= i < |keys| ensures Follows(chunks, kept, Drafts(chunks, keys)[i], Uncut(keys)[i]) {
      UncutFollows(chunks, kept, keys[i].id);
    }
  }

  lemma KeptIsValid(chunks: seq<Chunk>)
    ensures forall id :: id in Kept(chunks) ==> Valid(chunks, id)
  {
    RulesKeepValid(chunks);
    GuardKeepsValid(chunks, KeptByRules(chunks), Stretches(chunks));
  }

  lemma RulesKeepValid(chunks: seq<Chunk>)
    ensures KeptByRules(chunks) <= AllIds(chunks)
  {
  }

  lemma {:induction false} GuardKeepsValid(chunks: seq<Chunk>, kept: set<Id>, stretches: seq<Span>)
    requires kept <= AllIds(chunks)
    ensures Guarded(chunks, kept, stretches) <= AllIds(chunks)
    decreases |stretches|
  {
    if stretches != [] {
      var holes := Gaps(Covered(chunks, kept), stretches[0].start, stretches[0].end);
      ClosingKeepsValid(chunks, kept, holes);
      GuardKeepsValid(chunks, CloseHoles(chunks, kept, holes), stretches[1..]);
    }
  }

  lemma {:induction false} ClosingKeepsValid(chunks: seq<Chunk>, kept: set<Id>, holes: seq<Span>)
    requires kept <= AllIds(chunks)
    ensures CloseHoles(chunks, kept, holes) <= AllIds(chunks)
    decreases |holes|
  {
    if holes != [] {
      var candidates := Sorted(Candidates(chunks, kept, holes[0]));
      MergeCoverage.RestoreOnlyAdds(chunks, kept, holes[0], candidates);
      var more := if holes[0].Length() > SEAM_TOLERANCE then Restore(chunks, kept, holes[0], candidates) else kept;
      assert more <= AllIds(chunks);
      ClosingKeepsValid(chunks, more, holes[1..]);
    }
  }

  ghost function HeardBy(chunks: seq<Chunk>): SeamTrails.Heard {
    SeamTrails.Heard(Union(chunks), Horizon(chunks))
  }

  /** Every merged segment is a kept one in its place, with the end of its text: what was cut is the
      longest run of words that the kept segments of the chunk before ended with. The list is in order
      of time, a kept segment that is not in it had all its words in one of the chunk before, and a
      segment repeats none of the chunk before that comes after the one it was cut by, unless dropping
      it would leave a hole. */
  lemma MergeTells(chunks: seq<Chunk>) returns (trails: seq<Trail>)
    ensures var merged, kept := MergeChunks(chunks), Kept(chunks);
      && Tracks(chunks, kept, merged, trails) && Ascending(chunks, trails)
      && Accounts(chunks, kept, kept, trails) && AllDone(chunks, HeardBy(chunks), merged, trails, |merged|)
  {
    KeptIsValid(chunks);
    var keys := Sorted(Placed(chunks, Kept(chunks)));
    PlacedStarts(chunks, Kept(chunks));
    trails := RuleThreeTells(chunks, Kept(chunks), HeardBy(chunks), Drafts(chunks, keys), Uncut(keys), 0);
  }

  /** Whether no merged segment repeats words of one of the chunk before, but where all its words were
      in that one and dropping it would leave a hole. */
  ghost predicate NoSeamRepeats(chunks: seq<Chunk>, merged: seq<Merged>, trails: seq<Trail>)
    requires |merged| == |trails|
  {
    forall e, l :: 0 <= e < |merged| && 0 <= l < |merged| ==>
      NothingLeft(chunks, HeardBy(chunks), merged, trails, e, l)
  }

  /** The later segment was cut after it was compared with the earlier one, or by it. */
  ghost predicate WasPassed(chunks: seq<Chunk>, trails: seq<Trail>, e: nat, l: nat)
    requires e < |trails| && l < |trails|
  {
    trails[l].cut > 0 && !Past(chunks, trails[l].cutter, trails[e].id)
  }

  /** That is so exactly when no segment that was cut still repeats one up to the one it was cut by:
      a segment that was not cut never repeats anything. */
  lemma NothingIsRepeatedUnlessCut(chunks: seq<Chunk>) returns (trails: seq<Trail>)
    ensures var merged := MergeChunks(chunks);
      && Tracks(chunks, Kept(chunks), merged, trails)
      && (NoSeamRepeats(chunks, merged, trails) <==>
          forall e, l :: 0 <= e < |merged| && 0 <= l < |merged| && WasPassed(chunks, trails, e, l) ==>
            NothingLeft(chunks, HeardBy(chunks), merged, trails, e, l))
  {
    trails := MergeTells(chunks);
    var merged := MergeChunks(chunks);
    forall e, l | 0 <= e < |merged| && 0 <= l < |merged| && !WasPassed(chunks, trails, e, l)
      ensures NothingLeft(chunks, HeardBy(chunks), merged, trails, e, l)
    {
      assert Follows(chunks, Kept(chunks), merged[l], trails[l]);
      assert Done(chunks, HeardBy(chunks), merged, trails, l);
    }
  }
}
