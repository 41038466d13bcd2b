/** Rules 1 and 2 and the guard, told by what a segment is and not by how it is found. */
module MergeRules {
  import opened Basics
  import opened Spans
  import opened ChunkMerge
  import opened SeamWords
  import opened MergeCoverage
  import MergeWords

  // Loops

  /** The words say the same `unit` words again from `from` until `until`. */
  ghost predicate SaysAgain(words: seq<string>, unit: nat, from: nat, until: nat) {
    until + unit <= |words| && forall p :: from <= p < until ==> words[p] == words[p + unit]
  }

  /** One to four words are said at least eight times in a row, over at least half of the segment. */
  ghost predicate IsLoop(words: seq<string>) {
    exists unit: nat, from: nat, until: nat :: IsLoopAt(words, unit, from, until)
  }

  ghost predicate IsLoopAt(words: seq<string>, unit: nat, from: nat, until: nat) {
    && 1 <= unit <= 4 && from < until && SaysAgain(words, unit, from, until)
    && until - from + unit >= 8 * unit && (until - from + unit) * 2 >= |words|
  }

  lemma EightTimes(length: nat, unit: nat)
    requires 1 <= unit <= 4
    ensures length / unit >= 8 <==> length >= 8 * unit
  {
    if unit == 1 {
    } else if unit == 2 {
    } else if unit == 3 {
    } else {
      assert unit == 4;
    }
  }

  /** The streak is the longest run of matches that ends here. */
  ghost predicate IsStreak(words: seq<string>, unit: nat, at: nat, streak: nat) {
    && streak <= at && SaysAgain(words, unit, at - streak, at)
    && (streak < at ==> words[at - streak - 1] != words[at - streak - 1 + unit])
  }

  lemma StreakGoesOn(words: seq<string>, unit: nat, at: nat, streak: nat)
    requires IsStreak(words, unit, at, streak) && at + unit < |words|
    ensures IsStreak(words, unit, at + 1, if words[at] == words[at + unit] then streak + 1 else 0)
  {
  }

  lemma StreakIsLongest(words: seq<string>, unit: nat, from: nat, until: nat, streak: nat)
    requires IsStreak(words, unit, until, streak) && from <= until && SaysAgain(words, unit, from, until)
    ensures streak >= until - from
  {
  }

  lemma {:induction false} FoundLoops(words: seq<string>, unit: nat, at: nat, streak: nat)
    requires 1 <= unit <= 4 && IsStreak(words, unit, at, streak) && LoopsWithUnit(words, unit, at, streak)
    ensures IsLoop(words)
    decreases |words| - at
  {
    var run := if words[at] == words[at + unit] then streak + 1 else 0;
    StreakGoesOn(words, unit, at, streak);
    EightTimes(run + unit, unit);
    if (run + unit) / unit >= MIN_LOOP_REPEATS && (run + unit) * 2 >= |words| {
      assert IsLoopAt(words, unit, at + 1 - run, at + 1);
    } else {
      FoundLoops(words, unit, at + 1, run);
    }
  }

  lemma {:induction false} LoopsAreFound(words: seq<string>, unit: nat, from: nat, until: nat, at: nat, streak: nat)
    requires IsLoopAt(words, unit, from, until) && at < until && IsStreak(words, unit, at, streak)
    ensures LoopsWithUnit(words, unit, at, streak)
    decreases until - at
  {
    var run := if words[at] == words[at + unit] then streak + 1 else 0;
    StreakGoesOn(words, unit, at, streak);
    EightTimes(run + unit, unit);
    if at + 1 == until {
      StreakIsLongest(words, unit, from, until, run);
    } else {
      LoopsAreFound(words, unit, from, until, at + 1, run);
    }
  }

  lemma LoopsAreLoops(words: seq<string>)
    ensures LoopsOnItsOwnWords(words) <==> IsLoop(words)
  {
    forall unit: nat | 1 <= unit <= 4 && LoopsWithUnit(words, unit, 0, 0) ensures IsLoop(words) {
      FoundLoops(words, unit, 0, 0);
    }
    if IsLoop(words) {
      var unit: nat, from: nat, until: nat :| IsLoopAt(words, unit, from, until);
      LoopsAreFound(words, unit, from, until, 0, 0);
    }
  }

  // Rules 1 and 2

  /** The segment is a recogniser loop: it says the segment before it again, or its own words. */
  ghost predicate IsALoop(chunk: Chunk, p: nat)
    requires p < |chunk.segments|
  {
    var words := Folded(chunk.segments[p].text);
    || (p > 0 && |words| >= 2 && SameSpeech(Folded(chunk.segments[p - 1].text), words))
    || IsLoop(words)
  }

  lemma LoopsClaimNoTime(chunk: Chunk, p: nat)
    requires p < |chunk.segments|
    ensures ClaimsNoTime(chunk, p) <==> IsALoop(chunk, p)
  {
    var words := Folded(chunk.segments[p].text);
    LoopsAreLoops(words);
    if p > 0 { SameSeamWordsIs(Folded(chunk.segments[p - 1].text), words); }
  }

  /** The chunk's core, from the middle of its overlap with the chunk before to the middle of its
      overlap with the next, holds the middle of the segment. */
  predicate HasMiddle(chunks: seq<Chunk>, i: nat, range: TimeRange)
    requires i < |chunks|
  {
    var middle := (range.start + range.end) / 2;
    && (i > 0 ==> (chunks[i].window.start + chunks[i - 1].window.end) / 2 <= middle)
    && (i + 1 < |chunks| ==> middle < (chunks[i + 1].window.start + chunks[i].window.end) / 2)
  }

  /** The first chunk whose core has the middle decides over the segment, its own if there is none. */
  ghost predicate Decides(chunks: seq<Chunk>, o: nat, id: Id)
    requires Valid(chunks, id)
  {
    var range := At(chunks, id).range;
    || (o < |chunks| && HasMiddle(chunks, o, range) && forall i :: 0 <= i < o ==> !HasMiddle(chunks, i, range))
    || (o == id.chunk && forall i :: 0 <= i < |chunks| ==> !HasMiddle(chunks, i, range))
  }

  /** Half a second or less from an inner edge of its window. */
  predicate CutLeft(chunks: seq<Chunk>, id: Id)
    requires Valid(chunks, id)
  {
    id.chunk > 0 && At(chunks, id).range.start < chunks[id.chunk].window.start + 500_000
  }

  predicate CutRight(chunks: seq<Chunk>, id: Id)
    requires Valid(chunks, id)
  {
    id.chunk + 1 < |chunks| && At(chunks, id).range.end + 500_000 > chunks[id.chunk].window.end
  }

  /** The neighbour's segment spans the middle of the cut one, is not cut where they meet, and is no
      loop. */
  ghost predicate StandsIn(chunks: seq<Chunk>, s: Id, id: Id) {
    && Valid(chunks, s) && Valid(chunks, id)
    && At(chunks, s).range.Holds((At(chunks, id).range.start + At(chunks, id).range.end) / 2)
    && !IsALoop(chunks[s.chunk], s.position)
    && (|| (s.chunk + 1 == id.chunk && CutLeft(chunks, id) && !CutRight(chunks, s))
        || (s.chunk == id.chunk + 1 && CutRight(chunks, id) && !CutLeft(chunks, s)))
  }

  /** Cut at an inner edge, and the neighbour across each such edge has a segment for it. */
  ghost predicate IsReplaced(chunks: seq<Chunk>, id: Id)
    requires Valid(chunks, id)
  {
    && (CutLeft(chunks, id) || CutRight(chunks, id))
    && (CutLeft(chunks, id) ==> exists s :: StandsIn(chunks, s, id) && s.chunk < id.chunk)
    && (CutRight(chunks, id) ==> exists s :: StandsIn(chunks, s, id) && s.chunk > id.chunk)
  }

  /** A segment that another chunk decides over stays when that chunk has nothing but loops there. */
  ghost predicate IsAlone(chunks: seq<Chunk>, id: Id)
    requires Valid(chunks, id)
  {
    exists o: nat :: o != id.chunk && o < |chunks| && Decides(chunks, o, id)
      && forall p :: 0 <= p < |chunks[o].segments| && chunks[o].segments[p].range.Overlaps(At(chunks, id).range) ==>
          IsALoop(chunks[o], p)
  }

  ghost predicate StaysByRules(chunks: seq<Chunk>, id: Id) {
    && Valid(chunks, id)
    && (|| (Decides(chunks, id.chunk, id) && !IsReplaced(chunks, id))
        || IsAlone(chunks, id)
        || exists cut :: StandsIn(chunks, id, cut) && Decides(chunks, cut.chunk, cut) && IsReplaced(chunks, cut))
  }

  lemma {:induction false} OwnerIsFirst(chunks: seq<Chunk>, from: nat, range: TimeRange, otherwise: nat)
    requires from <= |chunks|
    ensures var o := OwnerFrom(chunks, from, Midpoint(range), otherwise);
      || (from <= o < |chunks| && HasMiddle(chunks, o, range)
          && forall i :: from <= i < o ==> !HasMiddle(chunks, i, range))
      || (o == otherwise && forall i :: from <= i < |chunks| ==> !HasMiddle(chunks, i, range))
    decreases |chunks| - from
  {
    if from < |chunks| {
      assert InCore(chunks, from, Midpoint(range)) == HasMiddle(chunks, from, range);
      if !InCore(chunks, from, Midpoint(range)) { OwnerIsFirst(chunks, from + 1, range, otherwise); }
    }
  }

  lemma OwnerDecides(chunks: seq<Chunk>, id: Id, o: nat)
    requires Valid(chunks, id)
    ensures Decides(chunks, o, id) <==> o == Owner(chunks, id)
  {
    OwnerIsFirst(chunks, 0, At(chunks, id).range, id.chunk);
  }

  lemma CoversIsStandingIn(chunks: seq<Chunk>, s: Id, id: Id)
    requires Valid(chunks, id) && Valid(chunks, s)
    ensures StandsIn(chunks, s, id) <==>
      || (CutAt(chunks, id.chunk, At(chunks, id), Left) && s in Covering(chunks, id.chunk - 1, At(chunks, id), Right))
      || (CutAt(chunks, id.chunk, At(chunks, id), Right) && s in Covering(chunks, id.chunk + 1, At(chunks, id), Left))
  {
    LoopsClaimNoTime(chunks[s.chunk], s.position);
  }

  lemma LeftIsCovered(chunks: seq<Chunk>, id: Id)
    requires Valid(chunks, id) && CutLeft(chunks, id)
    ensures Covering(chunks, id.chunk - 1, At(chunks, id), Right) != {}
       <==> exists s :: StandsIn(chunks, s, id) && s.chunk < id.chunk
  {
    forall s | Valid(chunks, s) { CoversIsStandingIn(chunks, s, id); }
    var before := Covering(chunks, id.chunk - 1, At(chunks, id), Right);
    if s :| s in before { assert StandsIn(chunks, s, id) && s.chunk < id.chunk; }
    if s :| StandsIn(chunks, s, id) && s.chunk < id.chunk { assert s in before; }
  }

  lemma RightIsCovered(chunks: seq<Chunk>, id: Id)
    requires Valid(chunks, id) && CutRight(chunks, id)
    ensures Covering(chunks, id.chunk + 1, At(chunks, id), Left) != {}
       <==> exists s :: StandsIn(chunks, s, id) && s.chunk > id.chunk
  {
    forall s | Valid(chunks, s) { CoversIsStandingIn(chunks, s, id); }
    var after := Covering(chunks, id.chunk + 1, At(chunks, id), Left);
    if s :| s in after { assert StandsIn(chunks, s, id) && s.chunk > id.chunk; }
    if s :| StandsIn(chunks, s, id) && s.chunk > id.chunk { assert s in after; }
  }

  lemma ReplacedIsCovered(chunks: seq<Chunk>, id: Id)
    requires Valid(chunks, id)
    ensures IsReplaced(chunks, id) ==> forall s :: s in KeptInCore(chunks, id) <==> StandsIn(chunks, s, id)
    ensures !IsReplaced(chunks, id) ==> KeptInCore(chunks, id) == {id}
  {
    forall s | Valid(chunks, s) { CoversIsStandingIn(chunks, s, id); }
    if CutLeft(chunks, id) { LeftIsCovered(chunks, id); }
    if CutRight(chunks, id) { RightIsCovered(chunks, id); }
  }

  lemma AloneIsUnclaimed(chunks: seq<Chunk>, id: Id)
    requires Valid(chunks, id)
    ensures IsAlone(chunks, id) <==>
      Owner(chunks, id) != id.chunk && !ClaimsTimeOver(chunks[Owner(chunks, id)], At(chunks, id))
  {
    var o := Owner(chunks, id);
    forall i: nat { OwnerDecides(chunks, id, i); }
    forall p | 0 <= p < |chunks[o].segments| { LoopsClaimNoTime(chunks[o], p); }
  }

  /** Rules 1 and 2 keep a segment exactly when it stays by them. */
  lemma RulesExactly(chunks: seq<Chunk>, id: Id)
    ensures id in KeptByRules(chunks) <==> StaysByRules(chunks, id)
  {
    if id in KeptByRules(chunks) {
      var cause :| cause in AllIds(chunks) && id in KeptFor(chunks, cause);
      KeptForStays(chunks, cause, id);
    }
    if StaysByRules(chunks, id) {
      StaysForSome(chunks, id);
    }
  }

  lemma KeptForStays(chunks: seq<Chunk>, cause: Id, id: Id)
    requires Valid(chunks, cause) && Valid(chunks, id) && id in KeptFor(chunks, cause)
    ensures StaysByRules(chunks, id)
  {
    OwnerDecides(chunks, cause, cause.chunk);
    ReplacedIsCovered(chunks, cause);
    AloneIsUnclaimed(chunks, cause);
  }

  lemma StaysForSome(chunks: seq<Chunk>, id: Id)
    requires StaysByRules(chunks, id)
    ensures id in KeptByRules(chunks)
  {
    OwnerDecides(chunks, id, id.chunk);
    ReplacedIsCovered(chunks, id);
    AloneIsUnclaimed(chunks, id);
    if (Decides(chunks, id.chunk, id) && !IsReplaced(chunks, id)) || IsAlone(chunks, id) {
      assert id in KeptFor(chunks, id);
    } else {
      var cut :| StandsIn(chunks, id, cut) && Decides(chunks, cut.chunk, cut) && IsReplaced(chunks, cut);
      OwnerDecides(chunks, cut, cut.chunk);
      ReplacedIsCovered(chunks, cut);
      assert id in KeptFor(chunks, cut);
    }
  }

  // The guard

  /** The segment lies over a stretch, longer than the tolerance, that chunks heard and none of the
      kept ones covers. */
  ghost predicate OverLoss(chunks: seq<Chunk>, kept: set<Id>, id: Id) {
    Valid(chunks, id) && exists a: nat, b: nat :: IsLossUnder(chunks, kept, id, a, b)
  }

  ghost predicate IsLossUnder(chunks: seq<Chunk>, kept: set<Id>, id: Id, a: nat, b: nat)
    requires Valid(chunks, id)
  {
    && Speech(chunks, a, b) && !Meets(Covered(chunks, kept), a, b)
    && a < At(chunks, id).range.end && At(chunks, id).range.start < b
  }

  lemma LessKeptLosesMore(chunks: seq<Chunk>, less: set<Id>, more: set<Id>, id: Id)
    requires less <= more && OverLoss(chunks, more, id)
    ensures OverLoss(chunks, less, id)
  {
    CoveredGrows(chunks, less, more);
    var a: nat, b: nat :| IsLossUnder(chunks, more, id, a, b);
    assert IsLossUnder(chunks, less, id, a, b);
  }

  lemma WideGapIsLoss(chunks: seq<Chunk>, kept: set<Id>, hole: Span, id: Id)
    requires Valid(chunks, id) && WideGapUnder(chunks, kept, hole, At(chunks, id).range)
    requires Fills(Union(chunks), hole.start, hole.end)
    ensures OverLoss(chunks, kept, id)
  {
    var covered := Covered(chunks, kept);
    var g :| g in Gaps(covered, hole.start, hole.end)
      && g.Length() > SEAM_TOLERANCE && At(chunks, id).range.Overlaps(g);
    GapsAreMaximal(covered, hole.start, hole.end, g);
    assert IsLossUnder(chunks, kept, id, g.start, g.end);
  }

  /** What is restored is over a loss of what was kept before. */
  lemma {:induction false} RestoredOverLoss(chunks: seq<Chunk>, kept: set<Id>, hole: Span, candidates: seq<Key>, id: Id)
    requires id in Restore(chunks, kept, hole, candidates) && id !in kept
    requires Fills(Union(chunks), hole.start, hole.end)
    requires forall k :: k in candidates ==> Valid(chunks, k.id) && k.range == At(chunks, k.id).range
    ensures OverLoss(chunks, kept, id)
    decreases |candidates|
  {
    var next := candidates[0];
    assert next in candidates;
    var more := if WideGapUnder(chunks, kept, hole, next.range) then kept + {next.id} else kept;
    if id == next.id && id in more {
      WideGapIsLoss(chunks, kept, hole, id);
    } else {
      RestoredOverLoss(chunks, more, hole, candidates[1..], id);
      LessKeptLosesMore(chunks, kept, more, id);
    }
  }

  lemma {:induction false} ClosedOverLoss(chunks: seq<Chunk>, kept: set<Id>, holes: seq<Span>, id: Id)
    requires id in CloseHoles(chunks, kept, holes) && id !in kept
    requires forall h :: h in holes ==> Fills(Union(chunks), h.start, h.end)
    ensures OverLoss(chunks, kept, id)
    decreases |holes|
  {
    var hole := holes[0];
    assert hole in holes;
    var candidates := Sorted(Candidates(chunks, kept, hole));
    var more := if hole.Length() > SEAM_TOLERANCE then Restore(chunks, kept, hole, candidates) else kept;
    RestoreOnlyAdds(chunks, kept, hole, candidates);
    if id in more {
      RestoredOverLoss(chunks, kept, hole, candidates, id);
    } else {
      ClosedOverLoss(chunks, more, holes[1..], id);
      LessKeptLosesMore(chunks, kept, more, id);
    }
  }

  lemma HolesAreFilled(chunks: seq<Chunk>, kept: set<Id>, stretch: Span)
    requires stretch in Stretches(chunks)
    ensures forall h :: h in Gaps(Covered(chunks, kept), stretch.start, stretch.end) ==>
      Fills(Union(chunks), h.start, h.end)
  {
    RunsAreMaximal(Union(chunks), 0, Horizon(chunks), stretch);
  }

  lemma {:induction false} GuardedOverLoss(chunks: seq<Chunk>, kept: set<Id>, stretches: seq<Span>, id: Id)
    requires id in Guarded(chunks, kept, stretches) && id !in kept
    requires forall s :: s in stretches ==> s in Stretches(chunks)
    ensures OverLoss(chunks, kept, id)
    decreases |stretches|
  {
    var stretch := stretches[0];
    assert stretch in stretches;
    var holes := Gaps(Covered(chunks, kept), stretch.start, stretch.end);
    var more := CloseHoles(chunks, kept, holes);
    HolesAreFilled(chunks, kept, stretch);
    CloseHolesOnlyAdds(chunks, kept, holes);
    if id in more {
      ClosedOverLoss(chunks, kept, holes, id);
    } else {
      GuardedOverLoss(chunks, more, stretches[1..], id);
      LessKeptLosesMore(chunks, kept, more, id);
    }
  }

  /** The guard keeps all that the rules keep, and restores a segment only over a stretch that they
      lose: where they lose none, what is kept is theirs. */
  lemma GuardOnlyRestoresLosses(chunks: seq<Chunk>)
    ensures KeptByRules(chunks) <= Kept(chunks)
    ensures forall id :: id in Kept(chunks) && id !in KeptByRules(chunks) ==> OverLoss(chunks, KeptByRules(chunks), id)
    ensures (forall a: nat, b: nat :: Speech(chunks, a, b) ==> Meets(Covered(chunks, KeptByRules(chunks)), a, b)) ==>
      Kept(chunks) == KeptByRules(chunks)
  {
    var rules := KeptByRules(chunks);
    GuardedOnlyAdds(chunks, rules, Stretches(chunks));
    forall id | id in Kept(chunks) && id !in rules ensures OverLoss(chunks, rules, id) {
      GuardedOverLoss(chunks, rules, Stretches(chunks), id);
    }
    if forall a: nat, b: nat :: Speech(chunks, a, b) ==> Meets(Covered(chunks, rules), a, b) {
      forall id | id in Kept(chunks) ensures id in rules {
      }
    }
  }

  // The order in which a hole is closed

  /** Of two segments over the hole, the one that overlaps it more goes first, then the one that starts
      first, ends first, is of the earlier chunk, and is said earlier in it. */
  ghost predicate GoesFirst(chunks: seq<Chunk>, hole: Span, a: Id, b: Id) {
    && Valid(chunks, a) && Valid(chunks, b)
    && var (r, s) := (At(chunks, a).range, At(chunks, b).range);
       var (more, less) := (Shared(r, hole), Shared(s, hole));
       || more > less
       || (more == less && (|| r.start < s.start || (r.start == s.start && r.end < s.end)
           || (r == s && (a.chunk < b.chunk || (a.chunk == b.chunk && a.position < b.position)))))
  }

  /** How much time the spans share, if they share any. */
  function Shared(one: Span, other: Span): int {
    (if one.end <= other.end then one.end else other.end)
    - (if one.start >= other.start then one.start else other.start)
  }

  ghost predicate IsOver(chunks: seq<Chunk>, hole: Span, k: Key) {
    Valid(chunks, k.id) && k == Key(-Overlap(At(chunks, k.id).range, hole), At(chunks, k.id).range, k.id)
  }

  ghost predicate AreOver(chunks: seq<Chunk>, hole: Span, keys: seq<Key>) {
    forall i :: 0 <= i < |keys| ==> IsOver(chunks, hole, keys[i])
  }

  ghost predicate AreApart(keys: seq<Key>) { forall i, j :: 0 <= i < j < |keys| ==> keys[i].id != keys[j].id }

  lemma NotBeforeItself(a: Key, b: Key)
    requires Before(a, b)
    ensures a != b
  {
  }

  lemma NeverTwice(chunks: seq<Chunk>, hole: Span, keys: seq<Key>)
    requires AreOver(chunks, hole, keys) && MergeWords.InKeyOrder(keys)
    ensures AreApart(keys)
  {
    forall i, j | 0 <= i < j < |keys| ensures keys[i].id != keys[j].id {
      NotBeforeItself(keys[i], keys[j]);
      assert IsOver(chunks, hole, keys[i]) && IsOver(chunks, hole, keys[j]);
    }
  }

  /** Which of the first few candidates were restored. */
  ghost function Restored(keys: seq<Key>, n: nat, result: set<Id>): set<Id>
    requires n <= |keys|
  {
    set i | 0 <= i < n && keys[i].id in result :: keys[i].id
  }

  /** The first candidate is restored now or never. */
  lemma NowOrNever(chunks: seq<Chunk>, kept: set<Id>, hole: Span, keys: seq<Key>)
    requires keys != [] && AreApart(keys) && keys[0].id !in kept
    ensures keys[0].id in Restore(chunks, kept, hole, keys) <==> WideGapUnder(chunks, kept, hole, keys[0].range)
  {
    var rest := keys[1..];
    var more := if WideGapUnder(chunks, kept, hole, keys[0].range) then kept + {keys[0].id} else kept;
    RestoreOnlyAdds(chunks, more, hole, rest);
    forall k | k in rest ensures k.id != keys[0].id {
      var i :| 0 <= i < |rest| && rest[i] == k;
      assert keys[i + 1] == k;
    }
  }

  lemma {:induction false} RestoredInOrder(chunks: seq<Chunk>, kept: set<Id>, hole: Span, keys: seq<Key>, n: nat)
    requires AreApart(keys) && n < |keys| && forall i :: 0 <= i < |keys| ==> keys[i].id !in kept
    ensures var result := Restore(chunks, kept, hole, keys);
      keys[n].id in result
      <==> WideGapUnder(chunks, kept + Restored(keys, n, result), hole, keys[n].range)
    decreases |keys|
  {
    var result := Restore(chunks, kept, hole, keys);
    NowOrNever(chunks, kept, hole, keys);
    if n == 0 {
      assert kept + Restored(keys, 0, result) == kept;
    } else {
      var rest := keys[1..];
      var more := if WideGapUnder(chunks, kept, hole, keys[0].range) then kept + {keys[0].id} else kept;
      assert forall i :: 0 <= i < |rest| ==> rest[i] == keys[i + 1];
      RestoredInOrder(chunks, more, hole, rest, n - 1);
      RestoredShifts(keys, n, result);
      assert kept + Restored(keys, n, result) == more + Restored(rest, n - 1, result);
    }
  }

  lemma RestoredShifts(keys: seq<Key>, n: nat, result: set<Id>)
    requires 0 < n <= |keys|
    ensures Restored(keys, n, result)
         == (if keys[0].id in result then {keys[0].id} else {}) + Restored(keys[1..], n - 1, result)
  {
    forall i | 0 < i < n ensures keys[i] == keys[1..][i - 1] {
    }
    forall id | id in Restored(keys, n, result)
      ensures id in (if keys[0].id in result then {keys[0].id} else {}) + Restored(keys[1..], n - 1, result)
    {
      var i :| 0 <= i < n && keys[i].id in result && keys[i].id == id;
      if i > 0 { assert keys[1..][i - 1].id == id; }
    }
  }

  /** Of the segments dropped over a hole, one is restored exactly when those restored before it leave
      more than the tolerance of the hole uncovered where it lies; the ones that share most of the hole
      go first. */
  lemma HoleClosesInOrder(chunks: seq<Chunk>, kept: set<Id>, hole: Span, id: Id)
    requires Valid(chunks, id) && id !in kept && At(chunks, id).range.Overlaps(hole)
    ensures var result := Restore(chunks, kept, hole, Sorted(Candidates(chunks, kept, hole)));
      id in result
      <==> WideGapUnder(chunks, kept + GoneBefore(chunks, kept, hole, result, id), hole, At(chunks, id).range)
  {
    var keys := Sorted(Candidates(chunks, kept, hole));
    CandidatesAreOver(chunks, kept, hole);
    NeverTwice(chunks, hole, keys);
    var key := Key(-Overlap(At(chunks, id).range, hole), At(chunks, id).range, id);
    assert key in Candidates(chunks, kept, hole) && key in keys;
    var n :| 0 <= n < |keys| && keys[n] == key;
    RestoredInOrder(chunks, kept, hole, keys, n);
    FirstAreBefore(chunks, kept, hole, keys, n);
  }

  /** What was restored before the segment was looked at. */
  ghost function GoneBefore(chunks: seq<Chunk>, kept: set<Id>, hole: Span, result: set<Id>, id: Id): set<Id> {
    set c | c in result && c !in kept && GoesFirst(chunks, hole, c, id)
  }

  lemma CandidatesAreOver(chunks: seq<Chunk>, kept: set<Id>, hole: Span)
    ensures var keys := Sorted(Candidates(chunks, kept, hole));
      && AreOver(chunks, hole, keys) && MergeWords.InKeyOrder(keys)
      && forall i :: 0 <= i < |keys| ==> keys[i].id !in kept
  {
    var keys := Sorted(Candidates(chunks, kept, hole));
    MergeWords.SortedIsInOrder(Candidates(chunks, kept, hole));
    forall i | 0 <= i < |keys| ensures IsOver(chunks, hole, keys[i]) && keys[i].id !in kept {
      assert keys[i] in keys && keys[i] in Candidates(chunks, kept, hole);
    }
  }

  lemma FirstAreBefore(chunks: seq<Chunk>, kept: set<Id>, hole: Span, keys: seq<Key>, n: nat)
    requires AreOver(chunks, hole, keys) && MergeWords.InKeyOrder(keys) && n < |keys|
    requires forall i :: 0 <= i < |keys| ==> keys[i].id !in kept
    ensures var result := Restore(chunks, kept, hole, keys);
      Restored(keys, n, result) == GoneBefore(chunks, kept, hole, result, keys[n].id)
  {
    var result := Restore(chunks, kept, hole, keys);
    RestoreOnlyAdds(chunks, kept, hole, keys);
    forall c | c in GoneBefore(chunks, kept, hole, result, keys[n].id) ensures c in Restored(keys, n, result) {
      var k :| k in keys && k.id == c;
      var j :| 0 <= j < |keys| && keys[j] == k;
      IsFirstIfBefore(chunks, hole, keys, j, n);
    }
    forall i | 0 <= i < n && keys[i].id in result
      ensures keys[i].id in GoneBefore(chunks, kept, hole, result, keys[n].id)
    {
      IsFirstIfBefore(chunks, hole, keys, i, n);
    }
  }

  lemma IsFirstIfBefore(chunks: seq<Chunk>, hole: Span, keys: seq<Key>, i: nat, n: nat)
    requires AreOver(chunks, hole, keys) && MergeWords.InKeyOrder(keys) && i < |keys| && n < |keys|
    ensures GoesFirst(chunks, hole, keys[i].id, keys[n].id) <==> i < n
  {
    assert IsOver(chunks, hole, keys[i]) && IsOver(chunks, hole, keys[n]);
    BeforeIsFirst(chunks, hole, keys[i], keys[n]);
    if n < i {
      OneWay(keys[n], keys[i]);
    } else if i == n {
      assert !Before(keys[i], keys[i]);
    }
  }

  lemma OneWay(a: Key, b: Key)
    requires Before(a, b)
    ensures !Before(b, a)
  {
  }

  lemma BeforeIsFirst(chunks: seq<Chunk>, hole: Span, a: Key, b: Key)
    requires IsOver(chunks, hole, a) && IsOver(chunks, hole, b)
    ensures Before(a, b) <==> GoesFirst(chunks, hole, a.id, b.id)
  {
  }
}
