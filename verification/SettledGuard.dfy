/** The guard treats the stretches before the cut alike in the finished chunks and in the
    whole run, and nothing it does after the cut reaches back before it. */
module SettledGuard {
  import opened Basics
  import opened Spans
  import opened ChunkMerge
  import opened Settling
  import MergeCoverage

  /** A whole run `chunks`, of which the first `k` are finished, cut where no segment lies. */
  ghost predicate IsCut(chunks: seq<Chunk>, k: nat, cut: nat) {
    k <= |chunks| && CutsBetween(chunks, k, cut)
  }

  /** Two choices that agree on the early segments. */
  ghost predicate AgreeBefore(chunks: seq<Chunk>, k: nat, cut: nat, whole: set<Id>, part: set<Id>)
    requires k <= |chunks|
  {
    forall id :: IsEarly(chunks, cut, id) ==> (id in whole <==> id in part)
  }

  lemma EarlyIsFinished(chunks: seq<Chunk>, k: nat, cut: nat, id: Id)
    requires IsCut(chunks, k, cut)
    ensures IsEarly(chunks, cut, id) <==> IsEarly(chunks[..k], cut, id)
    ensures IsEarly(chunks, cut, id) ==> At(chunks[..k], id) == At(chunks, id)
  {
  }

  lemma CoveredAgrees(chunks: seq<Chunk>, k: nat, cut: nat, whole: set<Id>, part: set<Id>, t: nat)
    requires IsCut(chunks, k, cut) && AgreeBefore(chunks, k, cut, whole, part) && t < cut
    ensures t in Covered(chunks, whole) <==> t in Covered(chunks[..k], part)
    ensures t + 1 == cut ==> t !in Covered(chunks, whole)
  {
    var finished := chunks[..k];
    if t in Covered(chunks, whole) {
      var id :| id in whole && Valid(chunks, id) && At(chunks, id).range.Holds(t);
      EarlyIsFinished(chunks, k, cut, id);
      assert id in part && Valid(finished, id) && At(finished, id).range.Holds(t);
    }
    if t in Covered(finished, part) {
      var id :| id in part && Valid(finished, id) && At(finished, id).range.Holds(t);
      assert Valid(chunks, id) && At(chunks, id) == At(finished, id);
      assert IsEarly(chunks, cut, id);
      assert id in whole && At(chunks, id).range.Holds(t);
      assert Hears(chunks, whole, t);
    }
  }

  lemma GapsAgree(chunks: seq<Chunk>, k: nat, cut: nat, whole: set<Id>, part: set<Id>, from: nat, until: nat)
    requires IsCut(chunks, k, cut) && AgreeBefore(chunks, k, cut, whole, part) && until <= cut
    ensures Gaps(Covered(chunks, whole), from, until) == Gaps(Covered(chunks[..k], part), from, until)
  {
    forall t: nat | from <= t < until
      ensures t in Covered(chunks, whole) <==> t in Covered(chunks[..k], part)
    {
      CoveredAgrees(chunks, k, cut, whole, part, t);
    }
    GapsAreLocal(Covered(chunks, whole), Covered(chunks[..k], part), from, until);
  }

  lemma CandidatesAgree(chunks: seq<Chunk>, k: nat, cut: nat, whole: set<Id>, part: set<Id>, hole: Span)
    requires IsCut(chunks, k, cut) && AgreeBefore(chunks, k, cut, whole, part) && hole.end <= cut
    ensures Candidates(chunks, whole, hole) == Candidates(chunks[..k], part, hole)
    ensures forall key :: key in Candidates(chunks, whole, hole) ==> IsEarly(chunks, cut, key.id)
  {
    var finished := chunks[..k];
    forall key | key in Candidates(chunks, whole, hole)
      ensures key in Candidates(finished, part, hole) && IsEarly(chunks, cut, key.id)
    {
      EarlyIsFinished(chunks, k, cut, key.id);
      assert key.id in AllIds(finished);
    }
    forall key | key in Candidates(finished, part, hole) ensures key in Candidates(chunks, whole, hole) {
      assert Valid(chunks, key.id) && At(chunks, key.id) == At(finished, key.id);
      assert key.id in AllIds(chunks);
    }
  }

  lemma {:induction false} RestoreAgrees(
    chunks: seq<Chunk>, k: nat, cut: nat, whole: set<Id>, part: set<Id>, hole: Span, candidates: seq<Key>)
    requires IsCut(chunks, k, cut) && AgreeBefore(chunks, k, cut, whole, part) && hole.end <= cut
    ensures AgreeBefore(chunks, k, cut,
      Restore(chunks, whole, hole, candidates), Restore(chunks[..k], part, hole, candidates))
    decreases |candidates|
  {
    if candidates != [] {
      GapsAgree(chunks, k, cut, whole, part, hole.start, hole.end);
      var next := candidates[0];
      var wide := WideGapUnder(chunks, whole, hole, next.range);
      RestoreAgrees(chunks, k, cut, if wide then whole + {next.id} else whole,
        if wide then part + {next.id} else part, hole, candidates[1..]);
    }
  }

  lemma {:induction false} CloseHolesAgrees(
    chunks: seq<Chunk>, k: nat, cut: nat, whole: set<Id>, part: set<Id>, holes: seq<Span>)
    requires IsCut(chunks, k, cut) && AgreeBefore(chunks, k, cut, whole, part)
    requires forall h :: h in holes ==> h.end <= cut
    ensures AgreeBefore(chunks, k, cut, CloseHoles(chunks, whole, holes), CloseHoles(chunks[..k], part, holes))
    decreases |holes|
  {
    if holes != [] {
      var hole := holes[0];
      if hole.Length() > SEAM_TOLERANCE {
        CandidatesAgree(chunks, k, cut, whole, part, hole);
        var candidates := Sorted(Candidates(chunks, whole, hole));
        RestoreAgrees(chunks, k, cut, whole, part, hole, candidates);
        CloseHolesAgrees(chunks, k, cut, Restore(chunks, whole, hole, candidates),
          Restore(chunks[..k], part, hole, candidates), holes[1..]);
      } else {
        CloseHolesAgrees(chunks, k, cut, whole, part, holes[1..]);
      }
    }
  }

  lemma {:induction false} GuardAgrees(
    chunks: seq<Chunk>, k: nat, cut: nat, whole: set<Id>, part: set<Id>, stretches: seq<Span>)
    requires IsCut(chunks, k, cut) && AgreeBefore(chunks, k, cut, whole, part)
    requires forall s :: s in stretches ==> s.end <= cut
    ensures AgreeBefore(chunks, k, cut, Guarded(chunks, whole, stretches), Guarded(chunks[..k], part, stretches))
    decreases |stretches|
  {
    if stretches != [] {
      var stretch := stretches[0];
      GapsAgree(chunks, k, cut, whole, part, stretch.start, stretch.end);
      var holes := Gaps(Covered(chunks, whole), stretch.start, stretch.end);
      CloseHolesAgrees(chunks, k, cut, whole, part, holes);
      GuardAgrees(chunks, k, cut, CloseHoles(chunks, whole, holes), CloseHoles(chunks[..k], part, holes),
        stretches[1..]);
    }
  }

  // After the cut

  /** Nothing early was added. */
  ghost predicate NothingEarlyAdded(chunks: seq<Chunk>, cut: nat, before: set<Id>, after: set<Id>) {
    before <= after && forall id :: id in after && id !in before ==> !IsEarly(chunks, cut, id)
  }

  lemma {:induction false} CloseHolesAfter(chunks: seq<Chunk>, cut: nat, kept: set<Id>, holes: seq<Span>)
    requires forall h :: h in holes ==> cut <= h.start
    ensures NothingEarlyAdded(chunks, cut, kept, CloseHoles(chunks, kept, holes))
    decreases |holes|
  {
    if holes != [] {
      var hole := holes[0];
      var candidates := Sorted(Candidates(chunks, kept, hole));
      MergeCoverage.RestoreOnlyAdds(chunks, kept, hole, candidates);
      var more := if hole.Length() > SEAM_TOLERANCE then Restore(chunks, kept, hole, candidates) else kept;
      assert NothingEarlyAdded(chunks, cut, kept, more);
      CloseHolesAfter(chunks, cut, more, holes[1..]);
    }
  }

  lemma {:induction false} GuardAfter(chunks: seq<Chunk>, cut: nat, kept: set<Id>, stretches: seq<Span>)
    requires forall s :: s in stretches ==> cut <= s.start
    ensures NothingEarlyAdded(chunks, cut, kept, Guarded(chunks, kept, stretches))
    decreases |stretches|
  {
    if stretches != [] {
      var holes := Gaps(Covered(chunks, kept), stretches[0].start, stretches[0].end);
      CloseHolesAfter(chunks, cut, kept, holes);
      GuardAfter(chunks, cut, CloseHoles(chunks, kept, holes), stretches[1..]);
    }
  }

  lemma {:induction false} GuardInTwo(chunks: seq<Chunk>, kept: set<Id>, first: seq<Span>, second: seq<Span>)
    ensures Guarded(chunks, kept, first + second) == Guarded(chunks, Guarded(chunks, kept, first), second)
    decreases |first|
  {
    if first == [] {
      assert first + second == second;
    } else {
      assert (first + second)[1..] == first[1..] + second;
      var holes := Gaps(Covered(chunks, kept), first[0].start, first[0].end);
      GuardInTwo(chunks, CloseHoles(chunks, kept, holes), first[1..], second);
    }
  }

  /** The stretches before the cut, and the others. */
  lemma StretchesInTwo(chunks: seq<Chunk>, k: nat, cut: nat) returns (late: seq<Span>)
    requires IsCut(chunks, k, cut)
    ensures Stretches(chunks) == Runs(Union(chunks), 0, cut) + late
    ensures forall s :: s in late ==> cut <= s.start
    ensures cut == 0 || cut - 1 !in Union(chunks)
  {
    var union, horizon := Union(chunks), Horizon(chunks);
    var further := if horizon < cut then cut else horizon;
    if cut > 0 { NothingAtTheCut(chunks, k, cut); }
    RunsExtend(union, 0, horizon, further);
    RunsSplit(union, 0, cut, further);
    late := Runs(union, cut, further);
  }

  lemma NothingAtTheCut(chunks: seq<Chunk>, k: nat, cut: nat)
    requires IsCut(chunks, k, cut) && cut > 0
    ensures cut - 1 !in Union(chunks)
  {
  }

  lemma UnionsAgree(chunks: seq<Chunk>, k: nat, cut: nat)
    requires IsCut(chunks, k, cut)
    ensures Runs(Union(chunks), 0, cut) == Runs(Union(chunks[..k]), 0, cut)
  {
    var finished := chunks[..k];
    forall id | IsEarly(chunks, cut, id) ensures id in AllIds(finished) { EarlyIsFinished(chunks, k, cut, id); }
    forall t: nat | t < cut ensures t in Union(chunks) <==> t in Union(finished) {
      CoveredAgrees(chunks, k, cut, AllIds(chunks), AllIds(finished), t);
    }
    RunsAreLocal(Union(chunks), Union(finished), 0, cut);
  }

  lemma FinishedIsCut(chunks: seq<Chunk>, k: nat, cut: nat)
    requires IsCut(chunks, k, cut)
    ensures IsCut(chunks[..k], k, cut)
  {
    forall id | Valid(chunks[..k], id) ensures At(chunks[..k], id) == At(chunks, id) {}
  }

  /** If rules 1 and 2 agree before the cut, so do they and the guard together. */
  lemma KeptAgrees(chunks: seq<Chunk>, k: nat, cut: nat)
    requires IsCut(chunks, k, cut)
    requires AgreeBefore(chunks, k, cut, KeptByRules(chunks), KeptByRules(chunks[..k]))
    ensures AgreeBefore(chunks, k, cut, Kept(chunks), Kept(chunks[..k]))
  {
    var finished := chunks[..k];
    FinishedIsCut(chunks, k, cut);
    UnionsAgree(chunks, k, cut);
    var first := Runs(Union(chunks), 0, cut);
    var whole, part := KeptByRules(chunks), KeptByRules(finished);
    var late := StretchesInTwo(chunks, k, cut);
    var lateFinished := StretchesInTwo(finished, k, cut);
    GuardInTwo(chunks, whole, first, late);
    GuardInTwo(finished, part, first, lateFinished);
    GuardAgrees(chunks, k, cut, whole, part, first);
    GuardAfter(chunks, cut, Guarded(chunks, whole, first), late);
    GuardAfter(finished, cut, Guarded(finished, part, first), lateFinished);
    forall id | IsEarly(chunks, cut, id) ensures id in Kept(chunks) <==> id in Kept(finished) {
      EarlyIsFinished(chunks, k, cut, id);
    }
  }
}
