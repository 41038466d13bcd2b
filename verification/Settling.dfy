/** The part of a run's merge that no chunk still to come can change. `Settle` cuts the merge of the
    finished chunks before the first stretch that the next chunk's audio could reach. What it keeps
    is the beginning of the merge of the whole run, whatever the other chunks answer, and every
    other segment of that merge starts at or after the cut. */
module Settling {
  import opened Basics
  import opened Spans
  import opened ChunkPlan
  import opened ChunkMerge

  datatype Settled = Settled(until: nat, segments: seq<Merged>)

  /** The earliest that a segment of the next chunk, or of a later one, may start. */
  function Reach(next: TimeRange, early: nat): nat {
    if next.start < early then 0 else next.start - early
  }

  /** The start of the first stretch that ends at or after the reach, or the reach. */
  function CutOf(stretches: seq<Span>, reach: nat): (cut: nat)
    ensures cut <= reach
  {
    if stretches == [] then reach
    else if stretches[0].end >= reach then if stretches[0].start < reach then stretches[0].start else reach
    else CutOf(stretches[1..], reach)
  }

  function EndingBy(merged: seq<Merged>, until: nat): seq<Merged> {
    if merged == [] || merged[0].segment.range.end > until then []
    else [merged[0]] + EndingBy(merged[1..], until)
  }

  ghost function Settle(finished: seq<Chunk>, next: Option<TimeRange>, early: nat): Settled {
    var merged := MergeChunks(finished);
    match next
    case None => Settled(if finished == [] then 0 else finished[|finished| - 1].window.end, merged)
    case Some(window) =>
      var until := CutOf(Stretches(finished), Reach(window, early));
      Settled(until, EndingBy(merged, until))
  }

  function Windows(chunks: seq<Chunk>): (windows: seq<TimeRange>)
    ensures |windows| == |chunks|
    ensures forall i :: 0 <= i < |chunks| ==> windows[i] == chunks[i].window
  {
    if chunks == [] then [] else [chunks[0].window] + Windows(chunks[1..])
  }

  /** A run whose windows are those of its plan, and whose audio never began more than
      `early` before its window: what a run checks before it publishes. */
  ghost predicate IsRunOf(chunks: seq<Chunk>, range: TimeRange, plan: Plan, early: nat) {
    && plan.Valid()
    && IsPlanOf(Windows(chunks), range, plan)
    && forall id :: Valid(chunks, id) ==> At(chunks, id).range.start + early >= chunks[id.chunk].window.start
  }

  /** The segments before the cut; they belong to finished chunks. */
  ghost predicate IsEarly(chunks: seq<Chunk>, cut: nat, id: Id) {
    Valid(chunks, id) && At(chunks, id).range.end < cut
  }

  /** Every segment ends before the cut, in one of the first `k` chunks, or starts at or after it. */
  ghost predicate CutsBetween(chunks: seq<Chunk>, k: nat, cut: nat) {
    forall id :: Valid(chunks, id) ==>
      (id.chunk < k && At(chunks, id).range.end < cut) || At(chunks, id).range.start >= cut
  }

  lemma {:induction false} CutSeparates(stretches: seq<Span>, reach: nat, r: Span)
    requires Apart(stretches) && (forall s :: s in stretches ==> s.start < s.end)
    requires r in stretches
    ensures r.end < CutOf(stretches, reach) || r.start >= CutOf(stretches, reach)
  {
    if stretches[0].end >= reach {
      var i :| 0 <= i < |stretches| && stretches[i] == r;
    } else if stretches[0] == r {
      CutAfterFirst(stretches[1..], reach, r.end);
    } else {
      CutSeparates(stretches[1..], reach, r);
    }
  }

  lemma {:induction false} CutAfterFirst(stretches: seq<Span>, reach: nat, end: nat)
    requires end < reach && forall s :: s in stretches ==> end < s.start
    ensures end < CutOf(stretches, reach)
  {
    if stretches != [] && stretches[0].end < reach { CutAfterFirst(stretches[1..], reach, end); }
  }

  lemma SegmentLiesInAStretch(chunks: seq<Chunk>, id: Id) returns (r: Span)
    requires Valid(chunks, id)
    ensures r in Stretches(chunks) && r.start <= At(chunks, id).range.start && At(chunks, id).range.end <= r.end
  {
    var union, horizon, range := Union(chunks), Horizon(chunks), At(chunks, id).range;
    forall t: nat | range.start <= t < range.end ensures t in union { assert range.Holds(t); }
    r := RunHolding(union, 0, horizon, range.start);
    RunsAreMaximal(union, 0, horizon, r);
    assert r.end < range.end ==> r.end in union;
  }

  lemma SettlingCutsBetween(chunks: seq<Chunk>, k: nat, range: TimeRange, plan: Plan, early: nat)
    requires IsRunOf(chunks, range, plan, early) && k < |chunks|
    ensures CutsBetween(chunks, k, CutOf(Stretches(chunks[..k]), Reach(chunks[k].window, early)))
  {
    var finished := chunks[..k];
    var reach := Reach(chunks[k].window, early);
    var cut := CutOf(Stretches(finished), reach);
    forall id | Valid(chunks, id)
      ensures (id.chunk < k && At(chunks, id).range.end < cut) || At(chunks, id).range.start >= cut
    {
      if id.chunk < k {
        assert At(finished, id) == At(chunks, id);
        var r := SegmentLiesInAStretch(finished, id);
        RunsAreApart(Union(finished), 0, Horizon(finished));
        CutSeparates(Stretches(finished), reach, r);
      } else {
        PlanIsOrdered(Windows(chunks), range, plan, k, id.chunk);
      }
    }
  }

  // Rules 1 and 2 before the cut

  lemma {:induction false} SameOwner(chunks: seq<Chunk>, k: nat, from: nat, t: nat, otherwise: nat)
    requires from <= k < |chunks| && k > 0 && t < Boundary(chunks, k - 1) && otherwise < k
    requires forall i :: k <= i < |chunks| ==> !InCore(chunks, i, t)
    ensures OwnerFrom(chunks, from, t, otherwise) == OwnerFrom(chunks[..k], from, t, otherwise) < k
    decreases k - from
  {
    if from < k {
      assert InCore(chunks, from, t) == InCore(chunks[..k], from, t);
      if !InCore(chunks, from, t) { SameOwner(chunks, k, from + 1, t, otherwise); }
    } else {
      NoOwner(chunks, from, t, otherwise);
    }
  }

  lemma {:induction false} NoOwner(chunks: seq<Chunk>, from: nat, t: nat, otherwise: nat)
    requires forall i :: from <= i < |chunks| ==> !InCore(chunks, i, t)
    ensures OwnerFrom(chunks, from, t, otherwise) == otherwise
    decreases |chunks| - from
  {
    if from < |chunks| { NoOwner(chunks, from + 1, t, otherwise); }
  }

  /** No later chunk's core reaches back before the middle of its overlap with the last finished one. */
  lemma NotInLaterCore(chunks: seq<Chunk>, k: nat, range: TimeRange, plan: Plan, early: nat, t: nat, i: nat)
    requires IsRunOf(chunks, range, plan, early) && 0 < k <= i < |chunks| && t < Boundary(chunks, k - 1)
    ensures !InCore(chunks, i, t)
  {
    PlanIsOrdered(Windows(chunks), range, plan, k - 1, i - 1);
    PlanIsOrdered(Windows(chunks), range, plan, k, i);
  }

  lemma OwnerIsSettled(chunks: seq<Chunk>, k: nat, range: TimeRange, plan: Plan, early: nat, cut: nat, id: Id)
    requires IsRunOf(chunks, range, plan, early) && k < |chunks|
    requires cut <= Reach(chunks[k].window, early) && CutsBetween(chunks, k, cut) && IsEarly(chunks, cut, id)
    ensures Valid(chunks[..k], id) && Owner(chunks, id) == Owner(chunks[..k], id) < k
  {
    var t := Midpoint(At(chunks, id).range);
    var windows := Windows(chunks);
    PlanIsOrdered(windows, range, plan, k - 1, k);
    assert windows[k - 1].end >= windows[k].start by {
      assert windows[k - 1 + 1].start == windows[k - 1].start + plan.Stride();
    }
    forall i | k <= i < |chunks| ensures !InCore(chunks, i, t) {
      NotInLaterCore(chunks, k, range, plan, early, t, i);
    }
    SameOwner(chunks, k, 0, t, id.chunk);
    assert At(chunks[..k], id) == At(chunks, id);
  }

  lemma CutIsSettled(chunks: seq<Chunk>, k: nat, i: nat, segment: Draft, side: Side)
    requires k <= |chunks| && i < k && (side == Right ==> i + 1 < k)
    ensures CutAt(chunks, i, segment, side) == CutAt(chunks[..k], i, segment, side)
  {
  }

  /** A segment with a finished chunk on either side. */
  lemma InnerIsSettled(chunks: seq<Chunk>, k: nat, id: Id)
    requires k <= |chunks| && Valid(chunks, id) && id.chunk + 1 < k
    ensures Valid(chunks[..k], id) && KeptInCore(chunks, id) == KeptInCore(chunks[..k], id)
  {
    var segment := At(chunks, id);
    CutIsSettled(chunks, k, id.chunk, segment, Left);
    CutIsSettled(chunks, k, id.chunk, segment, Right);
    if id.chunk > 0 { CoveringIsSettled(chunks, k, id.chunk - 1, segment, Right); }
    CoveringIsSettled(chunks, k, id.chunk + 1, segment, Left);
  }

  /** A segment of the last finished chunk. */
  lemma LastIsSettled(chunks: seq<Chunk>, k: nat, id: Id)
    requires 0 < k < |chunks| && Valid(chunks, id) && id.chunk == k - 1
    requires Covering(chunks, k, At(chunks, id), Left) == {}
    requires k > 1 && CutAt(chunks, k - 1, At(chunks, id), Right) ==>
      Covering(chunks, k - 2, At(chunks, id), Right) == {}
    ensures Valid(chunks[..k], id) && KeptInCore(chunks, id) == KeptInCore(chunks[..k], id)
  {
    var segment := At(chunks, id);
    CutIsSettled(chunks, k, k - 1, segment, Left);
    if k > 1 { CoveringIsSettled(chunks, k, k - 2, segment, Right); }
  }

  lemma KeptInCoreIsSettled(chunks: seq<Chunk>, k: nat, range: TimeRange, plan: Plan, early: nat, cut: nat, id: Id)
    requires IsRunOf(chunks, range, plan, early) && k < |chunks|
    requires cut <= Reach(chunks[k].window, early) && CutsBetween(chunks, k, cut) && IsEarly(chunks, cut, id)
    ensures Valid(chunks[..k], id) && KeptInCore(chunks, id) == KeptInCore(chunks[..k], id)
  {
    if id.chunk + 1 < k {
      InnerIsSettled(chunks, k, id);
    } else {
      NothingCoversFromAfter(chunks, k, cut, At(chunks, id));
      if k > 1 && CutAt(chunks, k - 1, At(chunks, id), Right) {
        NothingCoversFromBefore(chunks, range, plan, early, k, cut, id);
      }
      LastIsSettled(chunks, k, id);
    }
  }

  /** What one early segment makes rules 1 and 2 keep. */
  lemma KeptForIsSettled(chunks: seq<Chunk>, k: nat, range: TimeRange, plan: Plan, early: nat, cut: nat, id: Id)
    requires IsRunOf(chunks, range, plan, early) && k < |chunks|
    requires cut <= Reach(chunks[k].window, early) && CutsBetween(chunks, k, cut) && IsEarly(chunks, cut, id)
    ensures Valid(chunks[..k], id) && KeptFor(chunks, id) == KeptFor(chunks[..k], id)
  {
    OwnerIsSettled(chunks, k, range, plan, early, cut, id);
    KeptInCoreIsSettled(chunks, k, range, plan, early, cut, id);
  }

  lemma CoveringIsSettled(chunks: seq<Chunk>, k: nat, neighbour: nat, segment: Draft, facing: Side)
    requires k <= |chunks| && neighbour < k && (facing == Right ==> neighbour + 1 < k)
    ensures Covering(chunks, neighbour, segment, facing) == Covering(chunks[..k], neighbour, segment, facing)
  {
    forall c | Valid(chunks, c) && c.chunk == neighbour
      ensures Valid(chunks[..k], c) && Covers(chunks, c, segment, facing) == Covers(chunks[..k], c, segment, facing)
    {
    }
  }

  lemma NothingCoversFromAfter(chunks: seq<Chunk>, k: nat, cut: nat, segment: Draft)
    requires CutsBetween(chunks, k, cut) && segment.range.end < cut
    ensures Covering(chunks, k, segment, Left) == {}
  {
  }

  /** A segment of the last finished chunk that the next window's edge cuts is so long, or so
      late, that nothing before it can stand for it: the plan's core is wider than its overlap. */
  lemma NothingCoversFromBefore(
    chunks: seq<Chunk>, range: TimeRange, plan: Plan, early: nat, k: nat, cut: nat, id: Id)
    requires IsRunOf(chunks, range, plan, early) && k < |chunks| && k > 1
    requires cut <= Reach(chunks[k].window, early)
    requires IsEarly(chunks, cut, id) && id.chunk == k - 1 && CutAt(chunks, k - 1, At(chunks, id), Right)
    ensures Covering(chunks, k - 2, At(chunks, id), Right) == {}
  {
    var windows := Windows(chunks);
    assert windows[k - 1].end == windows[k - 1].start + plan.window;
    assert windows[k - 2].end == windows[k - 2].start + plan.window;
    assert windows[k - 2 + 1].start == windows[k - 2].start + plan.Stride();
    assert windows[k - 1 + 1].start == windows[k - 1].start + plan.Stride();
    var segment := At(chunks, id);
    assert segment.range.start + early >= windows[k - 1].start;
    forall c | Valid(chunks, c) && c.chunk == k - 2 ensures !Covers(chunks, c, segment, Right) {
      if At(chunks, c).range.Holds(Midpoint(segment.range)) {
        assert windows[k - 2].end == windows[k - 1].start + plan.overlap;
        assert segment.range.end + SEAM_EDGE > windows[k - 1].end;
        assert At(chunks, c).range.end + SEAM_EDGE > windows[k - 2].end;
      }
    }
  }

  /** Rules 1 and 2 keep the same early segments of the finished chunks and of the whole run. */
  lemma RulesAreSettled(chunks: seq<Chunk>, k: nat, range: TimeRange, plan: Plan, early: nat, cut: nat, id: Id)
    requires IsRunOf(chunks, range, plan, early) && k < |chunks|
    requires cut <= Reach(chunks[k].window, early) && CutsBetween(chunks, k, cut) && IsEarly(chunks, cut, id)
    ensures id in KeptByRules(chunks) <==> id in KeptByRules(chunks[..k])
  {
    var finished := chunks[..k];
    assert Valid(finished, id);
    if id in KeptByRules(chunks) {
      var cause :| cause in AllIds(chunks) && id in KeptFor(chunks, cause);
      CauseIsEarly(chunks, k, cut, cause, id);
      KeptForIsSettled(chunks, k, range, plan, early, cut, cause);
      assert cause in AllIds(finished);
    }
    if id in KeptByRules(finished) {
      var cause :| cause in AllIds(finished) && id in KeptFor(finished, cause);
      StandInsOverlap(finished, cause, id);
      assert At(finished, cause) == At(chunks, cause);
      KeptForIsSettled(chunks, k, range, plan, early, cut, cause);
      assert cause in AllIds(chunks);
    }
  }

  lemma CauseIsEarly(chunks: seq<Chunk>, k: nat, cut: nat, cause: Id, id: Id)
    requires CutsBetween(chunks, k, cut) && IsEarly(chunks, cut, id)
    requires Valid(chunks, cause) && id in KeptFor(chunks, cause)
    ensures IsEarly(chunks, cut, cause)
  {
    StandInsOverlap(chunks, cause, id);
  }

  lemma StandInsOverlap(chunks: seq<Chunk>, cause: Id, id: Id)
    requires Valid(chunks, cause) && id in KeptFor(chunks, cause)
    ensures Valid(chunks, id) && At(chunks, id).range.Overlaps(At(chunks, cause).range)
  {
    assert At(chunks, cause).range.Holds(Midpoint(At(chunks, cause).range));
  }
}
