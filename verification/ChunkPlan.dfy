/** How a range is cut into overlapping windows. */
module ChunkPlan {
  import opened Basics
  import opened Spans

  const MAX_CHUNK_WINDOW_MICROS: nat := 30_000_000
  const MAX_PLANNED_CHUNKS: nat := 1_024

  datatype Plan = Plan(window: nat, overlap: nat) {
    predicate Valid() { 0 < window <= MAX_CHUNK_WINDOW_MICROS && overlap * 2 < window }

    function Stride(): int { window - overlap }
  }

  datatype Planning = Planned(windows: seq<TimeRange>) | TooManyChunks

  /** Consecutive windows start one stride apart and the last one alone reaches the end. */
  ghost predicate IsPlanOf(windows: seq<TimeRange>, range: TimeRange, plan: Plan) {
    && windows != []
    && windows[0].start == range.start
    && (forall i :: 0 <= i < |windows| - 1 ==>
      && windows[i].end == windows[i].start + plan.window < range.end
      && windows[i + 1].start == windows[i].start + plan.Stride())
    && windows[|windows| - 1].end == range.end <= windows[|windows| - 1].start + plan.window
  }

  /** The windows of a plan that does not need too many of them. */
  method PlanChunks(range: TimeRange, plan: Plan) returns (p: Planning)
    requires plan.Valid()
    ensures p.Planned? ==> IsPlanOf(p.windows, range, plan) && |p.windows| <= MAX_PLANNED_CHUNKS
    ensures p.TooManyChunks? ==>
      forall windows :: IsPlanOf(windows, range, plan) ==> |windows| > MAX_PLANNED_CHUNKS
  {
    var windows: seq<TimeRange> := [];
    var start := range.start;
    while true
      invariant |windows| <= MAX_PLANNED_CHUNKS && start < range.end
      invariant forall i :: 0 <= i < |windows| - 1 ==> windows[i + 1].start == windows[i].start + plan.Stride()
      invariant forall i :: 0 <= i < |windows| ==> windows[i].end == windows[i].start + plan.window < range.end
      invariant if windows == [] then start == range.start
                else windows[0].start == range.start && start == windows[|windows| - 1].start + plan.Stride()
      decreases MAX_PLANNED_CHUNKS - |windows|
    {
      if |windows| == MAX_PLANNED_CHUNKS {
        forall others | IsPlanOf(others, range, plan) ensures |others| > MAX_PLANNED_CHUNKS {
          NoShorterPlan(windows, others, range, plan);
        }
        return TooManyChunks;
      }
      var end := if start + plan.window < range.end then start + plan.window else range.end;
      windows := windows + [Span(start, end)];
      if end == range.end {
        return Planned(windows);
      }
      start := start + plan.Stride();
    }
  }

  /** A plan cannot stop inside windows that all end before the range does. */
  lemma NoShorterPlan(windows: seq<TimeRange>, others: seq<TimeRange>, range: TimeRange, plan: Plan)
    requires windows != [] && windows[0].start == range.start && IsPlanOf(others, range, plan)
    requires forall i :: 0 <= i < |windows| - 1 ==> windows[i + 1].start == windows[i].start + plan.Stride()
    requires forall i :: 0 <= i < |windows| ==> windows[i].end == windows[i].start + plan.window < range.end
    ensures |others| > |windows|
  {
    if |others| <= |windows| {
      SameStarts(windows, others, range, plan, |others| - 1);
    }
  }

  lemma {:induction false} SameStarts(
    windows: seq<TimeRange>, others: seq<TimeRange>, range: TimeRange, plan: Plan, i: nat)
    requires i < |windows| && i < |others|
    requires windows[0].start == others[0].start
    requires forall j :: 0 <= j < |windows| - 1 ==> windows[j + 1].start == windows[j].start + plan.Stride()
    requires forall j :: 0 <= j < |others| - 1 ==> others[j + 1].start == others[j].start + plan.Stride()
    ensures windows[i].start == others[i].start
  {
    if i > 0 {
      SameStarts(windows, others, range, plan, i - 1);
      assert windows[i - 1 + 1].start == windows[i - 1].start + plan.Stride();
      assert others[i - 1 + 1].start == others[i - 1].start + plan.Stride();
    }
  }

  /** The same range and plan always give the same windows. */
  lemma PlanIsUnique(one: seq<TimeRange>, other: seq<TimeRange>, range: TimeRange, plan: Plan)
    requires plan.Valid() && IsPlanOf(one, range, plan) && IsPlanOf(other, range, plan)
    ensures one == other
  {
    var shorter := if |one| < |other| then |one| else |other|;
    forall i | 0 <= i < shorter ensures one[i].start == other[i].start {
      SameStarts(one, other, range, plan, i);
    }
    assert one[shorter - 1].start == other[shorter - 1].start;
    assert |one| == |other|;
    forall i | 0 <= i < |one| ensures one[i] == other[i] {
    }
  }

  /** Later windows start later and end no earlier. */
  lemma {:induction false} PlanIsOrdered(windows: seq<TimeRange>, range: TimeRange, plan: Plan, i: nat, j: nat)
    requires plan.Valid() && IsPlanOf(windows, range, plan)
    requires i <= j < |windows|
    ensures windows[i].start <= windows[j].start && windows[i].end <= windows[j].end
    ensures i < j ==> windows[i].start + plan.Stride() <= windows[j].start
  {
    if i < j {
      PlanIsOrdered(windows, range, plan, i, j - 1);
      assert windows[j - 1 + 1].start == windows[j - 1].start + plan.Stride();
    }
  }
}
