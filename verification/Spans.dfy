/** Half-open spans of source time, and the sets of instants they cover. Lists of spans are compared
    by the instants they hold: a list is merged when it is the list of maximal runs of a set of
    instants, which is what sorting, joining and subtracting spans all preserve. */
module Spans {
  import opened Basics

  datatype Span = Span(start: nat, end: nat) {
    predicate Holds(t: nat) { start <= t < end }

    /** Whether the two spans share more than an edge. */
    predicate Overlaps(other: Span) { start < other.end && other.start < end }

    function Length(): int { end - start }
  }

  /** A time range of the source is never empty. */
  type TimeRange = s: Span | s.start < s.end witness Span(0, 1)

  function RunEnd(points: set<nat>, at: nat, until: nat): (end: nat)
    requires at <= until
    ensures at <= end <= until
    ensures forall t :: at <= t < end ==> t in points
    ensures end == until || end !in points
    decreases until - at
  {
    if at < until && at in points then RunEnd(points, at + 1, until) else at
  }

  /** The maximal runs of `points` inside `[at, until)`, from left to right. */
  function Runs(points: set<nat>, at: nat, until: nat): (runs: seq<Span>)
    ensures forall r :: r in runs ==> at <= r.start < r.end <= until
    decreases until - at
  {
    if at >= until then []
    else if at !in points then Runs(points, at + 1, until)
    else
      var end := RunEnd(points, at, until);
      [Span(at, end)] + Runs(points, end, until)
  }

  /** A stretch of `[at, until)` that `points` fills and that no longer stretch extends. */
  ghost predicate IsRun(points: set<nat>, at: nat, until: nat, r: Span) {
    && at <= r.start < r.end <= until
    && (forall t :: r.start <= t < r.end ==> t in points)
    && (r.start == at || r.start - 1 !in points)
    && (r.end == until || r.end !in points)
  }

  /** `Runs` lists exactly the maximal runs, ... */
  lemma {:induction false} RunsAreMaximal(points: set<nat>, at: nat, until: nat, r: Span)
    ensures r in Runs(points, at, until) <==> IsRun(points, at, until, r)
    decreases until - at
  {
    if at < until {
      if at !in points {
        RunsAreMaximal(points, at + 1, until, r);
      } else {
        var end := RunEnd(points, at, until);
        var head := Span(at, end);
        RunsAreMaximal(points, end, until, r);
        assert end == until || end !in points;
        assert r.end == until || r.end !in points || !IsRun(points, at, until, r);
        if IsRun(points, at, until, r) && r != head {
          assert r.start >= end by { RunsAreDisjoint(points, at, until, head, r); }
        }
      }
    }
  }

  /** Two maximal runs that share an instant are one run. */
  lemma RunsAreDisjoint(points: set<nat>, at: nat, until: nat, one: Span, other: Span)
    requires IsRun(points, at, until, one) && IsRun(points, at, until, other)
    ensures one == other || !one.Overlaps(other)
  {
    if one.Overlaps(other) {
      assert !(one.start < other.start) || other.start - 1 in points;
      assert !(other.start < one.start) || one.start - 1 in points;
      assert !(one.end < other.end) || one.end in points;
      assert !(other.end < one.end) || other.end in points;
    }
  }

  /** ... every instant lies in one of them, ... */
  lemma {:induction false} RunHolding(points: set<nat>, at: nat, until: nat, t: nat) returns (r: Span)
    requires at <= t < until && t in points
    ensures r in Runs(points, at, until) && r.Holds(t)
    decreases until - at
  {
    if at !in points {
      r := RunHolding(points, at + 1, until, t);
    } else {
      var end := RunEnd(points, at, until);
      if t < end { r := Span(at, end); } else { r := RunHolding(points, end, until, t); }
    }
  }

  /** ... and only the instants inside the window decide them. */
  lemma {:induction false} RunsAreLocal(one: set<nat>, other: set<nat>, at: nat, until: nat)
    requires forall t :: at <= t < until ==> (t in one <==> t in other)
    ensures Runs(one, at, until) == Runs(other, at, until)
    decreases until - at
  {
    if at < until {
      if at !in one {
        RunsAreLocal(one, other, at + 1, until);
      } else {
        RunEndIsLocal(one, other, at, until);
        RunsAreLocal(one, other, RunEnd(one, at, until), until);
      }
    }
  }

  lemma {:induction false} RunEndIsLocal(one: set<nat>, other: set<nat>, at: nat, until: nat)
    requires at <= until
    requires forall t :: at <= t < until ==> (t in one <==> t in other)
    ensures RunEnd(one, at, until) == RunEnd(other, at, until)
    decreases until - at
  {
    if at < until && at in one { RunEndIsLocal(one, other, at + 1, until); }
  }

  /** Runs split at an instant that no run crosses. */
  lemma {:induction false} RunsSplit(points: set<nat>, at: nat, cut: nat, until: nat)
    requires at <= cut <= until
    requires at < cut ==> cut - 1 !in points
    ensures Runs(points, at, until) == Runs(points, at, cut) + Runs(points, cut, until)
    decreases until - at
  {
    if at < cut {
      if at !in points {
        RunsSplit(points, at + 1, cut, until);
      } else {
        RunEndStops(points, at, cut, until);
        RunsSplit(points, RunEnd(points, at, until), cut, until);
      }
    }
  }

  /** Instants past the last point change nothing. */
  lemma {:induction false} RunsExtend(points: set<nat>, at: nat, until: nat, further: nat)
    requires at <= until <= further
    requires forall t :: until <= t < further ==> t !in points
    ensures Runs(points, at, further) == Runs(points, at, until)
    decreases further - at
  {
    if at < further {
      if at !in points {
        RunsExtend(points, at + 1, if until < at + 1 then at + 1 else until, further);
      } else {
        RunEndExtends(points, at, until, further);
        RunsExtend(points, RunEnd(points, at, until), until, further);
      }
    }
  }

  lemma {:induction false} RunEndExtends(points: set<nat>, at: nat, until: nat, further: nat)
    requires at <= until <= further
    requires forall t :: until <= t < further ==> t !in points
    ensures RunEnd(points, at, further) == RunEnd(points, at, until)
    decreases until - at
  {
    if at < until && at in points { RunEndExtends(points, at + 1, until, further); }
  }

  /** The runs are apart: each ends before the next starts. */
  ghost predicate Apart(runs: seq<Span>) {
    forall i, j :: 0 <= i < j < |runs| ==> runs[i].end < runs[j].start
  }

  lemma {:induction false} RunsAreApart(points: set<nat>, at: nat, until: nat)
    ensures Apart(Runs(points, at, until))
    ensures at !in points ==> forall r :: r in Runs(points, at, until) ==> at < r.start
    decreases until - at
  {
    if at < until {
      if at !in points {
        RunsAreApart(points, at + 1, until);
      } else {
        var end := RunEnd(points, at, until);
        RunsAreApart(points, end, until);
        assert end < until ==> end !in points;
      }
    }
  }

  lemma {:induction false} RunEndStops(points: set<nat>, at: nat, cut: nat, until: nat)
    requires at < cut <= until && cut - 1 !in points
    ensures RunEnd(points, at, until) == RunEnd(points, at, cut) < cut
    decreases cut - at
  {
    if at in points { RunEndStops(points, at + 1, cut, until); }
  }

  /** The parts of `[from, until)` that `points` leaves uncovered, from left to right. */
  function Gaps(points: set<nat>, from: nat, until: nat): (gaps: seq<Span>)
    ensures forall g :: g in gaps ==> from <= g.start < g.end <= until
  {
    Runs(Uncovered(points, from, until), from, until)
  }

  function Uncovered(points: set<nat>, from: nat, until: nat): set<nat> {
    set t: nat | from <= t < until && t !in points
  }

  ghost predicate IsGap(points: set<nat>, from: nat, until: nat, g: Span) {
    && from <= g.start < g.end <= until
    && (forall t :: g.start <= t < g.end ==> t !in points)
    && (g.start == from || g.start - 1 in points)
    && (g.end == until || g.end in points)
  }

  lemma GapsAreMaximal(points: set<nat>, from: nat, until: nat, g: Span)
    ensures g in Gaps(points, from, until) <==> IsGap(points, from, until, g)
  {
    var free := Uncovered(points, from, until);
    RunsAreMaximal(free, from, until, g);
    if IsRun(free, from, until, g) {
      forall t | g.start <= t < g.end ensures t !in points { assert t in free; }
      assert g.start == from || g.start - 1 !in free;
      assert g.end == until || g.end !in free;
    }
    if IsGap(points, from, until, g) {
      assert g.start == from || g.start - 1 in points;
      assert g.end == until || g.end in points;
    }
  }

  lemma GapHolding(points: set<nat>, from: nat, until: nat, t: nat) returns (g: Span)
    requires from <= t < until && t !in points
    ensures g in Gaps(points, from, until) && g.Holds(t) && IsGap(points, from, until, g)
  {
    g := RunHolding(Uncovered(points, from, until), from, until, t);
    GapsAreMaximal(points, from, until, g);
  }

  lemma GapsAreLocal(one: set<nat>, other: set<nat>, from: nat, until: nat)
    requires forall t :: from <= t < until ==> (t in one <==> t in other)
    ensures Gaps(one, from, until) == Gaps(other, from, until)
  {
    RunsAreLocal(Uncovered(one, from, until), Uncovered(other, from, until), from, until);
  }
}
