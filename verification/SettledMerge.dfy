/** The settled part of a run is the beginning of its merge, and only grows. */
module SettledMerge {
  import opened Basics
  import opened Spans
  import opened ChunkPlan
  import opened ChunkMerge
  import opened Settling
  import opened SettledGuard

  // Sorting

  ghost predicate AllBefore(first: set<Key>, second: set<Key>) {
    forall a, b :: a in first && b in second ==> Before(a, b)
  }

  lemma LeastOfBoth(first: set<Key>, second: set<Key>)
    requires first != {} && AllBefore(first, second)
    ensures Least(first + second) == Least(first) && Least(first) !in second
    ensures AllBefore(first - {Least(first)}, second)
  {
    var least, both := Least(first), Least(first + second);
    assert !Before(least, least);
    assert least in first + second && both in first + second;
    if both in first {
      assert both == least || Before(least, both);
    }
    assert !(Before(least, both) && Before(both, least));
  }

  lemma SortedUnfolds(keys: set<Key>, least: Key, rest: set<Key>)
    requires keys != {} && least == Least(keys) && rest == keys - {least}
    ensures Sorted(keys) == [least] + Sorted(rest)
  {
  }

  lemma WithoutLeast(all: set<Key>, first: set<Key>, second: set<Key>, least: Key)
    requires all == first + second && least in first && least !in second
    ensures all - {least} == (first - {least}) + second
  {
  }

  /** A sorted list falls apart where its keys do. */
  lemma {:induction false} SortedInTwo(all: set<Key>, first: set<Key>, second: set<Key>)
    requires all == first + second && AllBefore(first, second)
    ensures Sorted(all) == Sorted(first) + Sorted(second)
    decreases |first|
  {
    if first == {} {
      assert all == second;
    } else {
      var least := Least(first);
      LeastOfBoth(first, second);
      WithoutLeast(all, first, second, least);
      SortedUnfolds(all, least, all - {least});
      SortedUnfolds(first, least, first - {least});
      SortedInTwo(all - {least}, first - {least}, second);
      Regrouped([least], Sorted(first - {least}), Sorted(second));
    }
  }

  /** The keys of the early segments. */
  ghost function EarlyKeys(chunks: seq<Chunk>, cut: nat, ids: set<Id>): set<Key> {
    set key | key in Placed(chunks, ids) && key.range.end < cut
  }

  lemma {:induction false} DraftsInTwo(chunks: seq<Chunk>, first: seq<Key>, second: seq<Key>)
    requires forall key :: key in first + second ==> Valid(chunks, key.id)
    ensures Drafts(chunks, first + second) == Drafts(chunks, first) + Drafts(chunks, second)
    decreases |first|
  {
    if first == [] {
      assert first + second == second;
    } else {
      assert (first + second)[1..] == first[1..] + second;
      DraftsInTwo(chunks, first[1..], second);
    }
  }

  lemma PlacedInTwo(chunks: seq<Chunk>, k: nat, cut: nat, ids: set<Id>)
    requires IsCut(chunks, k, cut)
    ensures forall key :: key in Placed(chunks, ids) ==> Valid(chunks, key.id) && key.range == At(chunks, key.id).range
    ensures var early := EarlyKeys(chunks, cut, ids);
      Sorted(Placed(chunks, ids)) == Sorted(early) + Sorted(Placed(chunks, ids) - early)
  {
    var early := EarlyKeys(chunks, cut, ids);
    var rest := Placed(chunks, ids) - early;
    assert Placed(chunks, ids) == early + rest;
    forall a, b | a in early && b in rest ensures Before(a, b) {
      assert Valid(chunks, b.id) && !(b.range.end < cut);
    }
    SortedInTwo(Placed(chunks, ids), early, rest);
  }

  lemma DraftsSplit(chunks: seq<Chunk>, k: nat, cut: nat, ids: set<Id>) returns (late: seq<Merged>)
    requires IsCut(chunks, k, cut)
    ensures forall key :: key in EarlyKeys(chunks, cut, ids) ==> Valid(chunks, key.id)
    ensures Drafts(chunks, Sorted(Placed(chunks, ids)))
         == Drafts(chunks, Sorted(EarlyKeys(chunks, cut, ids))) + late
    ensures EndBefore(Drafts(chunks, Sorted(EarlyKeys(chunks, cut, ids))), cut) && StartAfter(late, cut)
  {
    PlacedInTwo(chunks, k, cut, ids);
    var early := Sorted(EarlyKeys(chunks, cut, ids));
    var rest := Sorted(Placed(chunks, ids) - EarlyKeys(chunks, cut, ids));
    DraftsInTwo(chunks, early, rest);
    late := Drafts(chunks, rest);
    forall i | 0 <= i < |rest| ensures cut <= late[i].segment.range.start {
      assert rest[i] in rest;
    }
    forall i | 0 <= i < |early| ensures Drafts(chunks, early)[i].segment.range.end < cut {
      assert early[i] in early;
    }
  }

  lemma EarlyKeysAgree(chunks: seq<Chunk>, k: nat, cut: nat, whole: set<Id>, part: set<Id>)
    requires IsCut(chunks, k, cut) && AgreeBefore(chunks, k, cut, whole, part)
    ensures EarlyKeys(chunks, cut, whole) == EarlyKeys(chunks[..k], cut, part)
  {
    var finished := chunks[..k];
    forall key | key in EarlyKeys(chunks, cut, whole) ensures key in EarlyKeys(finished, cut, part) {
      EarlyIsFinished(chunks, k, cut, key.id);
    }
    forall key | key in EarlyKeys(finished, cut, part) ensures key in EarlyKeys(chunks, cut, whole) {
      assert Valid(chunks, key.id) && At(chunks, key.id) == At(finished, key.id);
      assert IsEarly(chunks, cut, key.id);
    }
  }

  lemma {:induction false} DraftsAgree(chunks: seq<Chunk>, k: nat, keys: seq<Key>)
    requires k <= |chunks| && forall key :: key in keys ==> Valid(chunks[..k], key.id) && Valid(chunks, key.id)
    ensures Drafts(chunks, keys) == Drafts(chunks[..k], keys)
    decreases |keys|
  {
    if keys != [] {
      assert At(chunks, keys[0].id) == At(chunks[..k], keys[0].id);
      DraftsAgree(chunks, k, keys[1..]);
    }
  }

  // Rule 3 on a list whose first part ends before the cut and whose second starts after it

  ghost predicate EndBefore(ordered: seq<Merged>, cut: nat) {
    forall m :: m in ordered ==> m.segment.range.end < cut
  }

  ghost predicate StartAfter(ordered: seq<Merged>, cut: nat) {
    forall m :: m in ordered ==> cut <= m.segment.range.start
  }

  /** A union that no stretch of crosses the cut. */
  datatype Heard = Heard(union: set<nat>, horizon: nat)

  ghost predicate SameBefore(one: Heard, other: Heard, cut: nat) {
    && (forall r: Span :: r.start < cut ==>
      (r in Runs(one.union, 0, one.horizon) <==> r in Runs(other.union, 0, other.horizon)))
    && (forall r: Span :: r in Runs(one.union, 0, one.horizon) && r.start < cut ==> r.end <= cut)
  }

  lemma SameHole(one: Heard, other: Heard, cut: nat, first: seq<Merged>, second: seq<Merged>, index: nat)
    requires SameBefore(one, other, cut) && EndBefore(first, cut) && StartAfter(second, cut) && index < |first|
    ensures DroppingLeavesAHole(one.union, one.horizon, first + second, index)
       <==> DroppingLeavesAHole(other.union, other.horizon, first, index)
  {
    var all := first + second;
    assert all[index] == first[index] && first[index] in first;
    forall from: nat, until: nat | until <= cut
      ensures CoveredInstead(all, index, from, until) == CoveredInstead(first, index, from, until)
    {
      forall t: nat | t < cut ensures HearsInstead(all, index, t) <==> HearsInstead(first, index, t) {
        SameHearing(first, second, cut, index, t);
      }
    }
  }

  lemma SameHearing(first: seq<Merged>, second: seq<Merged>, cut: nat, except: nat, t: nat)
    requires StartAfter(second, cut) && t < cut
    ensures HearsInstead(first + second, except, t) <==> HearsInstead(first, except, t)
  {
    var all := first + second;
    assert forall i :: 0 <= i < |first| ==> all[i] == first[i];
    assert forall i :: |first| <= i < |all| ==> all[i] in second && !all[i].segment.range.Holds(t);
  }

  /** The segments after the cut are never compared with one before it. */
  lemma {:induction false} CompareBeyond(
    heard: Heard, cut: nat, first: seq<Merged>, second: seq<Merged>, later: nat, earlier: nat)
    requires EndBefore(first, cut) && StartAfter(second, cut) && later < |first| <= earlier
    ensures Compare(heard.union, heard.horizon, first + second, later, earlier) == Compared(first + second, false)
    decreases |first| + |second| - earlier
  {
    var all := first + second;
    if earlier < |all| {
      assert all[earlier] in second && all[later] in first;
      CompareBeyond(heard, cut, first, second, later, earlier + 1);
    }
  }

  lemma TrimBefore(cut: nat, first: seq<Merged>, second: seq<Merged>, later: nat, text: Text)
    requires EndBefore(first, cut) && later < |first|
    ensures (first + second)[later := WithText(first[later], text)] ==
      first[later := WithText(first[later], text)] + second
    ensures EndBefore(first[later := WithText(first[later], text)], cut)
  {
    assert first[later] in first;
  }

  lemma DropBefore(cut: nat, first: seq<Merged>, second: seq<Merged>, later: nat)
    requires EndBefore(first, cut) && later < |first|
    ensures Without(first + second, later) == Without(first, later) + second
    ensures EndBefore(Without(first, later), cut)
  {
  }

  lemma {:induction false} CompareEndsBefore(heard: Heard, cut: nat, first: seq<Merged>, later: nat, earlier: nat)
    requires EndBefore(first, cut) && later < |first|
    ensures EndBefore(Compare(heard.union, heard.horizon, first, later, earlier).ordered, cut)
    decreases |first| - earlier
  {
    if earlier < |first| {
      match Judge(first[earlier], first[later])
      case Unrelated => CompareEndsBefore(heard, cut, first, later, earlier + 1);
      case Trimmed(text) =>
        TrimBefore(cut, first, [], later, text);
        CompareEndsBefore(heard, cut, first[later := WithText(first[later], text)], later, earlier + 1);
      case Repeated =>
        DropBefore(cut, first, [], later);
        CompareEndsBefore(heard, cut, first, later, earlier + 1);
    }
  }

  /** What one comparison leads to is the same with and without the segments after the cut. */
  lemma SameJudgement(cut: nat, first: seq<Merged>, second: seq<Merged>, later: nat, earlier: nat)
    requires later < |first| && earlier < |first|
    ensures Judge((first + second)[earlier], (first + second)[later]) == Judge(first[earlier], first[later])
  {
    assert (first + second)[earlier] == first[earlier] && (first + second)[later] == first[later];
  }

  lemma {:induction false} CompareBefore(one: Heard, other: Heard, cut: nat,
    first: seq<Merged>, second: seq<Merged>, later: nat, earlier: nat)
    requires SameBefore(one, other, cut) && EndBefore(first, cut) && StartAfter(second, cut)
    requires later < |first| && earlier <= |first|
    ensures var c := Compare(other.union, other.horizon, first, later, earlier);
      Compare(one.union, one.horizon, first + second, later, earlier) == Compared(c.ordered + second, c.dropped)
    decreases |first| - earlier
  {
    if earlier == |first| {
      CompareBeyond(one, cut, first, second, later, earlier);
    } else {
      SameJudgement(cut, first, second, later, earlier);
      if Judge(first[earlier], first[later]).Trimmed? {
        var text := Judge(first[earlier], first[later]).text;
        TrimBefore(cut, first, second, later, text);
        CompareBefore(one, other, cut, first[later := WithText(first[later], text)], second, later, earlier + 1);
      } else {
        SameHole(one, other, cut, first, second, later);
        DropBefore(cut, first, second, later);
        CompareBefore(one, other, cut, first, second, later, earlier + 1);
      }
    }
  }

  /** Comparing a segment after the cut changes nothing before it. */
  lemma {:induction false} CompareAfter(
    heard: Heard, cut: nat, first: seq<Merged>, second: seq<Merged>, later: nat, earlier: nat)
    requires StartAfter(second, cut) && |first| <= later < |first| + |second|
    ensures var c := Compare(heard.union, heard.horizon, first + second, later, earlier).ordered;
      |first| <= |c| && c[..|first|] == first && StartAfter(c[|first|..], cut)
    decreases |first| + |second| - earlier
  {
    var all := first + second;
    if earlier < |all| {
      var i := later - |first|;
      assert all[later] == second[i] && second[i] in second;
      match Judge(all[earlier], all[later])
      case Unrelated => CompareAfter(heard, cut, first, second, later, earlier + 1);
      case Trimmed(text) =>
        var changed := second[i := WithText(second[i], text)];
        assert all[later := WithText(second[i], text)] == first + changed;
        CompareAfter(heard, cut, first, changed, later, earlier + 1);
      case Repeated =>
        if DroppingLeavesAHole(heard.union, heard.horizon, all, later) {
          CompareAfter(heard, cut, first, second, later, earlier + 1);
        } else {
          assert Without(all, later) == first + Without(second, i);
        }
    }
  }

  lemma {:induction false} RuleThreeAfter(heard: Heard, cut: nat, first: seq<Merged>, second: seq<Merged>, later: nat)
    requires StartAfter(second, cut) && |first| <= later
    ensures var r := WithoutRepeats(heard.union, heard.horizon, first + second, later);
      |first| <= |r| && r[..|first|] == first && StartAfter(r[|first|..], cut)
    decreases |first| + |second| - later
  {
    if later < |first| + |second| {
      CompareAfter(heard, cut, first, second, later, 0);
      var c := Compare(heard.union, heard.horizon, first + second, later, 0);
      assert c.ordered == first + c.ordered[|first|..];
      RuleThreeAfter(heard, cut, first, c.ordered[|first|..], if c.dropped then later else later + 1);
    } else {
      assert (first + second)[|first|..] == second;
    }
  }

  /** Rule 3 makes of the part before the cut what it makes of that part alone. */
  lemma {:induction false} RuleThreeBefore(one: Heard, other: Heard, cut: nat,
    first: seq<Merged>, second: seq<Merged>, later: nat)
    requires SameBefore(one, other, cut) && EndBefore(first, cut) && StartAfter(second, cut) && later <= |first|
    ensures var settled := WithoutRepeats(other.union, other.horizon, first, later);
      var r := WithoutRepeats(one.union, one.horizon, first + second, later);
      && EndBefore(settled, cut)
      && |settled| <= |r| && r[..|settled|] == settled && StartAfter(r[|settled|..], cut)
    decreases |first| - later
  {
    if later == |first| {
      RuleThreeAfter(one, cut, first, second, later);
    } else {
      CompareBefore(one, other, cut, first, second, later, 0);
      CompareEndsBefore(other, cut, first, later, 0);
      var c := Compare(other.union, other.horizon, first, later, 0);
      RuleThreeBefore(one, other, cut, c.ordered, second, if c.dropped then later else later + 1);
    }
  }

  lemma StretchesAgree(chunks: seq<Chunk>, k: nat, cut: nat)
    requires IsCut(chunks, k, cut)
    ensures SameBefore(Heard(Union(chunks), Horizon(chunks)), Heard(Union(chunks[..k]), Horizon(chunks[..k])), cut)
  {
    var late := StretchesInTwo(chunks, k, cut);
    FinishedIsCut(chunks, k, cut);
    var lateFinished := StretchesInTwo(chunks[..k], k, cut);
    UnionsAgree(chunks, k, cut);
  }

  // The theorem

  /** Before a cut that no segment crosses, the merge of the finished chunks is the merge of the run. */
  lemma MergesAgree(chunks: seq<Chunk>, k: nat, cut: nat) returns (settled: seq<Merged>)
    requires IsCut(chunks, k, cut)
    requires AgreeBefore(chunks, k, cut, KeptByRules(chunks), KeptByRules(chunks[..k]))
    ensures EndBefore(settled, cut)
    ensures var whole := MergeChunks(chunks);
      |settled| <= |whole| && whole[..|settled|] == settled && StartAfter(whole[|settled|..], cut)
    ensures var part := MergeChunks(chunks[..k]);
      |settled| <= |part| && part[..|settled|] == settled && StartAfter(part[|settled|..], cut)
  {
    var finished := chunks[..k];
    KeptAgrees(chunks, k, cut);
    FinishedIsCut(chunks, k, cut);
    EarlyKeysAgree(chunks, k, cut, Kept(chunks), Kept(finished));
    var late := DraftsSplit(chunks, k, cut, Kept(chunks));
    var lateFinished := DraftsSplit(finished, k, cut, Kept(finished));
    var keys := Sorted(EarlyKeys(chunks, cut, Kept(chunks)));
    DraftsAgree(chunks, k, keys);
    var first := Drafts(finished, keys);
    var whole := Heard(Union(chunks), Horizon(chunks));
    var part := Heard(Union(finished), Horizon(finished));
    StretchesAgree(chunks, k, cut);
    assert SameBefore(part, part, cut);
    RuleThreeBefore(whole, part, cut, first, late, 0);
    RuleThreeBefore(part, part, cut, first, lateFinished, 0);
    settled := WithoutRepeats(part.union, part.horizon, first, 0);
  }

  lemma {:induction false} EndingByTakes(merged: seq<Merged>, settled: seq<Merged>, cut: nat)
    requires |settled| <= |merged| && merged[..|settled|] == settled
    requires EndBefore(settled, cut) && StartAfter(merged[|settled|..], cut)
    ensures EndingBy(merged, cut) == settled
    decreases |settled|
  {
    if settled != [] {
      assert settled[0] == merged[0] && settled[0] in settled;
      assert merged[1..][..|settled| - 1] == settled[1..];
      assert merged[1..][|settled| - 1..] == merged[|settled|..];
      EndingByTakes(merged[1..], settled[1..], cut);
    } else if merged != [] {
      assert merged[0] in merged[0..];
    }
  }

  ghost function SettledAfter(chunks: seq<Chunk>, k: nat, early: nat): Settled
    requires k < |chunks|
  {
    Settle(chunks[..k], Some(chunks[k].window), early)
  }

  /** What a run has settled after `k` of its chunks is the beginning of its merge, and every
      other segment of that merge starts at or after the settled time. */
  lemma SettledIsFinal(chunks: seq<Chunk>, k: nat, range: TimeRange, plan: Plan, early: nat)
    requires IsRunOf(chunks, range, plan, early) && k < |chunks|
    ensures var s := SettledAfter(chunks, k, early); var whole := MergeChunks(chunks);
      && s.segments <= whole
      && EndBefore(s.segments, s.until)
      && StartAfter(whole[|s.segments|..], s.until)
  {
    var s := SettledAfter(chunks, k, early);
    SettlingCutsBetween(chunks, k, range, plan, early);
    forall id | IsEarly(chunks, s.until, id)
      ensures id in KeptByRules(chunks) <==> id in KeptByRules(chunks[..k])
    {
      RulesAreSettled(chunks, k, range, plan, early, s.until, id);
    }
    var settled := MergesAgree(chunks, k, s.until);
    EndingByTakes(MergeChunks(chunks[..k]), settled, s.until);
  }

  lemma {:induction false} EndingByIsMost(merged: seq<Merged>, until: nat)
    ensures EndingBy(merged, until) <= merged
    ensures |EndingBy(merged, until)| < |merged| ==> merged[|EndingBy(merged, until)|].segment.range.end > until
  {
    if merged != [] && merged[0].segment.range.end <= until { EndingByIsMost(merged[1..], until); }
  }

  /** And no less is settled than can be: up to where the next chunk's audio may begin, unless the
      finished chunks hear somebody speak from the settled time until then; and of what they merge to,
      all that comes before the first segment that ends later. */
  lemma SettledIsMost(chunks: seq<Chunk>, k: nat, early: nat)
    requires k < |chunks|
    ensures var s := SettledAfter(chunks, k, early); var merged := MergeChunks(chunks[..k]);
      && s.until <= Max(chunks[k].window.start, early) - early
      && (forall t: nat :: s.until <= t < Max(chunks[k].window.start, early) - early ==> t in Union(chunks[..k]))
      && s.segments <= merged
      && (|s.segments| < |merged| ==> merged[|s.segments|].segment.range.end > s.until)
  {
    var finished, reach := chunks[..k], Reach(chunks[k].window, early);
    EndingByIsMost(MergeChunks(finished), SettledAfter(chunks, k, early).until);
    if SettledAfter(chunks, k, early).until < reach {
      var r := CutIsAStart(Stretches(finished), reach);
      RunsAreMaximal(Union(finished), 0, Horizon(finished), r);
    }
  }

  /** The settled time never moves back as chunks finish, ... */
  lemma SettledTimeGrows(chunks: seq<Chunk>, k: nat, more: nat, range: TimeRange, plan: Plan, early: nat)
    requires IsRunOf(chunks, range, plan, early) && k <= more < |chunks|
    ensures SettledAfter(chunks, k, early).until <= SettledAfter(chunks, more, early).until
  {
    var s, t := SettledAfter(chunks, k, early).until, SettledAfter(chunks, more, early).until;
    PlanIsOrdered(Windows(chunks), range, plan, k, more);
    if t < Reach(chunks[more].window, early) {
      var r := CutIsAStart(Stretches(chunks[..more]), Reach(chunks[more].window, early));
      SettlingCutsBetween(chunks, k, range, plan, early);
      if r.start < s { RunReachesNoFurther(chunks, k, s, chunks[..more], r); }
    }
  }

  lemma {:induction false} CutIsAStart(stretches: seq<Span>, reach: nat) returns (r: Span)
    requires CutOf(stretches, reach) < reach
    ensures r in stretches && r.start == CutOf(stretches, reach) && reach <= r.end
  {
    if stretches[0].end >= reach { r := stretches[0]; } else { r := CutIsAStart(stretches[1..], reach); }
  }

  lemma NothingEndsAtTheCut(chunks: seq<Chunk>, k: nat, cut: nat, some: seq<Chunk>)
    requires CutsBetween(chunks, k, cut) && some <= chunks && cut > 0
    ensures cut - 1 !in Union(some)
  {
    forall id | Valid(some, id) ensures !At(some, id).range.Holds(cut - 1) {
      assert Valid(chunks, id) && At(chunks, id) == At(some, id);
    }
  }

  /** A stretch of any of the run's first chunks that starts before the cut ends before it. */
  lemma RunReachesNoFurther(chunks: seq<Chunk>, k: nat, cut: nat, some: seq<Chunk>, r: Span)
    requires CutsBetween(chunks, k, cut) && some <= chunks && r in Stretches(some) && r.start < cut
    ensures r.end < cut
  {
    RunsAreMaximal(Union(some), 0, Horizon(some), r);
    NothingEndsAtTheCut(chunks, k, cut, some);
  }

  lemma BeginningsNest(whole: seq<Merged>, one: seq<Merged>, other: seq<Merged>, until: nat, later: nat)
    requires one <= whole && other <= whole && until <= later
    requires EndBefore(one, until) && StartAfter(whole[|other|..], later)
    ensures one <= other
  {
    forall i | |other| <= i < |whole| ensures whole[i].segment.range.start >= later {
      assert whole[i] in whole[|other|..];
    }
    forall i | 0 <= i < |one| ensures i < |other| && one[i] == other[i] {
      assert one[i] in one && whole[i] == one[i];
    }
    assert |one| == 0 || one[|one| - 1] in one;
  }

  /** ... and what is settled earlier is the beginning of what is settled later. */
  lemma SettledGrows(chunks: seq<Chunk>, k: nat, more: nat, range: TimeRange, plan: Plan, early: nat)
    requires IsRunOf(chunks, range, plan, early) && k <= more < |chunks|
    ensures SettledAfter(chunks, k, early).segments <= SettledAfter(chunks, more, early).segments
  {
    SettledTimeGrows(chunks, k, more, range, plan, early);
    SettledIsFinal(chunks, k, range, plan, early);
    SettledIsFinal(chunks, more, range, plan, early);
    var s, t := SettledAfter(chunks, k, early), SettledAfter(chunks, more, early);
    BeginningsNest(MergeChunks(chunks), s.segments, t.segments, s.until, t.until);
  }
}
