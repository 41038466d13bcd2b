/** Publication as a run goes: every open revision is the beginning of the sealed one. */
module OpenRevisions {
  import opened Basics
  import opened Spans
  import opened ChunkPlan
  import opened ChunkMerge
  import opened Settling
  import opened SettledMerge
  import opened Revisions

  // The stable sort

  ghost predicate InOrder(list: seq<Assembled>) {
    forall i, j :: 0 <= i < j < |list| ==> NotAfter(list[i], list[j])
  }

  lemma {:induction false} InsertKeepsOrder(x: Assembled, sorted: seq<Assembled>)
    requires InOrder(sorted)
    ensures InOrder(Insert(x, sorted))
    ensures forall y :: y in Insert(x, sorted) <==> y == x || y in sorted
  {
    if sorted != [] && !NotAfter(x, sorted[0]) {
      InsertKeepsOrder(x, sorted[1..]);
      var rest := Insert(x, sorted[1..]);
      forall j | 0 <= j < |rest| ensures NotAfter(sorted[0], rest[j]) {
        assert rest[j] in rest;
        if rest[j] != x {
          var i :| 0 <= i < |sorted[1..]| && sorted[1..][i] == rest[j];
        }
      }
    }
  }

  lemma {:induction false} SortOrders(list: seq<Assembled>)
    ensures InOrder(StableSort(list))
    ensures forall y :: y in StableSort(list) <==> y in list
  {
    if list != [] {
      SortOrders(list[1..]);
      InsertKeepsOrder(list[0], StableSort(list[1..]));
    }
  }

  /** The entries that start before the bound, in the list's order. */
  function Starting(list: seq<Assembled>, bound: nat): seq<Assembled> {
    if list == [] then []
    else (if list[0].Range().start < bound then [list[0]] else []) + Starting(list[1..], bound)
  }

  lemma {:induction false} NothingStarting(list: seq<Assembled>, bound: nat)
    requires forall y :: y in list ==> bound <= y.Range().start
    ensures Starting(list, bound) == []
  {
    if list != [] { NothingStarting(list[1..], bound); }
  }

  lemma {:induction false} StartingInTwo(one: seq<Assembled>, other: seq<Assembled>, bound: nat)
    ensures Starting(one + other, bound) == Starting(one, bound) + Starting(other, bound)
  {
    if one == [] {
      assert one + other == other;
    } else {
      assert (one + other)[1..] == one[1..] + other;
      StartingInTwo(one[1..], other, bound);
    }
  }

  lemma {:induction false} InsertStarting(x: Assembled, sorted: seq<Assembled>, bound: nat)
    requires InOrder(sorted)
    ensures Starting(Insert(x, sorted), bound)
         == if x.Range().start < bound then Insert(x, Starting(sorted, bound)) else Starting(sorted, bound)
  {
    if sorted == [] {
    } else if NotAfter(x, sorted[0]) {
      assert Insert(x, sorted)[1..] == sorted;
      StartingIsNotBefore(x, sorted, bound);
    } else {
      assert Insert(x, sorted)[1..] == Insert(x, sorted[1..]);
      InsertStarting(x, sorted[1..], bound);
    }
  }

  lemma {:induction false} StartingIsNotBefore(x: Assembled, sorted: seq<Assembled>, bound: nat)
    requires forall y :: y in sorted ==> NotAfter(x, y)
    ensures Starting(sorted, bound) != [] ==> NotAfter(x, Starting(sorted, bound)[0])
  {
    if sorted != [] { StartingIsNotBefore(x, sorted[1..], bound); }
  }

  /** Sorting commutes with leaving out what starts late. */
  lemma {:induction false} SortStarting(list: seq<Assembled>, bound: nat)
    ensures Starting(StableSort(list), bound) == StableSort(Starting(list, bound))
  {
    if list != [] {
      SortStarting(list[1..], bound);
      SortOrders(list[1..]);
      InsertStarting(list[0], StableSort(list[1..]), bound);
      if list[0].Range().start < bound {
        assert Starting(list, bound)[1..] == Starting(list[1..], bound);
      } else {
        assert Starting(list, bound) == Starting(list[1..], bound);
      }
    }
  }

  /** In an ordered list, what starts before the bound comes first. */
  lemma {:induction false} StartingComesFirst(list: seq<Assembled>, bound: nat)
    requires InOrder(list)
    ensures Starting(list, bound) <= list
    ensures forall i :: |Starting(list, bound)| <= i < |list| ==> bound <= list[i].Range().start
  {
    if list != [] {
      StartingComesFirst(list[1..], bound);
      if bound <= list[0].Range().start {
        forall i | 0 <= i < |list| ensures bound <= list[i].Range().start {
          assert i == 0 || NotAfter(list[0], list[i]);
        }
        NothingStarting(list, bound);
      }
    }
  }

  // A run and what it becomes

  /** `after` is what the run `before`, settled until `until`, may still become. */
  ghost predicate Becomes(before: Run, after: Run, until: nat) {
    && |before.records| == |after.records|
    && (forall i :: 0 <= i < |before.records| ==> before.records[i].window == after.records[i].window)
    && (forall t: nat :: t < until ==> (UnreadAt(before.records, t) <==> UnreadAt(after.records, t)))
    && before.segments <= after.segments
    && EndBefore(before.segments, until)
    && StartAfter(after.segments[|before.segments|..], until)
  }

  /** The decision about earlier text that ends by the settled time is final. */
  lemma RuleIsFinal(before: Run, after: Run, until: nat, replaced: TimeRange, earlier: TimeRange)
    requires Becomes(before, after, until) && earlier.end <= until
    ensures RuleOf(replaced, before).Carries(earlier) <==> RuleOf(replaced, after).Carries(earlier)
  {
    var n := |before.segments|;
    forall i | n <= i < |after.segments| ensures until <= after.segments[i].segment.range.start {
      assert after.segments[i] in after.segments[n..];
    }
    forall i | 0 <= i < |after.segments| && after.segments[i].segment.range.Overlaps(earlier)
      ensures after.segments[i] in before.segments
    {
      assert after.segments[i] == before.segments[i];
    }
    forall m | m in before.segments ensures m in after.segments {}
    assert UnreadWithin(before.records, earlier) <==> UnreadWithin(after.records, earlier);
  }

  lemma RuleIsFinalBefore(before: Run, after: Run, until: nat, splice: Splice, segment: Segment)
    requires Becomes(before, after, until) && segment in splice.base.segments
    requires segment.range.start < ReachBack(Some(splice), until)
    ensures RuleOf(splice.replaced, before).Carries(segment.range)
       <==> RuleOf(splice.replaced, after).Carries(segment.range)
  {
    if segment.range.end <= until {
      RuleIsFinal(before, after, until, splice.replaced, segment.range);
    } else {
      assert !Crosses(segment, splice.replaced, until);
    }
  }

  lemma {:induction false} CarriedStarting(
    base: Revision, n: nat, one: EarlierTextRule, other: EarlierTextRule, bound: nat)
    requires n <= |base.segments|
    requires forall s :: s in base.segments && s.range.start < bound ==>
      (one.Carries(s.range) <==> other.Carries(s.range))
    requires CarriedSegments(base, n, one, 0).Built? && CarriedSegments(base, n, other, 0).Built?
    ensures Starting(CarriedSegments(base, n, one, 0).value.carried, bound)
         == Starting(CarriedSegments(base, n, other, 0).value.carried, bound)
  {
    if n > 0 {
      CarriedStarting(base, n - 1, one, other, bound);
      var segment := base.segments[n - 1];
      var entry := Carried(segment, FirstSource(base, segment));
      StartingInTwo(CarriedSegments(base, n - 1, one, 0).value.carried, [entry], bound);
      StartingInTwo(CarriedSegments(base, n - 1, other, 0).value.carried, [entry], bound);
      assert segment in base.segments;
    }
  }

  lemma {:induction false} OwnInTwo(one: seq<Merged>, other: seq<Merged>)
    ensures OwnSegments(one + other) == OwnSegments(one) + OwnSegments(other)
  {
  }

  lemma OwnStarting(before: Run, after: Run, until: nat, bound: nat)
    requires Becomes(before, after, until) && bound <= until
    ensures Starting(OwnSegments(before.segments), bound) == Starting(OwnSegments(after.segments), bound)
  {
    var rest := after.segments[|before.segments|..];
    assert after.segments == before.segments + rest;
    OwnInTwo(before.segments, rest);
    StartingInTwo(OwnSegments(before.segments), OwnSegments(rest), bound);
    forall y | y in OwnSegments(rest) ensures bound <= y.Range().start {
      var i :| 0 <= i < |rest| && OwnSegments(rest)[i] == y;
      assert rest[i] in rest;
    }
    NothingStarting(OwnSegments(rest), bound);
  }

  // Open and sealed

  /** The revision a run publishes and the one it seals have the same place. */
  ghost predicate SamePlace(open: Request, sealing: Request) {
    open.id == sealing.id && open.number == sealing.number
      && open.source == sealing.source && open.splice == sealing.splice
  }

  ghost function AssembledOf(request: Request): seq<Assembled>
    requires Assemble(request).Built?
  {
    var covered := CoveredRange(request.run.records).value;
    var carried :=
      if request.splice.None? then []
      else
        var base := request.splice.value.base;
        CarriedSegments(base, |base.segments|, RuleOf(covered, request.run), 0).value.carried;
    StableSort(carried + OwnSegments(request.run.segments))
  }

  lemma AssembledIsTheRevision(request: Request)
    requires Assemble(request).Built?
    ensures Assemble(request).value.segments == IdentifiedFrom(request.id, 0, AssembledOf(request))
    ensures InOrder(AssembledOf(request)) && Ordered(Assemble(request).value.segments)
  {
    var covered := CoveredRange(request.run.records).value;
    var carried :=
      if request.splice.None? then []
      else
        var base := request.splice.value.base;
        CarriedSegments(base, |base.segments|, RuleOf(covered, request.run), 0).value.carried;
    SortOrders(carried + OwnSegments(request.run.segments));
    NamedIsOrdered(request.id, AssembledOf(request));
  }

  lemma NamedIsOrdered(id: RevisionId, list: seq<Assembled>)
    requires InOrder(list)
    ensures Ordered(IdentifiedFrom(id, 0, list))
  {
    var named := IdentifiedFrom(id, 0, list);
    forall i, j | 0 <= i < j < |named| ensures named[i].range.start <= named[j].range.start {
      assert NotAfter(list[i], list[j]);
    }
  }

  lemma AssembledAgree(open: Request, sealing: Request, until: nat)
    requires SamePlace(open, sealing) && Becomes(open.run, sealing.run, until)
    requires Assemble(open).Built? && Assemble(sealing).Built?
    ensures var back := ReachBack(open.splice, until);
      Starting(AssembledOf(open), back) == Starting(AssembledOf(sealing), back)
  {
    var back := ReachBack(open.splice, until);
    var own, ownAfter := OwnSegments(open.run.segments), OwnSegments(sealing.run.segments);
    OwnStarting(open.run, sealing.run, until, back);
    if open.splice.None? {
      SortStarting([] + own, back);
      SortStarting([] + ownAfter, back);
      assert [] + own == own && [] + ownAfter == ownAfter;
    } else {
      var splice := open.splice.value;
      var one, other := RuleOf(splice.replaced, open.run), RuleOf(splice.replaced, sealing.run);
      forall s | s in splice.base.segments && s.range.start < back
        ensures one.Carries(s.range) <==> other.Carries(s.range)
      {
        RuleIsFinalBefore(open.run, sealing.run, until, splice, s);
      }
      CarriedStarting(splice.base, |splice.base.segments|, one, other, back);
      var carried := CarriedSegments(splice.base, |splice.base.segments|, one, 0).value.carried;
      var carriedAfter := CarriedSegments(splice.base, |splice.base.segments|, other, 0).value.carried;
      StartingInTwo(carried, own, back);
      StartingInTwo(carriedAfter, ownAfter, back);
      SortStarting(carried + own, back);
      SortStarting(carriedAfter + ownAfter, back);
    }
  }

  lemma {:induction false} EndingAgrees(one: seq<Segment>, other: seq<Segment>, n: nat, back: nat)
    requires n <= |one| && n <= |other| && one[..n] == other[..n]
    requires forall i :: n <= i < |one| ==> back <= one[i].range.start
    requires forall i :: n <= i < |other| ==> back <= other[i].range.start
    ensures EndingBySegments(one, back) == EndingBySegments(other, back)
  {
    if n > 0 {
      assert one[0] == one[..n][0] && other[0] == other[..n][0];
      assert one[1..][..n - 1] == one[..n][1..] && other[1..][..n - 1] == other[..n][1..];
      EndingAgrees(one[1..], other[1..], n - 1, back);
    }
  }

  function PublishedTime(segments: seq<Segment>, n: nat, back: nat): nat {
    if n >= |segments| || back < segments[n].range.start then back else segments[n].range.start
  }

  lemma NamedRest(id: RevisionId, list: seq<Assembled>, back: nat)
    requires InOrder(list)
    ensures var n, named := |Starting(list, back)|, IdentifiedFrom(id, 0, list);
      n <= |named| && forall i :: n <= i < |named| ==> back <= named[i].range.start
  {
    StartingComesFirst(list, back);
  }

  /** Two named lists that begin alike and differ only from the bound on. */
  lemma NamedAlike(id: RevisionId, one: seq<Assembled>, other: seq<Assembled>, back: nat)
    requires InOrder(one) && InOrder(other) && Starting(one, back) == Starting(other, back)
    ensures var n, whole, sealed := |Starting(one, back)|, IdentifiedFrom(id, 0, one), IdentifiedFrom(id, 0, other);
      && n <= |whole| && n <= |sealed| && whole[..n] == sealed[..n]
      && (forall i :: n <= i < |whole| ==> back <= whole[i].range.start)
      && (forall i :: n <= i < |sealed| ==> back <= sealed[i].range.start)
  {
    NamedRest(id, one, back);
    NamedRest(id, other, back);
    StartingComesFirst(one, back);
    StartingComesFirst(other, back);
    var n := |Starting(one, back)|;
    var whole, sealed := IdentifiedFrom(id, 0, one), IdentifiedFrom(id, 0, other);
    forall i | 0 <= i < n ensures whole[i] == sealed[i] {
      assert one[i] == Starting(one, back)[i] && other[i] == Starting(other, back)[i];
    }
  }

  lemma CommonBeginning(id: RevisionId, one: seq<Assembled>, other: seq<Assembled>, back: nat)
    requires InOrder(one) && InOrder(other) && Starting(one, back) == Starting(other, back)
    ensures EndingBySegments(IdentifiedFrom(id, 0, one), back) == EndingBySegments(IdentifiedFrom(id, 0, other), back)
    ensures var n := |EndingBySegments(IdentifiedFrom(id, 0, one), back)|;
      PublishedTime(IdentifiedFrom(id, 0, one), n, back) == PublishedTime(IdentifiedFrom(id, 0, other), n, back)
  {
    NamedAlike(id, one, other, back);
    var n := |Starting(one, back)|;
    var whole, sealed := IdentifiedFrom(id, 0, one), IdentifiedFrom(id, 0, other);
    EndingAgrees(whole, sealed, n, back);
    PublishedAgrees(whole, sealed, n, |EndingBySegments(whole, back)|, back);
  }

  lemma PublishedAgrees(one: seq<Segment>, other: seq<Segment>, n: nat, m: nat, back: nat)
    requires n <= |one| && n <= |other| && one[..n] == other[..n]
    requires forall i :: n <= i < |one| ==> back <= one[i].range.start
    requires forall i :: n <= i < |other| ==> back <= other[i].range.start
    ensures PublishedTime(one, m, back) == PublishedTime(other, m, back)
  {
    if m < n {
      assert one[m] == one[..n][m] && other[m] == other[..n][m];
    }
  }

  lemma OpenIsCut(request: Request, until: nat)
    requires BuildOpen(request, until).Built?
    ensures Assemble(request).Built?
    ensures var open, whole, back :=
      BuildOpen(request, until).value, Assemble(request).value.segments, ReachBack(request.splice, until);
      && open.segments == EndingBySegments(whole, back)
      && open.publishedUntil == Some(PublishedTime(whole, |open.segments|, back))
  {
  }

  /** The open revision is the sealed one cut at the first segment that ends past the reach. */
  lemma OpenIsSealedCut(open: Request, sealing: Request, until: nat)
    requires SamePlace(open, sealing) && Becomes(open.run, sealing.run, until)
    requires BuildOpen(open, until).Built? && Assemble(sealing).Built?
    ensures var published, sealed, back :=
      BuildOpen(open, until).value, Assemble(sealing).value.segments, ReachBack(open.splice, until);
      && published.segments == EndingBySegments(sealed, back)
      && published.publishedUntil == Some(PublishedTime(sealed, |published.segments|, back))
  {
    OpenIsCut(open, until);
    AssembledIsTheRevision(open);
    AssembledIsTheRevision(sealing);
    AssembledAgree(open, sealing, until);
    CommonBeginning(open.id, AssembledOf(open), AssembledOf(sealing), ReachBack(open.splice, until));
  }

  // A whole run

  function RecordsAfter(chunks: seq<Chunk>, outcomes: seq<Outcome>, k: nat): (records: seq<Record>)
    requires |chunks| == |outcomes|
    ensures |records| == |chunks|
    ensures forall i :: 0 <= i < |chunks| ==>
      records[i] == Record(chunks[i].window, if i < k then outcomes[i] else Pending)
  {
    seq(|chunks|, i requires 0 <= i < |chunks| => Record(chunks[i].window, if i < k then outcomes[i] else Pending))
  }

  /** A run, and the place its revision has. */
  datatype Publication = Publication(
    chunks: seq<Chunk>, outcomes: seq<Outcome>, range: TimeRange, plan: Plan, early: nat,
    recogniser: nat, id: RevisionId, number: nat, source: Source, splice: Option<Splice>)
  {
    /** Its audio began in time, every chunk has its outcome, and a splice replaces its range. */
    ghost predicate Sound() {
      && |outcomes| == |chunks|
      && IsRunOf(chunks, range, plan, early)
      && (forall o :: o in outcomes ==> o != Pending && o != NotReached)
    }

    /** What is published after `k` chunks, whatever language they agree on so far. */
    ghost function RequestAfter(k: nat, language: Option<string>): Request
      requires |outcomes| == |chunks| && k < |chunks|
    {
      Request(id, number, source,
        Run(recogniser, RecordsAfter(chunks, outcomes, k), language, SettledAfter(chunks, k, early).segments), splice)
    }

    ghost function SettledUntil(k: nat): nat
      requires k < |chunks|
    {
      SettledAfter(chunks, k, early).until
    }

    ghost function SealingRequest(language: Option<string>): Request
      requires |outcomes| == |chunks|
    {
      Request(id, number, source,
        Run(recogniser, RecordsAfter(chunks, outcomes, |chunks|), language, MergeChunks(chunks)), splice)
    }
  }

  lemma UnreadIsFinal(
      windows: seq<TimeRange>, range: TimeRange, plan: Plan, before: seq<Record>, after: seq<Record>, k: nat, t: nat)
    requires plan.Valid() && IsPlanOf(windows, range, plan) && k < |windows| && t < windows[k].start
    requires |before| == |after| == |windows|
    requires forall i :: 0 <= i < |windows| ==> before[i].window == after[i].window == windows[i]
    requires forall i :: 0 <= i < k ==> before[i] == after[i]
    requires forall i :: k <= i < |windows| ==> before[i].outcome == Pending
    ensures UnreadAt(before, t) <==> UnreadAt(after, t)
  {
    forall i | k <= i < |windows| ensures !after[i].window.Holds(t) {
      PlanIsOrdered(windows, range, plan, k, i);
    }
  }

  lemma SettledBeforeNext(chunks: seq<Chunk>, k: nat, early: nat)
    requires k < |chunks|
    ensures SettledAfter(chunks, k, early).until <= chunks[k].window.start
  {
  }

  lemma RecordsBecomeFinal(chunks: seq<Chunk>, outcomes: seq<Outcome>, k: nat)
    requires |chunks| == |outcomes| && k < |chunks|
    ensures var before, after := RecordsAfter(chunks, outcomes, k), RecordsAfter(chunks, outcomes, |chunks|);
      && (forall i :: 0 <= i < |chunks| ==> before[i].window == after[i].window == Windows(chunks)[i])
      && (forall i :: 0 <= i < k ==> before[i] == after[i])
      && (forall i :: k <= i < |chunks| ==> before[i].outcome == Pending)
  {
  }

  lemma UnreadBecomesFinal(p: Publication, k: nat, t: nat)
    requires p.Sound() && k < |p.chunks| && t < p.SettledUntil(k)
    ensures UnreadAt(RecordsAfter(p.chunks, p.outcomes, k), t)
       <==> UnreadAt(RecordsAfter(p.chunks, p.outcomes, |p.chunks|), t)
  {
    SettledBeforeNext(p.chunks, k, p.early);
    RecordsBecomeFinal(p.chunks, p.outcomes, k);
    var before := RecordsAfter(p.chunks, p.outcomes, k);
    var after := RecordsAfter(p.chunks, p.outcomes, |p.chunks|);
    UnreadIsFinal(Windows(p.chunks), p.range, p.plan, before, after, k, t);
  }

  lemma AllUnreadBecomesFinal(p: Publication, k: nat)
    requires p.Sound() && k < |p.chunks|
    ensures forall t: nat :: t < p.SettledUntil(k) ==>
      (UnreadAt(RecordsAfter(p.chunks, p.outcomes, k), t)
       <==> UnreadAt(RecordsAfter(p.chunks, p.outcomes, |p.chunks|), t))
  {
    forall t: nat | t < p.SettledUntil(k)
      ensures UnreadAt(RecordsAfter(p.chunks, p.outcomes, k), t)
         <==> UnreadAt(RecordsAfter(p.chunks, p.outcomes, |p.chunks|), t)
    {
      UnreadBecomesFinal(p, k, t);
    }
  }

  lemma RunBecomes(p: Publication, k: nat, language: Option<string>, final: Option<string>)
    requires p.Sound() && k < |p.chunks|
    ensures Becomes(p.RequestAfter(k, language).run, p.SealingRequest(final).run, p.SettledUntil(k))
  {
    SettledIsFinal(p.chunks, k, p.range, p.plan, p.early);
    AllUnreadBecomesFinal(p, k);
    RecordsBecomeFinal(p.chunks, p.outcomes, k);
  }

  lemma OpenBeginsTheSealed(open: Request, sealing: Request, until: nat)
    requires SamePlace(open, sealing) && Becomes(open.run, sealing.run, until)
    requires BuildOpen(open, until).Built? && Assemble(sealing).Built?
    ensures var published, sealed := BuildOpen(open, until).value, Assemble(sealing).value.segments;
      && published.segments <= sealed
      && published.publishedUntil.Some?
      && forall i :: |published.segments| <= i < |sealed| ==> published.publishedUntil.value <= sealed[i].range.start
  {
    OpenIsSealedCut(open, sealing, until);
    AssembledIsTheRevision(sealing);
    RestStartsLater(Assemble(sealing).value.segments, ReachBack(open.splice, until));
  }

  lemma RestStartsLater(segments: seq<Segment>, back: nat)
    requires Ordered(segments)
    ensures var n := |EndingBySegments(segments, back)|;
      forall i :: n <= i < |segments| ==> PublishedTime(segments, n, back) <= segments[i].range.start
  {
  }

  lemma CutsNest(segments: seq<Segment>, back: nat, later: nat)
    requires Ordered(segments) && back <= later
    ensures var n, m := |EndingBySegments(segments, back)|, |EndingBySegments(segments, later)|;
      && EndingBySegments(segments, back) <= EndingBySegments(segments, later)
      && PublishedTime(segments, n, back) <= PublishedTime(segments, m, later)
  {
    EndingGrows(segments, back, later);
  }

  /** Whatever a run publishes is the beginning of what it seals, and nothing it seals later
      starts before the published time. */
  lemma PublishedIsFinal(p: Publication, k: nat, language: Option<string>, final: Option<string>)
    requires p.Sound() && k < |p.chunks|
    requires BuildOpen(p.RequestAfter(k, language), p.SettledUntil(k)).Built?
      && Assemble(p.SealingRequest(final)).Built?
    ensures var open, sealed :=
      BuildOpen(p.RequestAfter(k, language), p.SettledUntil(k)).value, Assemble(p.SealingRequest(final)).value;
      && open.segments <= sealed.segments
      && open.publishedUntil.Some?
      && forall i :: |open.segments| <= i < |sealed.segments| ==>
        open.publishedUntil.value <= sealed.segments[i].range.start
  {
    RunBecomes(p, k, language, final);
    OpenBeginsTheSealed(p.RequestAfter(k, language), p.SealingRequest(final), p.SettledUntil(k));
  }

  /** The reach never moves back as more is settled. */
  lemma ReachBackGrows(splice: Option<Splice>, until: nat, later: nat)
    requires until <= later
    ensures ReachBack(splice, until) <= ReachBack(splice, later)
  {
    if splice.Some? {
      var segments, replaced := splice.value.base.segments, splice.value.replaced;
      var back := EarliestCrossing(segments, replaced, later);
      if back < later {
        var s :| s in segments && Crosses(s, replaced, later) && back == s.range.start;
        assert s.range.start < until ==> Crosses(s, replaced, until);
      }
    }
  }

  lemma {:induction false} EndingGrows(segments: seq<Segment>, back: nat, later: nat)
    requires back <= later
    ensures EndingBySegments(segments, back) <= EndingBySegments(segments, later)
  {
    if segments != [] && segments[0].range.end <= back { EndingGrows(segments[1..], back, later); }
  }

  lemma OpenRevisionsNest(one: Request, other: Request, sealing: Request, until: nat, later: nat)
    requires SamePlace(one, sealing) && SamePlace(other, sealing) && until <= later
    requires Becomes(one.run, sealing.run, until) && Becomes(other.run, sealing.run, later)
    requires BuildOpen(one, until).Built? && BuildOpen(other, later).Built? && Assemble(sealing).Built?
    ensures var open, next := BuildOpen(one, until).value, BuildOpen(other, later).value;
      && open.segments <= next.segments
      && open.publishedUntil.Some? && next.publishedUntil.Some?
      && open.publishedUntil.value <= next.publishedUntil.value
  {
    OpenIsSealedCut(one, sealing, until);
    OpenIsSealedCut(other, sealing, later);
    AssembledIsTheRevision(sealing);
    ReachBackGrows(one.splice, until, later);
    CutsNest(Assemble(sealing).value.segments, ReachBack(one.splice, until), ReachBack(one.splice, later));
  }

  /** Each publication extends the one before it and reaches no less far. */
  lemma PublicationsGrow(
      p: Publication, k: nat, more: nat, one: Option<string>, other: Option<string>, final: Option<string>)
    requires p.Sound() && k <= more < |p.chunks| && Assemble(p.SealingRequest(final)).Built?
    requires BuildOpen(p.RequestAfter(k, one), p.SettledUntil(k)).Built?
    requires BuildOpen(p.RequestAfter(more, other), p.SettledUntil(more)).Built?
    ensures var open, next := BuildOpen(p.RequestAfter(k, one), p.SettledUntil(k)).value,
                              BuildOpen(p.RequestAfter(more, other), p.SettledUntil(more)).value;
      && open.segments <= next.segments
      && open.publishedUntil.Some? && next.publishedUntil.Some?
      && open.publishedUntil.value <= next.publishedUntil.value
  {
    RunBecomes(p, k, one, final);
    RunBecomes(p, more, other, final);
    SettledTimeGrows(p.chunks, k, more, p.range, p.plan, p.early);
    OpenRevisionsNest(p.RequestAfter(k, one), p.RequestAfter(more, other), p.SealingRequest(final),
      p.SettledUntil(k), p.SettledUntil(more));
  }
}
