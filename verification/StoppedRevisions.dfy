/** What a run seals when it stops: everything it published, then the earlier text after it. The
    stopped revision passes its checks unless a carried segment that was published starts exactly at
    the published time: that segment is then carried a second time. */
module StoppedRevisions {
  import opened Basics
  import opened Spans
  import opened ChunkMerge
  import opened Revisions
  import opened OpenRevisions
  import opened RevisionValidity

  /** A run with chunks still to come, over a revision it supersedes. */
  ghost predicate IsPublishing(request: Request) {
    && SoundRequest(request) && request.splice.Some?
    && Holds(request.run.records, Pending) && !Holds(request.run.records, NotReached)
  }

  ghost function OpenOf(request: Request, until: nat): Revision
    requires IsPublishing(request)
  {
    var r := BuildOpen(request, until);
    SoundRequestIsBuilt(request);
    r.value
  }

  ghost function RuleWhenStopped(request: Request, until: nat): EarlierTextRule
    requires IsPublishing(request)
  {
    SoundRequestIsBuilt(request);
    StoppedRule(OpenOf(request, until), request.splice.value.replaced, NeverReached(request.run.records),
      OpenOf(request, until).publishedUntil.value)
  }

  ghost function AddedBy(request: Request, until: nat): Carrying
    requires IsPublishing(request)
  {
    SoundRequestIsBuilt(request);
    var base := request.splice.value.base;
    var rule, from := RuleWhenStopped(request, until), OpenOf(request, until).publishedUntil.value;
    CarryingIsSound(base, |base.segments|, rule, from);
    CarriedSegments(base, |base.segments|, rule, from).value
  }

  /** What stopping adds to what was published. */
  ghost function AddedSegments(request: Request, until: nat): seq<Segment>
    requires IsPublishing(request)
  {
    var open := OpenOf(request, until);
    IdentifiedFrom(open.id, |open.segments|, AddedBy(request, until).carried)
  }

  ghost function StoppedOf(request: Request, until: nat): Revision
    requires IsPublishing(request)
  {
    var open := OpenOf(request, until);
    open.(
      provenance := LocalAsr(request.run.recogniser, NeverReached(request.run.records)),
      segments := open.segments + AddedSegments(request, until),
      inherited := WithEntries(open.inherited, AddedBy(request, until).inherited))
  }

  lemma OpenHas(request: Request, until: nat)
    requires IsPublishing(request)
    ensures BuildOpen(request, until) == Built(OpenOf(request, until))
    ensures var open := OpenOf(request, until);
      && open.provenance == LocalAsr(request.run.recogniser, request.run.records)
      && open.supersedes == Some(request.splice.value.base.id)
      && open.replaced == Some(request.splice.value.replaced)
      && open.publishedUntil.Some? && open.id == request.id
  {
    SoundRequestIsBuilt(request);
  }

  lemma StoppedIsBuilt(request: Request, until: nat)
    requires IsPublishing(request)
    ensures BuildStopped(OpenOf(request, until), Some(request.splice.value.base)) == Built(StoppedOf(request, until))
  {
    OpenHas(request, until);
    var base := request.splice.value.base;
    CarryingIsSound(base, |base.segments|, RuleWhenStopped(request, until),
      OpenOf(request, until).publishedUntil.value);
  }

  lemma AddedIsSound(request: Request, until: nat)
    requires IsPublishing(request)
    ensures var base, added, open := request.splice.value.base, AddedBy(request, until), OpenOf(request, until);
      && open.publishedUntil.Some?
      && CarriesFirst(base, |base.segments|, RuleWhenStopped(request, until), open.publishedUntil.value, added.carried)
      && RecordsSources(base, added)
  {
    SoundRequestIsBuilt(request);
    var base := request.splice.value.base;
    CarryingIsSound(base, |base.segments|, RuleWhenStopped(request, until),
      OpenOf(request, until).publishedUntil.value);
  }

  /** The segments of the stopped revision: the published ones, then the added ones. */
  lemma StoppedSegment(request: Request, until: nat, i: nat)
    requires IsPublishing(request) && i < |StoppedOf(request, until).segments|
    ensures var open, added, s :=
      OpenOf(request, until), AddedBy(request, until).carried, StoppedOf(request, until).segments[i];
      if i < |open.segments| then s == open.segments[i]
      else
        && i - |open.segments| < |added| && added[i - |open.segments|].Carried?
        && s.range == added[i - |open.segments|].segment.range
        && s.carriedFrom == Some(added[i - |open.segments|].from)
        && s.ordinal == i + 1 && s.id == SegmentId(open.id, i + 1)
  {
    AddedIsSound(request, until);
  }

  lemma AddedSegment(request: Request, until: nat, j: nat)
    requires IsPublishing(request) && j < |AddedBy(request, until).carried|
    ensures var n := |OpenOf(request, until).segments|;
      && n + j < |StoppedOf(request, until).segments|
      && StoppedOf(request, until).segments[n + j]
        == Identified(OpenOf(request, until).id, n + j + 1, AddedBy(request, until).carried[j])
  {
  }

  // The rule only widens

  lemma UnreadStaysUnread(records: seq<Record>, t: nat)
    requires UnreadAt(records, t)
    ensures UnreadAt(NeverReached(records), t)
  {
    var i :| 0 <= i < |records| && records[i].outcome.LeftUnread() && records[i].window.Holds(t);
    assert NeverReached(records)[i].outcome.LeftUnread() && NeverReached(records)[i].window.Holds(t);
    forall j | 0 <= j < |records| && NeverReached(records)[j].outcome.WasRead()
      ensures !NeverReached(records)[j].window.Holds(t)
    {
      assert records[j].outcome.WasRead();
    }
  }

  lemma PublishedMayStay(request: Request, until: nat, i: nat)
    requires IsPublishing(request)
    requires i < |OpenOf(request, until).segments| && OpenOf(request, until).segments[i].carriedFrom.Some?
    ensures RuleWhenStopped(request, until).Carries(OpenOf(request, until).segments[i].range)
  {
    OpenHas(request, until);
    OpenIsCut(request, until);
    SoundRequestIsBuilt(request);
    var open := OpenOf(request, until);
    CarriedByRule(request, open.segments, i);
    UnreadRangeStays(request.run.records, open.segments[i].range);
  }

  lemma UnreadRangeStays(records: seq<Record>, range: TimeRange)
    ensures UnreadWithin(records, range) ==> UnreadWithin(NeverReached(records), range)
  {
    if UnreadWithin(records, range) {
      var t :| range.start <= t < range.end && UnreadAt(records, t);
      UnreadStaysUnread(records, t);
    }
  }

  /** A published carried segment is a copy of a segment of the base. */
  lemma PublishedIsFromTheBase(request: Request, until: nat, i: nat) returns (at: nat)
    requires IsPublishing(request)
    requires i < |OpenOf(request, until).segments| && OpenOf(request, until).segments[i].carriedFrom.Some?
    ensures var base, s := request.splice.value.base, OpenOf(request, until).segments[i];
      at < |base.segments| && base.segments[at].range == s.range
      && s.carriedFrom == Some(FirstSource(base, base.segments[at]))
  {
    SoundRequestIsBuilt(request);
    OpenIsCut(request, until);
    NamedFrom(request, i);
    AssembledIsSound(request);
    var y, base := AssembledOf(request)[i], request.splice.value.base;
    var j :| 0 <= j < |CarryingOf(request).carried| && CarryingOf(request).carried[j] == y;
    at :| 0 <= at < |base.segments| && base.segments[at] == y.segment;
  }

  // The checks

  lemma StoppedPair(request: Request, until: nat, i: nat, j: nat)
    requires IsPublishing(request) && i < j < |StoppedOf(request, until).segments|
    ensures StoppedOf(request, until).segments[i].range.start <= StoppedOf(request, until).segments[j].range.start
  {
    OpenIsCoherent(request, until);
    AddedIsSound(request, until);
    StoppedSegment(request, until, i);
    StoppedSegment(request, until, j);
  }

  lemma StoppedIsOrdered(request: Request, until: nat)
    requires IsPublishing(request)
    ensures Numbered(StoppedOf(request, until).id, StoppedOf(request, until).segments)
    ensures Ordered(StoppedOf(request, until).segments)
  {
    OpenIsCoherent(request, until);
    var segments := StoppedOf(request, until).segments;
    forall i | 0 <= i < |segments|
      ensures segments[i].ordinal == i + 1 && segments[i].id == SegmentId(request.id, i + 1) {
      StoppedSegment(request, until, i);
    }
    forall i, j | 0 <= i < j < |segments| ensures segments[i].range.start <= segments[j].range.start {
      StoppedPair(request, until, i, j);
    }
  }

  lemma AddedAreNotOwn(request: Request, until: nat)
    requires IsPublishing(request)
    ensures OwnRanges(StoppedOf(request, until).segments) == OwnRanges(OpenOf(request, until).segments)
  {
    var open, segments := OpenOf(request, until).segments, StoppedOf(request, until).segments;
    forall s | s in segments && s.carriedFrom.None? ensures s in open {
      var i :| 0 <= i < |segments| && segments[i] == s;
      StoppedSegment(request, until, i);
    }
    assert forall s :: s in open ==> s in segments;
  }

  lemma StoppedNeverReached(request: Request)
    requires IsPublishing(request)
    ensures Holds(NeverReached(request.run.records), NotReached)
  {
    var r :| r in request.run.records && r.outcome == Pending;
    var i :| 0 <= i < |request.run.records| && request.run.records[i] == r;
    assert NeverReached(request.run.records)[i].outcome == NotReached;
    assert NeverReached(request.run.records)[i] in NeverReached(request.run.records);
  }

  lemma StoppedMayCarry(request: Request, until: nat, i: nat)
    requires IsPublishing(request)
    requires i < |StoppedOf(request, until).segments| && StoppedOf(request, until).segments[i].carriedFrom.Some?
    ensures MayCarry(StoppedOf(request, until), StoppedOf(request, until).segments[i])
  {
    StoppedNeverReached(request);
    AddedAreNotOwn(request, until);
    StoppedSegment(request, until, i);
    AddedIsSound(request, until);
    SoundRequestIsBuilt(request);
    if i < |OpenOf(request, until).segments| {
      PublishedMayStay(request, until, i);
    }
    var r :| r in NeverReached(request.run.records) && r.outcome == NotReached;
    assert r in StoppedOf(request, until).provenance.records;
  }

  lemma {:induction false} WithEntriesKnows(inherited: seq<Inherited>, more: seq<Inherited>, id: RevisionId)
    requires DistinctEntries(inherited)
    ensures DistinctEntries(WithEntries(inherited, more))
    ensures Known(WithEntries(inherited, more), id) <==> Known(inherited, id) || Known(more, id)
    decreases |more|
  {
    if more != [] {
      WithEntryKeeps(inherited, more[0]);
      WithEntriesKnows(WithEntry(inherited, more[0]), more[1..], id);
      assert more == [more[0]] + more[1..];
      KnownInTwo([more[0]], more[1..], id);
      KnownInTwo(inherited, [more[0]], id);
      assert Known([more[0]], id) <==> [more[0]][0].id == id;
    }
  }

  lemma StoppedKnows(request: Request, until: nat, id: RevisionId)
    requires IsPublishing(request)
    ensures DistinctEntries(StoppedOf(request, until).inherited)
    ensures Known(StoppedOf(request, until).inherited, id) <==>
      Known(OpenOf(request, until).inherited, id) || Known(AddedBy(request, until).inherited, id)
  {
    OpenIsCoherent(request, until);
    WithEntriesKnows(OpenOf(request, until).inherited, AddedBy(request, until).inherited, id);
  }

  lemma PublishedUses(request: Request, until: nat, id: RevisionId)
    requires IsPublishing(request) && Known(OpenOf(request, until).inherited, id)
    ensures Uses(StoppedOf(request, until).segments, id) && id != request.id
  {
    OpenIsCoherent(request, until);
    var open, segments := OpenOf(request, until), StoppedOf(request, until).segments;
    var n :| 0 <= n < |open.inherited| && open.inherited[n].id == id;
    assert Uses(open.segments, open.inherited[n].id);
    var i :| 0 <= i < |open.segments| && open.segments[i].carriedFrom.Some?
      && open.segments[i].carriedFrom.value.revision == open.inherited[n].id;
    assert segments[i] == open.segments[i];
  }

  lemma AddedHasSource(request: Request, until: nat, id: RevisionId) returns (j: nat)
    requires IsPublishing(request) && Known(AddedBy(request, until).inherited, id)
    ensures id != request.id
    ensures var carried := AddedBy(request, until).carried;
      j < |carried| && carried[j].Carried? && carried[j].from.revision == id
  {
    AddedIsSound(request, until);
    var added := AddedBy(request, until);
    var n :| 0 <= n < |added.inherited| && added.inherited[n].id == id;
    assert HasSource(added.carried, added.inherited[n].id);
    j :| 0 <= j < |added.carried| && added.carried[j].Carried?
      && added.carried[j].from.revision == added.inherited[n].id;
  }

  lemma AddedUses(request: Request, until: nat, id: RevisionId)
    requires IsPublishing(request) && Known(AddedBy(request, until).inherited, id)
    ensures Uses(StoppedOf(request, until).segments, id) && id != request.id
  {
    var open, added := OpenOf(request, until), AddedBy(request, until);
    var j := AddedHasSource(request, until, id);
    AddedSegment(request, until, j);
    assert StoppedOf(request, until).segments[|open.segments| + j].carriedFrom == Some(added.carried[j].from);
  }

  lemma StoppedUses(request: Request, until: nat, id: RevisionId)
    requires IsPublishing(request) && Known(StoppedOf(request, until).inherited, id)
    ensures Uses(StoppedOf(request, until).segments, id) && id != request.id
  {
    StoppedKnows(request, until, id);
    if Known(OpenOf(request, until).inherited, id) {
      PublishedUses(request, until, id);
    } else {
      AddedUses(request, until, id);
    }
  }

  lemma StoppedSourceIsKnown(request: Request, until: nat, i: nat)
    requires IsPublishing(request)
    requires i < |StoppedOf(request, until).segments| && StoppedOf(request, until).segments[i].carriedFrom.Some?
    ensures var from := StoppedOf(request, until).segments[i].carriedFrom.value;
      Known(StoppedOf(request, until).inherited, from.revision) && from.segment.revision == from.revision
  {
    StoppedSegment(request, until, i);
    StoppedKnows(request, until, StoppedOf(request, until).segments[i].carriedFrom.value.revision);
    if i < |OpenOf(request, until).segments| {
      OpenIsCoherent(request, until);
    } else {
      AddedSourceIsNamed(request, until, i - |OpenOf(request, until).segments|);
      AddedIsSound(request, until);
    }
  }

  lemma StoppedCarriesByRule(request: Request, until: nat)
    requires IsPublishing(request)
    ensures CarriesByRule(StoppedOf(request, until))
  {
    var stopped := StoppedOf(request, until);
    forall i | 0 <= i < |stopped.segments| && stopped.segments[i].carriedFrom.Some?
      ensures MayCarry(stopped, stopped.segments[i])
        && Known(stopped.inherited, stopped.segments[i].carriedFrom.value.revision)
        && stopped.segments[i].carriedFrom.value.segment.revision == stopped.segments[i].carriedFrom.value.revision
    {
      StoppedMayCarry(request, until, i);
      StoppedSourceIsKnown(request, until, i);
    }
  }

  lemma StoppedInheritsWhatItUses(request: Request, until: nat)
    requires IsPublishing(request)
    ensures InheritsWhatItUses(StoppedOf(request, until))
  {
    var stopped := StoppedOf(request, until);
    StoppedKnows(request, until, request.id);
    forall i | 0 <= i < |stopped.inherited|
      ensures Uses(stopped.segments, stopped.inherited[i].id) && stopped.inherited[i].id != request.id {
      assert Known(stopped.inherited, stopped.inherited[i].id);
      StoppedUses(request, until, stopped.inherited[i].id);
    }
    OpenHas(request, until);
  }

  lemma AddedSourceIsNamed(request: Request, until: nat, j: nat)
    requires IsPublishing(request) && j < |AddedBy(request, until).carried|
    ensures AddedBy(request, until).carried[j].Carried?
    ensures AddedBy(request, until).carried[j].from.segment.revision == AddedBy(request, until).carried[j].from.revision
  {
    AddedIsSound(request, until);
    var base := request.splice.value.base;
    var at :| 0 <= at < |base.segments| && base.segments[at] == AddedBy(request, until).carried[j].segment;
    SourceIsOnRecord(base, at);
  }

  lemma StoppedKeepsItsTime(request: Request, until: nat)
    requires IsPublishing(request)
    ensures KeepsItsTime(StoppedOf(request, until))
  {
    var stopped := StoppedOf(request, until);
    OpenIsCoherent(request, until);
    StoppedNeverReached(request);
    var r :| r in NeverReached(request.run.records) && r.outcome == NotReached;
    assert r in stopped.provenance.records;
    forall i | 0 <= i < |stopped.segments| && stopped.segments[i].carriedFrom.None?
      ensures stopped.segments[i].range.start <= stopped.publishedUntil.value
    {
      StoppedSegment(request, until, i);
    }
  }

  // Carried once

  /** No carried segment that was published starts at the published time. */
  ghost predicate CarriesBeforeItsEnd(open: Revision)
    requires open.publishedUntil.Some?
  {
    forall i :: 0 <= i < |open.segments| && open.segments[i].carriedFrom.Some? ==>
      open.segments[i].range.start < open.publishedUntil.value
  }

  lemma AddedDiffers(request: Request, until: nat, i: nat, j: nat)
    requires IsPublishing(request) && OpenOf(request, until).publishedUntil.Some?
    requires CarriesBeforeItsEnd(OpenOf(request, until))
    requires i < |OpenOf(request, until).segments| && OpenOf(request, until).segments[i].carriedFrom.Some?
    requires j < |AddedBy(request, until).carried|
    ensures AddedBy(request, until).carried[j].Carried?
    ensures OpenOf(request, until).segments[i].carriedFrom.value.segment
      != AddedBy(request, until).carried[j].from.segment
  {
    AddedIsSound(request, until);
    var base := request.splice.value.base;
    var a := PublishedIsFromTheBase(request, until, i);
    var b :| 0 <= b < |base.segments| && base.segments[b] == AddedBy(request, until).carried[j].segment;
    SourcesDiffer(base, if a < b then a else b, if a < b then b else a);
  }

  lemma AddedSourcesOnce(request: Request, until: nat)
    requires IsPublishing(request)
    ensures SourcesOnce(AddedBy(request, until).carried)
  {
    AddedIsSound(request, until);
    CarriedSourcesOnce(request.splice.value.base, RuleWhenStopped(request, until),
      OpenOf(request, until).publishedUntil.value, AddedBy(request, until).carried);
  }

  lemma AddedCarryOnce(request: Request, until: nat)
    requires IsPublishing(request)
    ensures CarriedOnce(AddedSegments(request, until))
  {
    AddedIsSound(request, until);
    AddedSourcesOnce(request, until);
  }

  lemma BothCarryOnce(one: seq<Segment>, other: seq<Segment>)
    requires CarriedOnce(one) && CarriedOnce(other)
    requires forall i, j ::
      0 <= i < |one| && 0 <= j < |other| && one[i].carriedFrom.Some? && other[j].carriedFrom.Some? ==>
      one[i].carriedFrom.value.segment != other[j].carriedFrom.value.segment
    ensures CarriedOnce(one + other)
  {
  }

  lemma CarriedOnceIfBefore(request: Request, until: nat)
    requires IsPublishing(request) && OpenOf(request, until).publishedUntil.Some?
    requires CarriesBeforeItsEnd(OpenOf(request, until))
    ensures CarriedOnce(StoppedOf(request, until).segments)
  {
    var published, added := OpenOf(request, until).segments, AddedSegments(request, until);
    OpenIsCoherent(request, until);
    AddedCarryOnce(request, until);
    forall i, j | 0 <= i < |published| && 0 <= j < |added|
        && published[i].carriedFrom.Some? && added[j].carriedFrom.Some?
      ensures published[i].carriedFrom.value.segment != added[j].carriedFrom.value.segment
    {
      AddedDiffers(request, until, i, j);
    }
    BothCarryOnce(published, added);
  }

  lemma CarriedTwice(request: Request, until: nat, i: nat)
    requires IsPublishing(request)
    requires i < |OpenOf(request, until).segments| && OpenOf(request, until).segments[i].carriedFrom.Some?
    requires OpenOf(request, until).publishedUntil.Some?
    requires OpenOf(request, until).publishedUntil.value <= OpenOf(request, until).segments[i].range.start
    ensures !CarriedOnce(StoppedOf(request, until).segments)
  {
    var open, added, segments :=
      OpenOf(request, until).segments, AddedBy(request, until).carried, StoppedOf(request, until).segments;
    AddedIsSound(request, until);
    var base := request.splice.value.base;
    var at := PublishedIsFromTheBase(request, until, i);
    PublishedMayStay(request, until, i);
    assert Wanted(RuleWhenStopped(request, until), OpenOf(request, until).publishedUntil.value, base.segments[at]);
    var j :| 0 <= j < |added| && added[j] == Carried(base.segments[at], FirstSource(base, base.segments[at]));
    StoppedSegment(request, until, |open| + j);
    assert segments[i] == open[i];
  }

  /** A stopped run keeps all it published; its revision is accepted exactly when no carried
      segment it published starts at the published time. */
  lemma StoppedIsCoherent(request: Request, until: nat)
    requires IsPublishing(request)
    ensures var open := OpenOf(request, until);
      var stopped := BuildStopped(open, Some(request.splice.value.base));
      && open.publishedUntil.Some? && stopped.Built?
      && open.segments <= stopped.value.segments
      && (Coherent(stopped.value) <==> CarriesBeforeItsEnd(open))
  {
    StoppedIsBuilt(request, until);
    AddedIsSound(request, until);
    StoppedIsOrdered(request, until);
    StoppedCarriesByRule(request, until);
    StoppedInheritsWhatItUses(request, until);
    StoppedKeepsItsTime(request, until);
    var open := OpenOf(request, until);
    if CarriesBeforeItsEnd(open) {
      CarriedOnceIfBefore(request, until);
    } else {
      var i :| 0 <= i < |open.segments| && open.segments[i].carriedFrom.Some?
        && !(open.segments[i].range.start < open.publishedUntil.value);
      CarriedTwice(request, until, i);
    }
  }

  /** Text outside the replaced range that starts at or after the published time is added. */
  lemma AddedAfter(request: Request, until: nat, at: nat) returns (j: nat)
    requires IsPublishing(request) && at < |request.splice.value.base.segments|
    requires !request.splice.value.replaced.Overlaps(request.splice.value.base.segments[at].range)
    requires OpenOf(request, until).publishedUntil.Some?
    requires OpenOf(request, until).publishedUntil.value <= request.splice.value.base.segments[at].range.start
    ensures var base, added := request.splice.value.base, AddedBy(request, until).carried;
      j < |added| && added[j] == Carried(base.segments[at], FirstSource(base, base.segments[at]))
  {
    AddedIsSound(request, until);
    var base, added := request.splice.value.base, AddedBy(request, until).carried;
    assert Wanted(RuleWhenStopped(request, until), OpenOf(request, until).publishedUntil.value, base.segments[at]);
    j :| 0 <= j < |added| && added[j] == Carried(base.segments[at], FirstSource(base, base.segments[at]));
  }

  /** The segment is a copy of another, from that first source. */
  predicate IsCarriedCopy(s: Segment, segment: Segment, from: CarriedFrom) {
    && s.range == segment.range && s.text == segment.text && s.speaker == segment.speaker && s.origin == segment.origin
    && s.carriedFrom == Some(from)
  }

  lemma AddedCopy(request: Request, until: nat, at: nat) returns (i: nat)
    requires IsPublishing(request) && at < |request.splice.value.base.segments|
    requires !request.splice.value.replaced.Overlaps(request.splice.value.base.segments[at].range)
    requires OpenOf(request, until).publishedUntil.Some?
    requires OpenOf(request, until).publishedUntil.value <= request.splice.value.base.segments[at].range.start
    ensures var base, stopped := request.splice.value.base, StoppedOf(request, until);
      i < |stopped.segments|
      && IsCarriedCopy(stopped.segments[i], base.segments[at], FirstSource(base, base.segments[at]))
  {
    var j := AddedAfter(request, until, at);
    AddedSegment(request, until, j);
    i := |OpenOf(request, until).segments| + j;
  }

  /** No text of the superseded revision outside the replaced range is lost by stopping. */
  lemma StoppingKeepsTheRest(request: Request, until: nat, at: nat) returns (i: nat)
    requires IsPublishing(request) && at < |request.splice.value.base.segments|
    requires !request.splice.value.replaced.Overlaps(request.splice.value.base.segments[at].range)
    ensures var base, stopped := request.splice.value.base, StoppedOf(request, until);
      i < |stopped.segments|
      && IsCarriedCopy(stopped.segments[i], base.segments[at], FirstSource(base, base.segments[at]))
  {
    var base, open := request.splice.value.base, OpenOf(request, until);
    OpenHas(request, until);
    if open.publishedUntil.value <= base.segments[at].range.start {
      i := AddedCopy(request, until, at);
    } else {
      i := PublishedBefore(request, until, at);
    }
  }

  lemma CarriesTheRest(request: Request, at: nat)
    requires SoundRequest(request) && request.splice.Some? && at < |request.splice.value.base.segments|
    requires !request.splice.value.replaced.Overlaps(request.splice.value.base.segments[at].range)
    ensures var base := request.splice.value.base;
      Carried(base.segments[at], FirstSource(base, base.segments[at])) in CarryingOf(request).carried
  {
    var base, rule := request.splice.value.base, RuleOf(request.splice.value.replaced, request.run);
    CarryingIsSound(base, |base.segments|, rule, 0);
    assert Wanted(rule, 0, base.segments[at]);
  }

  lemma AssembledHolds(request: Request, at: nat) returns (i: nat)
    requires SoundRequest(request) && request.splice.Some? && at < |request.splice.value.base.segments|
    requires !request.splice.value.replaced.Overlaps(request.splice.value.base.segments[at].range)
    ensures Assemble(request).Built?
    ensures var base := request.splice.value.base;
      i < |AssembledOf(request)|
        && AssembledOf(request)[i] == Carried(base.segments[at], FirstSource(base, base.segments[at]))
  {
    var base := request.splice.value.base;
    AssembledIsSound(request);
    CarriesTheRest(request, at);
    var entry := Carried(base.segments[at], FirstSource(base, base.segments[at]));
    i :| 0 <= i < |AssembledOf(request)| && AssembledOf(request)[i] == entry;
  }

  /** Text outside the replaced range that starts before the published time is published. */
  lemma PublishedBefore(request: Request, until: nat, at: nat) returns (i: nat)
    requires IsPublishing(request) && at < |request.splice.value.base.segments|
    requires !request.splice.value.replaced.Overlaps(request.splice.value.base.segments[at].range)
    requires OpenOf(request, until).publishedUntil.Some?
    requires request.splice.value.base.segments[at].range.start < OpenOf(request, until).publishedUntil.value
    ensures var base, open := request.splice.value.base, OpenOf(request, until);
      i < |open.segments|
      && IsCarriedCopy(open.segments[i], base.segments[at], FirstSource(base, base.segments[at]))
  {
    SoundRequestIsBuilt(request);
    i := AssembledHolds(request, at);
    AssembledIsTheRevision(request);
    NamedFrom(request, i);
    OpenHas(request, until);
    OpenIsCut(request, until);
    RestStartsLater(Assemble(request).value.segments, ReachBack(request.splice, until));
  }
}
