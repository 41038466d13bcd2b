/** Provenance over whole histories: every carried segment still is the one its first revision
    made, whatever was spliced over it since. */
module RevisionHistory {
  import opened Basics
  import opened Spans
  import opened ChunkMerge
  import opened Revisions
  import opened OpenRevisions
  import opened RevisionValidity
  import opened StoppedRevisions
  import opened RevisionChecks

  predicate SameText(one: Segment, other: Segment) {
    one.range == other.range && one.text == other.text && one.speaker == other.speaker && one.origin == other.origin
  }

  /** The one segment a carried segment names: made by an earlier revision itself. */
  ghost predicate IsFirstMade(history: seq<Revision>, from: CarriedFrom, segment: Segment) {
    exists r, i ::
      && 0 <= r < |history| && 0 <= i < |history[r].segments|
      && history[r].id == from.revision && history[r].segments[i].id == from.segment
      && history[r].segments[i].carriedFrom.None?
      && SameText(history[r].segments[i], segment)
  }

  ghost predicate IsOnRecord(history: seq<Revision>, entry: Inherited) {
    exists r ::
      && 0 <= r < |history| && history[r].id == entry.id
      && history[r].provenance == entry.provenance && history[r].language == entry.language
  }

  ghost predicate Traced(history: seq<Revision>, revision: Revision) {
    && (forall i :: 0 <= i < |revision.segments| && revision.segments[i].carriedFrom.Some? ==>
        IsFirstMade(history, revision.segments[i].carriedFrom.value, revision.segments[i]))
    && (forall i :: 0 <= i < |revision.inherited| ==> IsOnRecord(history, revision.inherited[i]))
  }

  /** Distinct coherent revisions, each traced to those before it. */
  ghost predicate IsRecord(history: seq<Revision>) {
    && (forall i, j :: 0 <= i < j < |history| ==> history[i].id != history[j].id)
    && (forall i :: 0 <= i < |history| ==> Coherent(history[i]) && Traced(history[..i], history[i]))
  }

  /** A record of revisions that passed every check. */
  ghost predicate IsHistory(history: seq<Revision>) {
    IsRecord(history) && forall i :: 0 <= i < |history| ==> IsValid(history[i])
  }

  lemma TracedLater(before: seq<Revision>, history: seq<Revision>, revision: Revision)
    requires before <= history && Traced(before, revision)
    ensures Traced(history, revision)
  {
    forall i | 0 <= i < |revision.segments| && revision.segments[i].carriedFrom.Some?
      ensures IsFirstMade(history, revision.segments[i].carriedFrom.value, revision.segments[i])
    {
      var r, j :| && 0 <= r < |before| && 0 <= j < |before[r].segments|
        && before[r].id == revision.segments[i].carriedFrom.value.revision
        && before[r].segments[j].id == revision.segments[i].carriedFrom.value.segment
        && before[r].segments[j].carriedFrom.None?
        && SameText(before[r].segments[j], revision.segments[i]);
      assert history[r] == before[r];
    }
    forall i | 0 <= i < |revision.inherited| ensures IsOnRecord(history, revision.inherited[i]) {
      assert IsOnRecord(before, revision.inherited[i]);
      var r :| 0 <= r < |before| && before[r].id == revision.inherited[i].id
        && before[r].provenance == revision.inherited[i].provenance
        && before[r].language == revision.inherited[i].language;
      assert history[r] == before[r];
    }
  }

  lemma RecordGrows(history: seq<Revision>, revision: Revision)
    requires IsRecord(history) && Coherent(revision) && Traced(history, revision)
    requires forall r :: r in history ==> r.id != revision.id
    ensures IsRecord(history + [revision])
  {
    var more := history + [revision];
    forall i | 0 <= i < |more| ensures Coherent(more[i]) && Traced(more[..i], more[i]) {
      if i < |history| {
        assert more[..i] == history[..i];
      } else {
        assert more[..i] == history;
      }
    }
    forall i, j | 0 <= i < j < |more| ensures more[i].id != more[j].id {
      assert more[i] == history[i];
    }
  }

  /** The first source of a segment of a recorded revision. */
  lemma FirstSourceIsFirstMade(history: seq<Revision>, r: nat, i: nat)
    requires IsRecord(history) && r < |history| && i < |history[r].segments|
    ensures IsFirstMade(history, FirstSource(history[r], history[r].segments[i]), history[r].segments[i])
  {
    if history[r].segments[i].carriedFrom.Some? {
      TracedLater(history[..r], history, history[r]);
    }
  }

  lemma {:induction false} EntryIsIn(inherited: seq<Inherited>, id: RevisionId, at: nat)
    requires EntryFrom(inherited, id, at).Some?
    ensures EntryFrom(inherited, id, at).value in inherited
    decreases |inherited| - at
  {
    if inherited[at].id != id { EntryIsIn(inherited, id, at + 1); }
  }

  lemma SourceEntryIsOnRecord(history: seq<Revision>, r: nat, i: nat)
    requires IsRecord(history) && r < |history| && i < |history[r].segments|
    ensures SourceEntry(history[r], history[r].segments[i]).Some?
    ensures IsOnRecord(history, SourceEntry(history[r], history[r].segments[i]).value)
  {
    SourceIsOnRecord(history[r], i);
    if history[r].segments[i].carriedFrom.Some? {
      TracedLater(history[..r], history, history[r]);
      EntryIsIn(history[r].inherited, history[r].segments[i].carriedFrom.value.revision, 0);
    }
  }

  /** What the segments come from is on record. */
  ghost predicate SourcesOnRecord(history: seq<Revision>, base: Revision) {
    forall i :: 0 <= i < |base.segments| ==>
      SourceEntry(base, base.segments[i]).Some? && IsOnRecord(history, SourceEntry(base, base.segments[i]).value)
  }

  ghost predicate AllOnRecord(history: seq<Revision>, inherited: seq<Inherited>) {
    forall e :: e in inherited ==> IsOnRecord(history, e)
  }

  lemma {:induction false} CarriedIsOnRecord(
    history: seq<Revision>, base: Revision, n: nat, rule: EarlierTextRule, from: nat)
    requires SourcesOnRecord(history, base) && n <= |base.segments|
    ensures CarriedSegments(base, n, rule, from).Built?
    ensures AllOnRecord(history, CarriedSegments(base, n, rule, from).value.inherited)
  {
    if n > 0 {
      CarriedIsOnRecord(history, base, n - 1, rule, from);
      assert SourceEntry(base, base.segments[n - 1]).Some?;
    }
  }

  lemma InheritedIsOnRecord(history: seq<Revision>, r: nat, n: nat, rule: EarlierTextRule, from: nat)
    requires IsRecord(history) && r < |history| && n <= |history[r].segments|
    ensures CarriedSegments(history[r], n, rule, from).Built?
    ensures AllOnRecord(history, CarriedSegments(history[r], n, rule, from).value.inherited)
  {
    forall i | 0 <= i < |history[r].segments|
      ensures SourceEntry(history[r], history[r].segments[i]).Some?
      ensures IsOnRecord(history, SourceEntry(history[r], history[r].segments[i]).value)
    {
      SourceEntryIsOnRecord(history, r, i);
    }
    CarriedIsOnRecord(history, history[r], n, rule, from);
  }

  lemma CarriedIsFirstMade(
      history: seq<Revision>, r: nat, rule: EarlierTextRule, from: nat, carried: seq<Assembled>, j: nat)
    requires IsRecord(history) && r < |history| && j < |carried| && CarriesFrom(history[r], rule, from, carried)
    ensures IsFirstMade(history, carried[j].from, carried[j].segment)
  {
    assert carried[j].segment in history[r].segments;
    var at :| 0 <= at < |history[r].segments| && history[r].segments[at] == carried[j].segment;
    FirstSourceIsFirstMade(history, r, at);
  }

  ghost predicate Extends(history: seq<Revision>, request: Request) {
    && SoundRequest(request)
    && (request.splice.Some? ==> request.splice.value.base in history)
    && (forall r :: r in history ==> r.id != request.id)
  }

  lemma AssembledIsTraced(history: seq<Revision>, request: Request)
    requires IsRecord(history) && Extends(history, request)
    ensures Assemble(request).Built? && Traced(history, Assemble(request).value)
  {
    SoundRequestIsBuilt(request);
    var revision := Assemble(request).value;
    forall i | 0 <= i < |revision.segments| && revision.segments[i].carriedFrom.Some?
      ensures IsFirstMade(history, revision.segments[i].carriedFrom.value, revision.segments[i])
    {
      SegmentIsFirstMade(history, request, i);
    }
    AssembledInheritsFromRecord(history, request);
  }

  lemma AssembledInheritsFromRecord(history: seq<Revision>, request: Request)
    requires IsRecord(history) && Extends(history, request)
    ensures Assemble(request).Built? && AllOnRecord(history, Assemble(request).value.inherited)
  {
    SoundRequestIsBuilt(request);
    if request.splice.Some? {
      var base := request.splice.value.base;
      var r :| 0 <= r < |history| && history[r] == base;
      InheritedIsOnRecord(history, r, |base.segments|, RuleOf(request.splice.value.replaced, request.run), 0);
    }
  }

  lemma SegmentIsFirstMade(history: seq<Revision>, request: Request, i: nat)
    requires IsRecord(history) && Extends(history, request) && Assemble(request).Built?
    requires i < |Assemble(request).value.segments| && Assemble(request).value.segments[i].carriedFrom.Some?
    ensures IsFirstMade(
      history, Assemble(request).value.segments[i].carriedFrom.value, Assemble(request).value.segments[i])
  {
    SoundRequestIsBuilt(request);
    AssembledIsSound(request);
    NamedFrom(request, i);
    var y := AssembledOf(request)[i];
    var base := request.splice.value.base;
    var r :| 0 <= r < |history| && history[r] == base;
    var carried := CarryingOf(request).carried;
    var j :| 0 <= j < |carried| && carried[j] == y;
    CarriedIsFirstMade(history, r, RuleOf(request.splice.value.replaced, request.run), 0, carried, j);
    SameTextStays(history, y.from, y.segment, Assemble(request).value.segments[i]);
  }

  lemma SameTextStays(history: seq<Revision>, from: CarriedFrom, one: Segment, other: Segment)
    requires IsFirstMade(history, from, one) && SameText(one, other)
    ensures IsFirstMade(history, from, other)
  {
    var r, i :| && 0 <= r < |history| && 0 <= i < |history[r].segments|
      && history[r].id == from.revision && history[r].segments[i].id == from.segment
      && history[r].segments[i].carriedFrom.None?
      && SameText(history[r].segments[i], one);
    assert SameText(history[r].segments[i], other);
  }

  lemma HistoryGrows(history: seq<Revision>, revision: Revision)
    requires IsHistory(history) && Coherent(revision) && Traced(history, revision)
    requires forall r :: r in history ==> r.id != revision.id
    ensures IsHistory(history + [revision]) <==> IsValid(revision)
  {
    RecordGrows(history, revision);
    var more := history + [revision];
    assert more[|history|] == revision;
    assert forall i :: 0 <= i < |history| ==> more[i] == history[i];
  }

  lemma LastIsValid(history: seq<Revision>, revision: Revision)
    requires IsHistory(history + [revision])
    ensures IsValid(revision)
  {
    assert (history + [revision])[|history|] == revision;
  }

  /** Sealing a run extends a history exactly when the run is finished: then whatever is carried keeps
      its range, text, speaker, origin and first source, and that source's provenance is on record
      once. */
  lemma SealingExtendsHistory(history: seq<Revision>, request: Request)
    requires IsHistory(history) && Extends(history, request) && ProperRequest(request)
    ensures Assemble(request).Built?
    ensures IsHistory(history + [Assemble(request).value])
      <==> !Holds(request.run.records, Pending) && !Holds(request.run.records, NotReached)
  {
    SealedIsValid(request);
    AssembledIsTraced(history, request);
    var sealed := Assemble(request).value;
    assert IsValid(sealed) <==> Validated(sealed, Sealed);
    if IsValid(sealed) {
      HistoryGrows(history, sealed);
    } else if IsHistory(history + [sealed]) {
      LastIsValid(history, sealed);
    }
  }

  ghost predicate AllFirstMade(history: seq<Revision>, segments: seq<Segment>) {
    forall i :: 0 <= i < |segments| && segments[i].carriedFrom.Some? ==>
      IsFirstMade(history, segments[i].carriedFrom.value, segments[i])
  }

  lemma BothFirstMade(history: seq<Revision>, one: seq<Segment>, other: seq<Segment>)
    requires AllFirstMade(history, one) && AllFirstMade(history, other)
    ensures AllFirstMade(history, one + other)
  {
  }

  lemma StoppedIsTraced(history: seq<Revision>, request: Request, until: nat)
    requires IsRecord(history) && Extends(history, request) && IsPublishing(request)
    ensures Traced(history, StoppedOf(request, until))
  {
    PublishedAreFirstMade(history, request, until);
    AddedAreFirstMade(history, request, until);
    BothFirstMade(history, OpenOf(request, until).segments, AddedSegments(request, until));
    forall e | e in StoppedOf(request, until).inherited ensures IsOnRecord(history, e) {
      StoppedEntryIsOnRecord(history, request, until, e);
    }
  }

  lemma PublishedAreFirstMade(history: seq<Revision>, request: Request, until: nat)
    requires IsRecord(history) && Extends(history, request) && IsPublishing(request)
    ensures AllFirstMade(history, OpenOf(request, until).segments)
  {
    OpenHas(request, until);
    OpenIsCut(request, until);
    AssembledIsTraced(history, request);
  }

  lemma AddedAreFirstMade(history: seq<Revision>, request: Request, until: nat)
    requires IsRecord(history) && Extends(history, request) && IsPublishing(request)
    ensures AllFirstMade(history, AddedSegments(request, until))
  {
    var open, added := OpenOf(request, until), AddedBy(request, until).carried;
    var r :| 0 <= r < |history| && history[r] == request.splice.value.base;
    AddedIsSound(request, until);
    CopiesAreFirstMade(history, r, RuleWhenStopped(request, until), open.publishedUntil.value, added, open.id,
      |open.segments|);
  }

  lemma CopiesAreFirstMade(
      history: seq<Revision>, r: nat, rule: EarlierTextRule, from: nat, carried: seq<Assembled>, id: RevisionId,
      before: nat)
    requires IsRecord(history) && r < |history| && CarriesFrom(history[r], rule, from, carried)
    ensures AllFirstMade(history, IdentifiedFrom(id, before, carried))
  {
    var segments := IdentifiedFrom(id, before, carried);
    forall j | 0 <= j < |segments| && segments[j].carriedFrom.Some?
      ensures IsFirstMade(history, segments[j].carriedFrom.value, segments[j])
    {
      CarriedIsFirstMade(history, r, rule, from, carried, j);
      SameTextStays(history, carried[j].from, carried[j].segment, segments[j]);
    }
  }

  lemma StoppedEntryIsOnRecord(history: seq<Revision>, request: Request, until: nat, e: Inherited)
    requires IsRecord(history) && Extends(history, request) && IsPublishing(request)
    requires e in StoppedOf(request, until).inherited
    ensures IsOnRecord(history, e)
  {
    var open, added := OpenOf(request, until), AddedBy(request, until);
    EntriesAreThere(open.inherited, added.inherited);
    if e in open.inherited {
      SoundRequestIsBuilt(request);
      UsedAreThere(Assemble(request).value.inherited, open.segments);
      AssembledIsTraced(history, request);
    } else {
      OpenHas(request, until);
      var r :| 0 <= r < |history| && history[r] == request.splice.value.base;
      InheritedIsOnRecord(history, r, |history[r].segments|,
        RuleWhenStopped(request, until), open.publishedUntil.value);
    }
  }

  /** Stopping one does so exactly when the open revision passes its checks and carries no segment
      that starts at its published time. */
  lemma StoppingExtendsHistory(history: seq<Revision>, request: Request, until: nat)
    requires IsHistory(history) && Extends(history, request) && ProperRequest(request) && IsPublishing(request)
    ensures OpenOf(request, until).publishedUntil.Some?
    ensures var open := OpenOf(request, until);
      var stopped := BuildStopped(open, Some(request.splice.value.base));
      && stopped.Built?
      && (IsHistory(history + [stopped.value]) <==> Validated(open, Open) && CarriesBeforeItsEnd(open))
  {
    StoppedIsValid(request, until);
    StoppedIsBuilt(request, until);
    StoppedIsTraced(history, request, until);
    StoppedHasItsState(request, until);
    OpenHas(request, until);
    var stopped := StoppedOf(request, until);
    assert IsValid(stopped) <==> Validated(stopped, Stopped);
    if IsValid(stopped) {
      HistoryGrows(history, stopped);
    } else if IsHistory(history + [stopped]) {
      LastIsValid(history, stopped);
    }
  }

  // Nothing outside the replaced ranges is lost

  /** How a revision follows the one it supersedes: a run sealed it, or stopped. */
  datatype Link = Sealing(request: Request) | Stopping(request: Request, until: nat)

  ghost predicate IsLink(base: Revision, link: Link, next: Revision) {
    var request := link.request;
    && SoundRequest(request) && request.splice.Some? && request.splice.value.base == base
    && match link
       case Sealing(_) => Assemble(request) == Built(next)
       case Stopping(_, until) =>
         IsPublishing(request) && BuildStopped(OpenOf(request, until), Some(base)) == Built(next)
  }

  /** Each revision of the chain is sealed or stopped over the one before it. */
  ghost predicate IsChain(chain: seq<Revision>, links: seq<Link>) {
    |chain| == |links| + 1 && forall i :: 0 <= i < |links| ==> IsLink(chain[i], links[i], chain[i + 1])
  }

  ghost predicate OutsideEveryRange(links: seq<Link>, range: TimeRange) {
    forall i :: 0 <= i < |links| ==>
      links[i].request.splice.Some? && !links[i].request.splice.value.replaced.Overlaps(range)
  }

  /** The segment is a copy of one of the base. */
  predicate Copies(next: Revision, i: nat, base: Revision, at: nat)
    requires at < |base.segments|
  {
    && i < |next.segments| && SameText(next.segments[i], base.segments[at])
    && FirstSource(next, next.segments[i]) == FirstSource(base, base.segments[at])
  }

  lemma SurvivesOneSplice(request: Request, at: nat) returns (i: nat)
    requires SoundRequest(request) && request.splice.Some? && at < |request.splice.value.base.segments|
    requires !request.splice.value.replaced.Overlaps(request.splice.value.base.segments[at].range)
    ensures Assemble(request).Built? && Copies(Assemble(request).value, i, request.splice.value.base, at)
  {
    i := AssembledHolds(request, at);
    AssembledIsTheRevision(request);
    NamedFrom(request, i);
  }

  lemma SurvivesOneStop(request: Request, until: nat, at: nat) returns (i: nat)
    requires IsPublishing(request) && at < |request.splice.value.base.segments|
    requires !request.splice.value.replaced.Overlaps(request.splice.value.base.segments[at].range)
    ensures Copies(StoppedOf(request, until), i, request.splice.value.base, at)
  {
    i := StoppingKeepsTheRest(request, until, at);
  }

  lemma SurvivesOneLink(base: Revision, link: Link, next: Revision, at: nat) returns (i: nat)
    requires IsLink(base, link, next) && at < |base.segments|
    requires !link.request.splice.value.replaced.Overlaps(base.segments[at].range)
    ensures Copies(next, i, base, at)
  {
    match link
    case Sealing(request) => i := SurvivesOneSplice(request, at);
    case Stopping(request, until) =>
      i := SurvivesOneStop(request, until, at);
      StoppedIsBuilt(request, until);
  }

  lemma {:induction false} SurvivesFrom(chain: seq<Revision>, links: seq<Link>, k: nat, at: nat) returns (i: nat)
    requires IsChain(chain, links) && k < |chain| && at < |chain[k].segments|
    requires OutsideEveryRange(links, chain[k].segments[at].range)
    ensures Copies(chain[|chain| - 1], i, chain[k], at)
    decreases |chain| - k
  {
    if k == |links| {
      i := at;
    } else {
      var next := SurvivesOneLink(chain[k], links[k], chain[k + 1], at);
      i := SurvivesFrom(chain, links, k + 1, next);
    }
  }

  /** However runs over one another were sealed or stopped, a segment that none of them replaced is in
      the last revision, from the same first source. */
  lemma SurvivesTheChain(chain: seq<Revision>, links: seq<Link>, at: nat) returns (i: nat)
    requires IsChain(chain, links) && at < |chain[0].segments|
    requires OutsideEveryRange(links, chain[0].segments[at].range)
    ensures Copies(chain[|chain| - 1], i, chain[0], at)
  {
    i := SurvivesFrom(chain, links, 0, at);
  }
}
