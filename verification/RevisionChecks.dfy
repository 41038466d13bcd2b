/** The checks of a stored revision, and which of the revisions that a run builds pass them. */
module RevisionChecks {
  import opened Basics
  import opened Spans
  import opened ChunkMerge
  import opened Revisions
  import opened OpenRevisions
  import opened RevisionValidity
  import opened StoppedRevisions

  /** Complete, still growing, or ended early. */
  datatype State = Sealed | Open | Stopped

  function RecordsOf(provenance: Provenance): seq<Record> {
    if provenance.LocalAsr? then provenance.records else []
  }

  ghost predicate HasState(revision: Revision, state: State) {
    var pending := Holds(RecordsOf(revision.provenance), Pending);
    var never := Holds(RecordsOf(revision.provenance), NotReached);
    match state
    case Sealed => !pending && !never && revision.publishedUntil.None?
    case Open => pending && !never && revision.publishedUntil.Some?
    case Stopped => !pending && never && revision.publishedUntil.Some?
  }

  predicate Inside(range: TimeRange, bounds: TimeRange) { bounds.start <= range.start && range.end <= bounds.end }

  predicate PublishedInside(revision: Revision) {
    revision.publishedUntil.Some? ==> revision.publishedUntil.value <= revision.source.range.end
  }

  predicate RunInside(provenance: Provenance, source: Source) {
    provenance.LocalAsr? ==>
      var covered := CoveredRange(provenance.records);
      covered.Some? && Inside(covered.value, source.range)
  }

  /** Only a run supersedes a revision, another one, and only then replaces a range. */
  predicate SupersedesByRule(revision: Revision) {
    && (revision.supersedes.Some? ==> revision.provenance.LocalAsr? && revision.supersedes.value != revision.id)
    && (revision.replaced.Some? ==>
        revision.supersedes.Some? && Inside(revision.replaced.value, revision.source.range))
  }

  /** Only a splice inherits, and only from runs inside the source. */
  predicate InheritsByRule(revision: Revision) {
    revision.inherited != [] ==>
      && revision.supersedes.Some? && revision.provenance.LocalAsr?
      && forall e :: e in revision.inherited ==> RunInside(e.provenance, revision.source)
  }

  // Where a segment lies

  const PROVIDER_END_TOLERANCE: nat := 1_000_000
  const MAX_WINDOW: nat := 30_000_000

  /** How far past the audio a provider end may lie and still be cut to the audio end. */
  function ProviderEndLimit(decoded: nat): nat { Max(decoded + PROVIDER_END_TOLERANCE, MAX_WINDOW) }

  /** The place of what was read in a chunk's audio; none if the reading is not one of that audio. */
  function AsrRange(audio: TimeRange, reading: Reading): Option<TimeRange> {
    var decoded := audio.Length();
    var start, end := reading.providerStart, reading.providerEnd;
    if end <= start || start >= decoded then None
    else if !reading.trimmed && end <= decoded then Some(Span(audio.start + start, audio.start + end))
    else if reading.trimmed && decoded < end <= ProviderEndLimit(decoded)
    then Some(Span(audio.start + start, audio.end))
    else None
  }

  /** The segment lies where its own origin, in what it comes from, puts it. */
  predicate Derives(segment: Segment, provenance: Provenance) {
    match segment.origin
    case Cue(_, start, end) =>
      && provenance.Imported?
      && segment.range.start == start + provenance.offset && segment.range.end == end + provenance.offset
      && (segment.speaker.Some? ==> provenance.labelled)
    case Asr(chunk, reading) =>
      && provenance.LocalAsr? && chunk < |provenance.records| && provenance.records[chunk].outcome.Transcribed?
      && AsrRange(provenance.records[chunk].outcome.audio, reading) == Some(segment.range)
      && segment.speaker.None?
  }

  /** What the segment comes from: the revision itself, or what it inherited. */
  function ProvenanceOf(revision: Revision, segment: Segment): Option<Provenance> {
    match segment.carriedFrom
    case None => Some(revision.provenance)
    case Some(from) =>
      var entry := EntryFrom(revision.inherited, from.revision, 0);
      if entry.None? then None else Some(entry.value.provenance)
  }

  ghost predicate IsPlaced(revision: Revision, segment: Segment) {
    && ProvenanceOf(revision, segment).Some? && Derives(segment, ProvenanceOf(revision, segment).value)
    && Inside(segment.range, revision.source.range)
  }

  ghost predicate AllPlaced(revision: Revision) {
    forall i :: 0 <= i < |revision.segments| ==> IsPlaced(revision, revision.segments[i])
  }

  /** Everything that is checked of a revision before it is used or stored. */
  ghost predicate Validated(revision: Revision, state: State) {
    && Coherent(revision) && HasState(revision, state) && PublishedInside(revision)
    && (revision.segments == [] ==> revision.provenance.LocalAsr?)
    && SupersedesByRule(revision) && InheritsByRule(revision)
    && RunInside(revision.provenance, revision.source) && AllPlaced(revision)
  }

  ghost predicate IsValid(revision: Revision) { exists state :: Validated(revision, state) }

  // Requests

  /** The run read the segment in a chunk that it transcribed. */
  predicate Wrote(run: Run, merged: Merged, source: Source) {
    && merged.chunk < |run.records| && run.records[merged.chunk].outcome.Transcribed?
    && AsrRange(run.records[merged.chunk].outcome.audio, merged.segment.reading) == Some(merged.segment.range)
    && Inside(merged.segment.range, source.range)
  }

  /** A run inside its source, which wrote its segments itself, over a valid revision if over any. */
  ghost predicate ProperRequest(request: Request) {
    && SoundRequest(request)
    && Inside(CoveredRange(request.run.records).value, request.source.range)
    && (forall m :: m in request.run.segments ==> Wrote(request.run, m, request.source))
    && (request.splice.Some? ==> IsValid(request.splice.value.base))
  }

  // What is inherited

  /** What the base knows of a revision, itself among them. */
  function EntryOf(base: Revision, id: RevisionId): Option<Inherited> {
    if id == base.id then Some(Inherited(base.id, base.provenance, base.language)) else EntryFrom(base.inherited, id, 0)
  }

  ghost predicate AreOf(base: Revision, inherited: seq<Inherited>) {
    forall e :: e in inherited ==> EntryOf(base, e.id) == Some(e)
  }

  lemma {:induction false} EntryHasItsId(inherited: seq<Inherited>, id: RevisionId, at: nat)
    requires EntryFrom(inherited, id, at).Some?
    ensures EntryFrom(inherited, id, at).value.id == id && EntryFrom(inherited, id, at).value in inherited
    decreases |inherited| - at
  {
    if inherited[at].id != id { EntryHasItsId(inherited, id, at + 1); }
  }

  lemma {:induction false} CarriedAreOf(base: Revision, n: nat, rule: EarlierTextRule, from: nat)
    requires !Known(base.inherited, base.id) && n <= |base.segments| && CarriedSegments(base, n, rule, from).Built?
    ensures AreOf(base, CarriedSegments(base, n, rule, from).value.inherited)
  {
    if n > 0 {
      CarriedAreOf(base, n - 1, rule, from);
      var segment := base.segments[n - 1];
      if Wanted(rule, from, segment) && segment.carriedFrom.Some? {
        EntryHasItsId(base.inherited, segment.carriedFrom.value.revision, 0);
      }
    }
  }

  lemma {:induction false} UsedAreThere(inherited: seq<Inherited>, segments: seq<Segment>)
    ensures forall e :: e in UsedBy(inherited, segments) ==> e in inherited
  {
    if inherited != [] { UsedAreThere(inherited[1..], segments); }
  }

  lemma {:induction false} EntriesAreThere(inherited: seq<Inherited>, more: seq<Inherited>)
    ensures forall e :: e in WithEntries(inherited, more) ==> e in inherited || e in more
    decreases |more|
  {
    if more != [] { EntriesAreThere(WithEntry(inherited, more[0]), more[1..]); }
  }

  /** What a valid base knows lies in the source. */
  lemma EntryIsInside(base: Revision, e: Inherited)
    requires IsValid(base) && EntryOf(base, e.id) == Some(e)
    ensures RunInside(e.provenance, base.source)
  {
    if e.id != base.id { EntryHasItsId(base.inherited, e.id, 0); }
  }

  // Where the segments of what is built lie

  /** The segment is the run's own, or a copy of one of the base that names its first source. */
  ghost predicate ComesFrom(request: Request, s: Segment) {
    || (exists m :: m in request.run.segments && s == Identified(request.id, s.ordinal, Own(m)))
    || (request.splice.Some? && exists a :: IsCopy(request.splice.value.base, a, request.id, s))
  }

  ghost predicate IsCopy(base: Revision, a: nat, id: RevisionId, s: Segment) {
    a < |base.segments|
    && s == Identified(id, s.ordinal, Carried(base.segments[a], FirstSource(base, base.segments[a])))
  }

  ghost predicate AllFrom(request: Request, segments: seq<Segment>) {
    forall i :: 0 <= i < |segments| ==> ComesFrom(request, segments[i])
  }

  lemma BothFrom(request: Request, one: seq<Segment>, other: seq<Segment>)
    requires AllFrom(request, one) && AllFrom(request, other)
    ensures AllFrom(request, one + other)
  {
  }

  /** What is built of the request: its segments come from where they may, its records are the run's
      but for chunks it never reached. */
  ghost predicate IsOf(request: Request, revision: Revision) {
    && revision.source == request.source && revision.provenance.LocalAsr?
    && |revision.provenance.records| == |request.run.records|
    && (forall i :: 0 <= i < |request.run.records| && request.run.records[i].outcome.Transcribed? ==>
        revision.provenance.records[i] == request.run.records[i])
    && AllFrom(request, revision.segments)
    && (request.splice.Some? ==> AreOf(request.splice.value.base, revision.inherited))
  }

  lemma CopyIsPlaced(base: Revision, a: nat, revision: Revision, s: Segment)
    requires IsValid(base) && IsCopy(base, a, revision.id, s) && revision.source == base.source
    requires AreOf(base, revision.inherited) && Known(revision.inherited, s.carriedFrom.value.revision)
    ensures IsPlaced(revision, s)
  {
    var segment, id := base.segments[a], s.carriedFrom.value.revision;
    assert IsPlaced(base, segment);
    var i :| 0 <= i < |revision.inherited| && revision.inherited[i].id == id;
    EntryIsKnown(revision.inherited, id, 0, i);
    EntryHasItsId(revision.inherited, id, 0);
    var entry := EntryFrom(revision.inherited, id, 0).value;
    assert EntryOf(base, id) == Some(entry);
    assert segment.carriedFrom.Some? ==> Known(base.inherited, id) && id != base.id;
    assert ProvenanceOf(base, segment) == Some(entry.provenance);
  }

  lemma OwnIsPlaced(request: Request, m: Merged, revision: Revision, s: Segment)
    requires ProperRequest(request) && IsOf(request, revision)
    requires m in request.run.segments && s == Identified(request.id, s.ordinal, Own(m))
    ensures IsPlaced(revision, s)
  {
    assert Wrote(request.run, m, request.source);
  }

  lemma WhatIsBuiltIsPlaced(request: Request, revision: Revision)
    requires ProperRequest(request) && IsOf(request, revision) && revision.id == request.id && CarriesByRule(revision)
    ensures AllPlaced(revision)
  {
    forall i | 0 <= i < |revision.segments| ensures IsPlaced(revision, revision.segments[i]) {
      var s := revision.segments[i];
      assert ComesFrom(request, s);
      if s.carriedFrom.None? {
        var m :| m in request.run.segments && s == Identified(request.id, s.ordinal, Own(m));
        OwnIsPlaced(request, m, revision, s);
      } else {
        var a :| IsCopy(request.splice.value.base, a, request.id, s);
        CopyIsPlaced(request.splice.value.base, a, revision, s);
      }
    }
  }

  lemma WhatIsBuiltInherits(request: Request, revision: Revision)
    requires ProperRequest(request) && IsOf(request, revision)
    requires if request.splice.None? then revision.inherited == [] else revision.supersedes.Some?
    ensures InheritsByRule(revision)
  {
    if request.splice.Some? {
      forall e | e in revision.inherited ensures RunInside(e.provenance, revision.source) {
        EntryIsInside(request.splice.value.base, e);
      }
    }
  }

  // Sealed and open revisions

  /** An entry that is the run's own or a copy of one of the base comes from there once it is named. */
  lemma NamedComesFrom(request: Request, y: Assembled, n: nat, s: Segment)
    requires s == Identified(request.id, n, y)
    requires y.Own? ==> y.merged in request.run.segments
    requires y.Carried? ==>
      && request.splice.Some? && y.segment in request.splice.value.base.segments
      && y.from == FirstSource(request.splice.value.base, y.segment)
    ensures ComesFrom(request, s)
  {
    if y.Own? {
      assert y == Own(y.merged);
    } else {
      var base := request.splice.value.base;
      var a :| 0 <= a < |base.segments| && base.segments[a] == y.segment;
      assert IsCopy(base, a, request.id, s);
    }
  }

  lemma AssembledComesFrom(request: Request, i: nat)
    requires ProperRequest(request) && Assemble(request).Built? && i < |Assemble(request).value.segments|
    ensures ComesFrom(request, Assemble(request).value.segments[i])
  {
    NamedFrom(request, i);
    AssembledIsSound(request);
    var y := AssembledOf(request)[i];
    if y.Own? {
      var j :| 0 <= j < |request.run.segments| && OwnSegments(request.run.segments)[j] == y;
      assert request.run.segments[j] == y.merged;
    } else {
      var j :| 0 <= j < |CarryingOf(request).carried| && CarryingOf(request).carried[j] == y;
    }
    NamedComesFrom(request, y, i + 1, Assemble(request).value.segments[i]);
  }

  lemma AssembledAreOf(request: Request)
    requires ProperRequest(request) && request.splice.Some?
    ensures Assemble(request).Built?
    ensures AreOf(request.splice.value.base, Assemble(request).value.inherited)
  {
    SoundRequestIsBuilt(request);
    var base := request.splice.value.base;
    CarriedAreOf(base, |base.segments|, RuleOf(request.splice.value.replaced, request.run), 0);
  }

  lemma AssembledIsOf(request: Request)
    requires ProperRequest(request)
    ensures Assemble(request).Built? && IsOf(request, Assemble(request).value)
  {
    SoundRequestIsBuilt(request);
    forall i | 0 <= i < |Assemble(request).value.segments|
      ensures ComesFrom(request, Assemble(request).value.segments[i])
    {
      AssembledComesFrom(request, i);
    }
    if request.splice.Some? { AssembledAreOf(request); }
  }

  /** A run's revision passes every check of a sealed one exactly when the run is finished: no chunk
      of it is still to come, and none was never reached. */
  lemma SealedIsValid(request: Request)
    requires ProperRequest(request)
    ensures Assemble(request).Built?
    ensures Validated(Assemble(request).value, Sealed)
      <==> !Holds(request.run.records, Pending) && !Holds(request.run.records, NotReached)
  {
    AssembledIsOf(request);
    if !Holds(request.run.records, Pending) && !Holds(request.run.records, NotReached) {
      SealedIsCoherent(request);
      WhatIsBuiltIsPlaced(request, Assemble(request).value);
      WhatIsBuiltInherits(request, Assemble(request).value);
    }
  }

  lemma OpenIsOf(request: Request, until: nat)
    requires ProperRequest(request)
    ensures BuildOpen(request, until).Built? && IsOf(request, BuildOpen(request, until).value)
  {
    AssembledIsOf(request);
    OpenIsCut(request, until);
    var whole, open := Assemble(request).value, BuildOpen(request, until).value;
    UsedAreThere(whole.inherited, open.segments);
  }

  /** What a run publishes passes every check of an open revision exactly when it has chunks still to
      come, and is published no further than its source goes: as it is whenever no more is settled
      than the source holds. */
  lemma OpenIsValid(request: Request, until: nat)
    requires ProperRequest(request)
    ensures BuildOpen(request, until).Built?
    ensures var open := BuildOpen(request, until).value;
      && (Validated(open, Open) <==>
          && Holds(request.run.records, Pending) && !Holds(request.run.records, NotReached)
          && PublishedInside(open))
      && (until <= request.source.range.end ==> PublishedInside(open))
  {
    OpenIsOf(request, until);
    OpenIsCut(request, until);
    var open := BuildOpen(request, until).value;
    if !Holds(request.run.records, NotReached) {
      OpenIsCoherent(request, until);
      WhatIsBuiltIsPlaced(request, open);
      assert request.splice.None? ==> open.inherited == [];
      WhatIsBuiltInherits(request, open);
    }
  }

  // Stopped revisions

  lemma CopiesAreFrom(request: Request, rule: EarlierTextRule, from: nat, carried: seq<Assembled>, before: nat)
    requires request.splice.Some? && CarriesFrom(request.splice.value.base, rule, from, carried)
    ensures AllFrom(request, IdentifiedFrom(request.id, before, carried))
  {
    var segments := IdentifiedFrom(request.id, before, carried);
    forall j | 0 <= j < |segments| ensures ComesFrom(request, segments[j]) {
      NamedComesFrom(request, carried[j], before + j + 1, segments[j]);
    }
  }

  lemma AddedAreFrom(request: Request, until: nat)
    requires ProperRequest(request) && IsPublishing(request)
    ensures AllFrom(request, AddedSegments(request, until))
  {
    AddedIsSound(request, until);
    OpenHas(request, until);
    var open := OpenOf(request, until);
    CopiesAreFrom(request, RuleWhenStopped(request, until), open.publishedUntil.value, AddedBy(request, until).carried,
      |open.segments|);
  }

  lemma StoppedAreOf(request: Request, until: nat)
    requires ProperRequest(request) && IsPublishing(request)
    ensures AreOf(request.splice.value.base, StoppedOf(request, until).inherited)
  {
    OpenIsOf(request, until);
    OpenHas(request, until);
    AddedIsSound(request, until);
    var base, open := request.splice.value.base, OpenOf(request, until);
    StoppedIsBuilt(request, until);
    CarriedAreOf(base, |base.segments|, RuleWhenStopped(request, until), open.publishedUntil.value);
    EntriesAreThere(open.inherited, AddedBy(request, until).inherited);
  }

  lemma StoppedIsOf(request: Request, until: nat)
    requires ProperRequest(request) && IsPublishing(request)
    ensures IsOf(request, StoppedOf(request, until))
  {
    OpenIsOf(request, until);
    OpenHas(request, until);
    StoppedAreOf(request, until);
    AddedAreFrom(request, until);
    BothFrom(request, OpenOf(request, until).segments, AddedSegments(request, until));
  }

  lemma NothingPends(records: seq<Record>)
    ensures !Holds(NeverReached(records), Pending)
    ensures CoveredRange(NeverReached(records)) == CoveredRange(records)
  {
    forall r | r in NeverReached(records) ensures r.outcome != Pending {
      var i :| 0 <= i < |records| && NeverReached(records)[i] == r;
    }
  }

  lemma StoppedHasItsState(request: Request, until: nat)
    requires IsPublishing(request)
    ensures HasState(StoppedOf(request, until), Stopped)
    ensures CoveredRange(StoppedOf(request, until).provenance.records) == CoveredRange(request.run.records)
    ensures PublishedInside(StoppedOf(request, until)) <==> PublishedInside(OpenOf(request, until))
  {
    OpenHas(request, until);
    NothingPends(request.run.records);
    StoppedNeverReached(request);
  }

  /** The checks beyond its coherence, its state and its published time. */
  lemma StoppedPassesTheRest(request: Request, until: nat)
    requires ProperRequest(request) && IsPublishing(request)
    ensures var stopped := StoppedOf(request, until);
      && stopped.provenance.LocalAsr? && SupersedesByRule(stopped) && InheritsByRule(stopped)
      && RunInside(stopped.provenance, stopped.source) && (CarriesByRule(stopped) ==> AllPlaced(stopped))
  {
    StoppedIsOf(request, until);
    OpenHas(request, until);
    StoppedHasItsState(request, until);
    var stopped := StoppedOf(request, until);
    assert stopped.supersedes == Some(request.splice.value.base.id);
    WhatIsBuiltInherits(request, stopped);
    if CarriesByRule(stopped) { WhatIsBuiltIsPlaced(request, stopped); }
  }

  /** What a run that stops seals begins with all it published, and passes every check exactly when
      the open revision it had published does and carries no segment that starts at its published
      time. */
  lemma StoppedIsValid(request: Request, until: nat)
    requires ProperRequest(request) && IsPublishing(request)
    ensures var open := OpenOf(request, until);
      var stopped := BuildStopped(open, Some(request.splice.value.base));
      && open.publishedUntil.Some? && stopped.Built? && open.segments <= stopped.value.segments
      && (Validated(stopped.value, Stopped) <==> Validated(open, Open) && CarriesBeforeItsEnd(open))
  {
    OpenHas(request, until);
    OpenIsValid(request, until);
    StoppedIsCoherent(request, until);
    StoppedIsBuilt(request, until);
    StoppedHasItsState(request, until);
    StoppedPassesTheRest(request, until);
  }
}
