/** Transcript revisions: what a run's text and the text it supersedes become together. A revision
    is assembled from the run's own segments and the segments carried from the revision it
    supersedes, sorted, numbered and named; an open revision is the beginning of one that is still
    being made, a stopped revision the end of one that never will be. */
module Revisions {
  import opened Basics
  import opened Spans
  import opened ChunkMerge

  // The run

  datatype Outcome = Transcribed(audio: TimeRange) | Silent | NoAudio | Unusable | Pending | NotReached {
    /** Meant to be read, and not read. */
    predicate LeftUnread() { this == Unusable || this == NotReached }

    predicate WasRead() { Transcribed? || this == Silent || this == NoAudio }
  }

  datatype Record = Record(window: TimeRange, outcome: Outcome)

  /** A run so far: its chunks in plan order and the segments it has written. */
  datatype Run = Run(recogniser: nat, records: seq<Record>, language: Option<string>, segments: seq<Merged>)

  /** The instant lies in a window left unread and in none that was read. */
  predicate UnreadAt(records: seq<Record>, t: nat) {
    && (exists i :: 0 <= i < |records| && records[i].outcome.LeftUnread() && records[i].window.Holds(t))
    && !(exists i :: 0 <= i < |records| && records[i].outcome.WasRead() && records[i].window.Holds(t))
  }

  predicate UnreadWithin(records: seq<Record>, range: TimeRange) {
    exists t :: range.start <= t < range.end && UnreadAt(records, t)
  }

  /** Which text of the superseded revision a run keeps. */
  datatype EarlierTextRule = EarlierTextRule(
    replaced: TimeRange, records: seq<Record>, written: set<TimeRange>, unreadFrom: Option<nat>)
  {
    /** Text outside the replaced range, and text inside it that reaches into a part left unread
        (or, of a stopped run, starts after it stopped) and that nothing written overlaps. */
    predicate Carries(earlier: TimeRange) {
      || !replaced.Overlaps(earlier)
      || (&& replaced.start <= earlier.start && earlier.end <= replaced.end
          && (UnreadWithin(records, earlier) || (unreadFrom.Some? && unreadFrom.value <= earlier.start))
          && !(exists w :: w in written && w.Overlaps(earlier)))
    }
  }

  // Revisions

  type RevisionId = nat

  /** Identities are derived from the revision and the ordinal. */
  datatype SegmentId = SegmentId(revision: RevisionId, ordinal: nat)

  /** What is needed to derive a segment's place again: a cue's written time, or the chunk that was
      read and what was read in it. */
  datatype Origin = Cue(line: nat, start: nat, end: nat) | Asr(chunk: nat, reading: Reading)
  datatype CarriedFrom = CarriedFrom(revision: RevisionId, segment: SegmentId)
  datatype Segment = Segment(
    id: SegmentId, ordinal: nat, range: TimeRange, text: Text, speaker: Option<string>, origin: Origin,
    carriedFrom: Option<CarriedFrom>)

  /** A supplied file, shifted by an offset, its format with or without speaker labels; or a run. */
  datatype Provenance =
    | Imported(file: nat, labelled: bool, offset: int)
    | LocalAsr(recogniser: nat, records: seq<Record>)
  datatype Inherited = Inherited(id: RevisionId, provenance: Provenance, language: Option<string>)

  datatype Source = Source(id: nat, range: TimeRange)

  datatype Revision = Revision(
    id: RevisionId, number: nat, source: Source, provenance: Provenance, supersedes: Option<RevisionId>,
    replaced: Option<TimeRange>, inherited: seq<Inherited>, language: Option<string>, segments: seq<Segment>,
    publishedUntil: Option<nat>)

  datatype Splice = Splice(base: Revision, replaced: TimeRange)
  datatype Request = Request(id: RevisionId, number: nat, source: Source, run: Run, splice: Option<Splice>)

  datatype Refusal = InvalidAsrRun | InvalidSupersession | InvalidCarriedSegment | InvalidGrowth
  datatype Result<T> = Built(value: T) | Refused(reason: Refusal)

  // Carrying

  datatype Assembled = Own(merged: Merged) | Carried(segment: Segment, from: CarriedFrom) {
    function Range(): TimeRange { match this case Own(m) => m.segment.range case Carried(s, _) => s.range }
  }

  function EntryFrom(inherited: seq<Inherited>, id: RevisionId, at: nat): Option<Inherited>
    decreases |inherited| - at
  {
    if at >= |inherited| then None
    else if inherited[at].id == id then Some(inherited[at])
    else EntryFrom(inherited, id, at + 1)
  }

  /** The revision and segment that first produced the text: never an intermediate copy. */
  function FirstSource(base: Revision, segment: Segment): CarriedFrom {
    match segment.carriedFrom
    case Some(from) => from
    case None => CarriedFrom(base.id, segment.id)
  }

  /** What is recorded of that revision; nothing if the superseded one does not know it. */
  function SourceEntry(base: Revision, segment: Segment): Option<Inherited> {
    match segment.carriedFrom
    case Some(from) => EntryFrom(base.inherited, from.revision, 0)
    case None => Some(Inherited(base.id, base.provenance, base.language))
  }

  predicate Known(inherited: seq<Inherited>, id: RevisionId) {
    exists i :: 0 <= i < |inherited| && inherited[i].id == id
  }

  function WithEntry(inherited: seq<Inherited>, entry: Inherited): seq<Inherited> {
    if Known(inherited, entry.id) then inherited else inherited + [entry]
  }

  predicate Wanted(rule: EarlierTextRule, from: nat, segment: Segment) {
    rule.Carries(segment.range) && from <= segment.range.start
  }

  datatype Carrying = Carrying(carried: seq<Assembled>, inherited: seq<Inherited>)

  /** The first `n` segments of the superseded revision that the rule keeps and that start at or
      after `from`, and the revisions they come from in order of first use. */
  function CarriedSegments(base: Revision, n: nat, rule: EarlierTextRule, from: nat): Result<Carrying>
    requires n <= |base.segments|
  {
    if n == 0 then Built(Carrying([], []))
    else
      var before := CarriedSegments(base, n - 1, rule, from);
      var segment := base.segments[n - 1];
      if before.Refused? || !Wanted(rule, from, segment) then before
      else
        match SourceEntry(base, segment)
        case None => Refused(InvalidCarriedSegment)
        case Some(entry) =>
          Built(Carrying(before.value.carried + [Carried(segment, FirstSource(base, segment))],
                         WithEntry(before.value.inherited, entry)))
  }

  // Order

  /** By start, then end, carried text first. */
  predicate NotAfter(a: Assembled, b: Assembled) {
    || a.Range().start < b.Range().start
    || (a.Range().start == b.Range().start
        && (|| a.Range().end < b.Range().end
            || (a.Range().end == b.Range().end && (a.Carried? || b.Own?))))
  }

  function Insert(x: Assembled, sorted: seq<Assembled>): (r: seq<Assembled>)
    ensures |r| == |sorted| + 1
  {
    if sorted == [] || NotAfter(x, sorted[0]) then [x] + sorted
    else [sorted[0]] + Insert(x, sorted[1..])
  }

  /** The stable sort: ties keep their order. */
  function StableSort(list: seq<Assembled>): (r: seq<Assembled>)
    ensures |r| == |list|
  {
    if list == [] then [] else Insert(list[0], StableSort(list[1..]))
  }

  function OwnSegments(merged: seq<Merged>): (own: seq<Assembled>)
    ensures |own| == |merged|
    ensures forall i :: 0 <= i < |merged| ==> own[i] == Own(merged[i])
  {
    if merged == [] then [] else [Own(merged[0])] + OwnSegments(merged[1..])
  }

  // Names

  function Identified(revision: RevisionId, ordinal: nat, entry: Assembled): Segment {
    var id := SegmentId(revision, ordinal);
    match entry
    case Own(m) =>
      Segment(id, ordinal, m.segment.range, m.segment.text, None, Asr(m.chunk, m.segment.reading), None)
    case Carried(s, from) => s.(id := id, ordinal := ordinal, carriedFrom := Some(from))
  }

  /** Numbers and names the entries that follow `before` segments the revision holds already. */
  function IdentifiedFrom(revision: RevisionId, before: nat, assembled: seq<Assembled>): (segments: seq<Segment>)
    ensures |segments| == |assembled|
    ensures forall i :: 0 <= i < |assembled| ==> segments[i] == Identified(revision, before + i + 1, assembled[i])
    decreases |assembled|
  {
    if assembled == [] then []
    else [Identified(revision, before + 1, assembled[0])] + IdentifiedFrom(revision, before + 1, assembled[1..])
  }

  // Assembly

  function CoveredRange(records: seq<Record>): Option<TimeRange> {
    if records == [] || records[0].window.start >= records[|records| - 1].window.end then None
    else Some(Span(records[0].window.start, records[|records| - 1].window.end))
  }

  function Ranges(segments: seq<Merged>): set<TimeRange> {
    set m | m in segments :: m.segment.range
  }

  function RuleOf(replaced: TimeRange, run: Run): EarlierTextRule {
    EarlierTextRule(replaced, run.records, Ranges(run.segments), None)
  }

  predicate Continues(request: Request, covered: TimeRange) {
    request.splice.Some? ==>
      && request.splice.value.replaced == covered
      && request.splice.value.base.source == request.source
      && request.splice.value.base.number < request.number
  }

  /** Every part of the revision a run builds, before it is published as sealed or open. */
  function Assemble(request: Request): Result<Revision> {
    var run := request.run;
    var covered := CoveredRange(run.records);
    if covered.None? then Refused(InvalidAsrRun)
    else if !Continues(request, covered.value) then Refused(InvalidSupersession)
    else
      var carrying :=
        if request.splice.None? then Built(Carrying([], []))
        else
          var base := request.splice.value.base;
          CarriedSegments(base, |base.segments|, RuleOf(covered.value, run), 0);
      if carrying.Refused? then Refused(carrying.reason)
      else
        var assembled := StableSort(carrying.value.carried + OwnSegments(run.segments));
        Built(Revision(
          request.id, request.number, request.source, LocalAsr(run.recogniser, run.records),
          if request.splice.None? then None else Some(request.splice.value.base.id),
          if request.splice.None? then None else Some(covered.value),
          carrying.value.inherited, run.language, IdentifiedFrom(request.id, 0, assembled), None))
  }

  // Open revisions

  /** A segment in the replaced range that crosses the settled time. */
  predicate Crosses(segment: Segment, replaced: TimeRange, until: nat) {
    replaced.start <= segment.range.start < until < segment.range.end
  }

  function EarliestCrossing(segments: seq<Segment>, replaced: TimeRange, until: nat): (back: nat)
    ensures back <= until
    ensures forall s :: s in segments && Crosses(s, replaced, until) ==> back <= s.range.start
    ensures back == until || exists s :: s in segments && Crosses(s, replaced, until) && back == s.range.start
  {
    if segments == [] then until
    else
      var back := EarliestCrossing(segments[1..], replaced, until);
      if Crosses(segments[0], replaced, until) && segments[0].range.start < back
      then segments[0].range.start
      else back
  }

  /** The time before which nothing still to come can start. */
  function ReachBack(splice: Option<Splice>, until: nat): (back: nat)
    ensures back <= until
  {
    match splice
    case None => until
    case Some(s) => EarliestCrossing(s.base.segments, s.replaced, until)
  }

  function EndingBySegments(segments: seq<Segment>, until: nat): (kept: seq<Segment>)
    ensures kept <= segments
    ensures forall s :: s in kept ==> s.range.end <= until
    ensures |kept| < |segments| ==> segments[|kept|].range.end > until
  {
    if segments == [] || segments[0].range.end > until then []
    else [segments[0]] + EndingBySegments(segments[1..], until)
  }

  predicate Uses(segments: seq<Segment>, id: RevisionId) {
    exists i :: 0 <= i < |segments| && segments[i].carriedFrom.Some? && segments[i].carriedFrom.value.revision == id
  }

  function UsedBy(inherited: seq<Inherited>, segments: seq<Segment>): seq<Inherited> {
    if inherited == [] then []
    else (if Uses(segments, inherited[0].id) then [inherited[0]] else []) + UsedBy(inherited[1..], segments)
  }

  /** What the run has settled: the assembled revision cut at the first segment that a later
      publication could precede or change. */
  function BuildOpen(request: Request, until: nat): Result<Revision> {
    var whole := Assemble(request);
    if whole.Refused? then whole
    else
      var back := ReachBack(request.splice, until);
      var segments := EndingBySegments(whole.value.segments, back);
      var published :=
        if |segments| == |whole.value.segments| || back < whole.value.segments[|segments|].range.start
        then back
        else whole.value.segments[|segments|].range.start;
      Built(whole.value.(
        segments := segments,
        inherited := UsedBy(whole.value.inherited, segments),
        publishedUntil := Some(published)))
  }

  // Stopped revisions

  function NeverReached(records: seq<Record>): (r: seq<Record>)
    ensures |r| == |records|
    ensures forall i :: 0 <= i < |records| ==>
      && r[i].window == records[i].window
      && r[i].outcome == if records[i].outcome == Pending then NotReached else records[i].outcome
  {
    if records == [] then []
    else
      [if records[0].outcome == Pending then records[0].(outcome := NotReached) else records[0]]
      + NeverReached(records[1..])
  }

  function OwnRanges(segments: seq<Segment>): set<TimeRange> {
    set s | s in segments && s.carriedFrom.None? :: s.range
  }

  function WithEntries(inherited: seq<Inherited>, more: seq<Inherited>): seq<Inherited>
    decreases |more|
  {
    if more == [] then inherited else WithEntries(WithEntry(inherited, more[0]), more[1..])
  }

  function StoppedRule(open: Revision, replaced: TimeRange, records: seq<Record>, stoppedAt: nat): EarlierTextRule {
    EarlierTextRule(replaced, records, OwnRanges(open.segments), Some(stoppedAt))
  }

  /** Seals an open revision whose run will not go on: what it published, then the earlier text
      that starts at or after the published time. */
  function BuildStopped(open: Revision, base: Option<Revision>): Result<Revision> {
    if !open.provenance.LocalAsr? || open.publishedUntil.None? then Refused(InvalidGrowth)
    else if (if base.None? then open.supersedes.Some? else open.supersedes != Some(base.value.id))
    then Refused(InvalidGrowth)
    else
      var stoppedAt := open.publishedUntil.value;
      var records := NeverReached(open.provenance.records);
      var stopped := open.(provenance := open.provenance.(records := records));
      if base.None? || open.replaced.None? then Built(stopped)
      else
        var rule := StoppedRule(open, open.replaced.value, records, stoppedAt);
        var carrying := CarriedSegments(base.value, |base.value.segments|, rule, stoppedAt);
        if carrying.Refused? then Refused(carrying.reason)
        else
          Built(stopped.(
            segments := open.segments + IdentifiedFrom(open.id, |open.segments|, carrying.value.carried),
            inherited := WithEntries(open.inherited, carrying.value.inherited)))
  }

  // What makes a revision coherent

  predicate Ordered(segments: seq<Segment>) {
    forall i, j :: 0 <= i < j < |segments| ==> segments[i].range.start <= segments[j].range.start
  }

  predicate Numbered(id: RevisionId, segments: seq<Segment>) {
    forall i :: 0 <= i < |segments| ==> segments[i].ordinal == i + 1 && segments[i].id == SegmentId(id, i + 1)
  }

  predicate CarriedOnce(segments: seq<Segment>) {
    forall i, j :: 0 <= i < j < |segments| && segments[i].carriedFrom.Some? && segments[j].carriedFrom.Some? ==>
      segments[i].carriedFrom.value.segment != segments[j].carriedFrom.value.segment
  }

  predicate DistinctEntries(inherited: seq<Inherited>) {
    forall i, j :: 0 <= i < j < |inherited| ==> inherited[i].id != inherited[j].id
  }

  /** The rule that a revision's own run, text and state give for what it may carry. */
  predicate MayCarry(revision: Revision, segment: Segment) {
    && revision.provenance.LocalAsr?
    && revision.replaced.Some?
    && EarlierTextRule(revision.replaced.value, revision.provenance.records, OwnRanges(revision.segments),
         if exists r :: r in revision.provenance.records && r.outcome == NotReached
         then revision.publishedUntil else None).Carries(segment.range)
  }

  /** Every carried segment lies where the rule allows, names a segment of a revision on record. */
  predicate CarriesByRule(revision: Revision) {
    forall i :: 0 <= i < |revision.segments| && revision.segments[i].carriedFrom.Some? ==>
      var from := revision.segments[i].carriedFrom.value;
      && MayCarry(revision, revision.segments[i])
      && Known(revision.inherited, from.revision)
      && from.segment.revision == from.revision
  }

  predicate InheritsWhatItUses(revision: Revision) {
    && DistinctEntries(revision.inherited)
    && !Known(revision.inherited, revision.id)
    && (forall i {:trigger Uses(revision.segments, revision.inherited[i].id)} :: 0 <= i < |revision.inherited| ==>
        Uses(revision.segments, revision.inherited[i].id))
  }

  /** An open or stopped revision publishes nothing of its own after its published time. */
  predicate KeepsItsTime(revision: Revision) {
    revision.publishedUntil.Some? ==>
      forall i :: 0 <= i < |revision.segments|
        && (revision.segments[i].carriedFrom.None?
            || !(revision.provenance.LocalAsr?
              && exists r :: r in revision.provenance.records && r.outcome == NotReached))
        ==> revision.segments[i].range.start <= revision.publishedUntil.value
  }

  /** The checks of a revision by itself: its names, its order, what it carries and inherits. */
  ghost predicate Coherent(revision: Revision) {
    && Numbered(revision.id, revision.segments)
    && Ordered(revision.segments)
    && CarriedOnce(revision.segments)
    && CarriesByRule(revision)
    && InheritsWhatItUses(revision)
    && KeepsItsTime(revision)
  }
}
