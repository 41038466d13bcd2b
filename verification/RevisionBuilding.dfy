/** Building a revision step by step: the loops that carry, name and gather. */
module RevisionBuilding {
  import opened Basics
  import opened Spans
  import opened ChunkMerge
  import opened Revisions

  /** Walks the superseded revision's segments once, gathering those the rule keeps and the
      revisions they come from. */
  method CarrySegments(base: Revision, rule: EarlierTextRule, from: nat) returns (carrying: Result<Carrying>)
    ensures carrying == CarriedSegments(base, |base.segments|, rule, from)
  {
    var carried: seq<Assembled>, inherited: seq<Inherited> := [], [];
    for n := 0 to |base.segments|
      invariant CarriedSegments(base, n, rule, from) == Built(Carrying(carried, inherited))
    {
      var segment := base.segments[n];
      if Wanted(rule, from, segment) {
        var source := SourceEntry(base, segment);
        if source.None? {
          OnceRefused(base, n + 1, |base.segments|, rule, from);
          return Refused(InvalidCarriedSegment);
        }
        if !Known(inherited, source.value.id) {
          inherited := inherited + [source.value];
        }
        carried := carried + [Carried(segment, FirstSource(base, segment))];
      }
    }
    carrying := Built(Carrying(carried, inherited));
  }

  lemma {:induction false} OnceRefused(base: Revision, n: nat, m: nat, rule: EarlierTextRule, from: nat)
    requires n <= m <= |base.segments| && CarriedSegments(base, n, rule, from).Refused?
    ensures CarriedSegments(base, m, rule, from) == CarriedSegments(base, n, rule, from)
    decreases m - n
  {
    if n < m { OnceRefused(base, n, m - 1, rule, from); }
  }

  /** Numbers and names the entries one after the other. */
  method NameSegments(revision: RevisionId, before: nat, assembled: seq<Assembled>) returns (segments: seq<Segment>)
    ensures segments == IdentifiedFrom(revision, before, assembled)
  {
    segments := [];
    for n := 0 to |assembled|
      invariant |segments| == n && forall i :: 0 <= i < n ==>
        segments[i] == Identified(revision, before + i + 1, assembled[i])
    {
      segments := segments + [Identified(revision, before + n + 1, assembled[n])];
    }
  }

  method AssembleRevision(request: Request) returns (revision: Result<Revision>)
    ensures revision == Assemble(request)
  {
    var run := request.run;
    var covered := CoveredRange(run.records);
    if covered.None? {
      return Refused(InvalidAsrRun);
    }
    if !Continues(request, covered.value) {
      return Refused(InvalidSupersession);
    }
    var carried: seq<Assembled>, inherited: seq<Inherited> := [], [];
    if request.splice.Some? {
      var carrying := CarrySegments(request.splice.value.base, RuleOf(covered.value, run), 0);
      if carrying.Refused? {
        return Refused(carrying.reason);
      }
      carried, inherited := carrying.value.carried, carrying.value.inherited;
    }
    var assembled := StableSort(carried + OwnSegments(run.segments));
    var segments := NameSegments(request.id, 0, assembled);
    return Built(Revision(
      request.id, request.number, request.source, LocalAsr(run.recogniser, run.records),
      if request.splice.None? then None else Some(request.splice.value.base.id),
      if request.splice.None? then None else Some(covered.value),
      inherited, run.language, segments, None));
  }

  /** The earliest start among the segments that cross the settled time. */
  method EarliestStart(segments: seq<Segment>, replaced: TimeRange, until: nat) returns (back: nat)
    ensures back == EarliestCrossing(segments, replaced, until)
  {
    back := until;
    for n := 0 to |segments|
      invariant back <= until
      invariant forall i :: 0 <= i < n && Crosses(segments[i], replaced, until) ==> back <= segments[i].range.start
      invariant back == until
        || exists i :: 0 <= i < n && Crosses(segments[i], replaced, until) && back == segments[i].range.start
    {
      var segment := segments[n];
      if Crosses(segment, replaced, until) && segment.range.start < back {
        back := segment.range.start;
      }
    }
  }

  /** Assembles the revision, cuts it, and keeps only what the cut still uses. */
  method BuildOpenRevision(request: Request, until: nat) returns (revision: Result<Revision>)
    ensures revision == BuildOpen(request, until)
  {
    var back := until;
    if request.splice.Some? {
      back := EarliestStart(request.splice.value.base.segments, request.splice.value.replaced, until);
    }
    var whole := AssembleRevision(request);
    if whole.Refused? {
      return whole;
    }
    var segments, published := CutAt(whole.value.segments, back);
    var inherited := Retain(whole.value.inherited, segments);
    return Built(whole.value.(segments := segments, inherited := inherited, publishedUntil := Some(published)));
  }

  /** Cuts the segments off at the first that ends after the time; none of those cut away starts
      before the time published. */
  method CutAt(segments: seq<Segment>, back: nat) returns (begun: seq<Segment>, published: nat)
    ensures begun == EndingBySegments(segments, back)
    ensures published ==
      if |begun| == |segments| || back < segments[|begun|].range.start then back else segments[|begun|].range.start
  {
    var kept := KeptCount(segments, back);
    begun, published := segments[..kept], back;
    if kept < |segments| && segments[kept].range.start < back {
      published := segments[kept].range.start;
    }
  }

  /** How many segments at the beginning end by the time. */
  method KeptCount(segments: seq<Segment>, until: nat) returns (kept: nat)
    ensures kept <= |segments| && segments[..kept] == EndingBySegments(segments, until)
  {
    kept := 0;
    while kept < |segments| && segments[kept].range.end <= until
      invariant kept <= |segments| && forall i :: 0 <= i < kept ==> segments[i].range.end <= until
    {
      kept := kept + 1;
    }
    EndingAt(segments, until, kept);
  }

  lemma {:induction false} EndingAt(segments: seq<Segment>, until: nat, kept: nat)
    requires kept <= |segments| && (forall i :: 0 <= i < kept ==> segments[i].range.end <= until)
    requires kept < |segments| ==> segments[kept].range.end > until
    ensures segments[..kept] == EndingBySegments(segments, until)
    decreases kept
  {
    if kept > 0 {
      EndingAt(segments[1..], until, kept - 1);
      assert segments[..kept] == [segments[0]] + segments[1..][..kept - 1];
    }
  }

  method Retain(inherited: seq<Inherited>, segments: seq<Segment>) returns (used: seq<Inherited>)
    ensures used == UsedBy(inherited, segments)
  {
    used := [];
    assert inherited[0..] == inherited;
    for n := 0 to |inherited|
      invariant used + UsedBy(inherited[n..], segments) == UsedBy(inherited, segments)
    {
      assert inherited[n..][1..] == inherited[n + 1..];
      if Uses(segments, inherited[n].id) {
        used := used + [inherited[n]];
      }
    }
  }

  /** Seals what was published, adding the earlier text after it. */
  method BuildStoppedRevision(open: Revision, base: Option<Revision>) returns (revision: Result<Revision>)
    ensures revision == BuildStopped(open, base)
  {
    if !open.provenance.LocalAsr? || open.publishedUntil.None? {
      return Refused(InvalidGrowth);
    }
    if (if base.None? then open.supersedes.Some? else open.supersedes != Some(base.value.id)) {
      return Refused(InvalidGrowth);
    }
    var stoppedAt := open.publishedUntil.value;
    var records := NeverReached(open.provenance.records);
    var segments, inherited := open.segments, open.inherited;
    if base.Some? && open.replaced.Some? {
      var rule := StoppedRule(open, open.replaced.value, records, stoppedAt);
      var carrying := CarrySegments(base.value, rule, stoppedAt);
      if carrying.Refused? {
        return Refused(carrying.reason);
      }
      inherited := AddEntries(inherited, carrying.value.inherited);
      var added := NameSegments(open.id, |segments|, carrying.value.carried);
      segments := segments + added;
    }
    return Built(open.(
      provenance := open.provenance.(records := records), segments := segments, inherited := inherited));
  }

  method AddEntries(known: seq<Inherited>, more: seq<Inherited>) returns (inherited: seq<Inherited>)
    ensures inherited == WithEntries(known, more)
  {
    inherited := known;
    assert more[0..] == more;
    for n := 0 to |more|
      invariant WithEntries(inherited, more[n..]) == WithEntries(known, more)
    {
      assert more[n..][1..] == more[n + 1..];
      if !Known(inherited, more[n].id) {
        inherited := inherited + [more[n]];
      }
    }
  }
}
