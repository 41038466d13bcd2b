/** What a revision says: the run's own text as it was read, and the earlier text that the run leaves. */
module RevisionContent {
  import opened Basics
  import opened Spans
  import opened ChunkMerge
  import opened Revisions
  import opened OpenRevisions
  import opened RevisionValidity
  import opened StoppedRevisions

  /** What a segment says, who said it, and where it comes from. */
  datatype Content = Content(
    range: TimeRange, text: Text, speaker: Option<string>, origin: Origin, carriedFrom: Option<CarriedFrom>)

  function ContentOf(s: Segment): Content { Content(s.range, s.text, s.speaker, s.origin, s.carriedFrom) }

  /** What the segments say of the run's own reading, or of earlier text. */
  function Contents(segments: seq<Segment>, own: bool): seq<Content> {
    if segments == [] then []
    else
      (if segments[0].carriedFrom.None? == own then [ContentOf(segments[0])] else []) + Contents(segments[1..], own)
  }

  /** What the run read, by no speaker it knows. */
  function Readings(merged: seq<Merged>): seq<Content> {
    if merged == [] then []
    else
      [Content(merged[0].segment.range, merged[0].segment.text, None, Asr(merged[0].chunk, merged[0].segment.reading),
        None)]
      + Readings(merged[1..])
  }

  /** The run's windows were meant to be read at the instant, and none of them was. */
  ghost predicate IsUnread(records: seq<Record>, t: nat) {
    && (exists r :: r in records && r.window.start <= t < r.window.end
          && (r.outcome == Unusable || r.outcome == NotReached))
    && forall r :: r in records && r.window.start <= t < r.window.end ==>
        r.outcome == Unusable || r.outcome == NotReached || r.outcome == Pending
  }

  /** Earlier text stays where the run replaces nothing; and inside the replaced range, whole, where it
      reaches into what was not read, or starts after the run stopped, and the run wrote nothing over
      it. */
  ghost predicate Stays(
      range: TimeRange, replaced: TimeRange, records: seq<Record>, written: set<TimeRange>, stopped: Option<nat>) {
    || range.end <= replaced.start || replaced.end <= range.start
    || (&& replaced.start <= range.start && range.end <= replaced.end
        && ((exists t: nat :: range.start <= t < range.end && IsUnread(records, t))
            || (stopped.Some? && stopped.value <= range.start))
        && forall w :: w in written ==> w.end <= range.start || range.end <= w.start)
  }

  /** The earlier segments that stay, each naming the segment that its text was first made in. */
  ghost function Staying(
      base: Revision, segments: seq<Segment>, replaced: TimeRange, records: seq<Record>, written: set<TimeRange>,
      from: nat, stopped: Option<nat>): seq<Content> {
    if segments == [] then []
    else
      var s := segments[|segments| - 1];
      Staying(base, segments[..|segments| - 1], replaced, records, written, from, stopped)
      + if Stays(s.range, replaced, records, written, stopped) && from <= s.range.start
        then [ContentOf(s).(carriedFrom :=
          Some(if s.carriedFrom.Some? then s.carriedFrom.value else CarriedFrom(base.id, s.id)))]
        else []
  }

  // Assembling

  function Said(y: Assembled): Content {
    match y
    case Own(m) => Content(m.segment.range, m.segment.text, None, Asr(m.chunk, m.segment.reading), None)
    case Carried(s, from) => ContentOf(s).(carriedFrom := Some(from))
  }

  function OneSaid(y: Assembled, own: bool): seq<Content> { if y.Own? == own then [Said(y)] else [] }

  function SaidBy(list: seq<Assembled>, own: bool): seq<Content> {
    if list == [] then [] else OneSaid(list[0], own) + SaidBy(list[1..], own)
  }

  lemma FirstSays(y: Assembled, rest: seq<Assembled>, own: bool)
    ensures multiset(SaidBy([y] + rest, own)) == multiset(OneSaid(y, own)) + multiset(SaidBy(rest, own))
  {
    assert ([y] + rest)[1..] == rest;
  }

  lemma {:induction false} NamingKeepsContents(id: RevisionId, before: nat, list: seq<Assembled>, own: bool)
    ensures Contents(IdentifiedFrom(id, before, list), own) == SaidBy(list, own)
    decreases |list|
  {
    if list != [] {
      NamingKeepsContents(id, before + 1, list[1..], own);
      var segments := IdentifiedFrom(id, before, list);
      assert segments[1..] == IdentifiedFrom(id, before + 1, list[1..]);
    }
  }

  function Counted(list: seq<Assembled>, own: bool): multiset<Content> { multiset(SaidBy(list, own)) }

  lemma SwapFirst(a: multiset<Content>, b: multiset<Content>, c: multiset<Content>)
    ensures a + (b + c) == b + (a + c)
  {
  }

  lemma InsertedLater(x: Assembled, sorted: seq<Assembled>)
    requires sorted != [] && !NotAfter(x, sorted[0])
    ensures Insert(x, sorted) == [sorted[0]] + Insert(x, sorted[1..])
  {
  }

  lemma {:induction false} InsertKeepsContents(x: Assembled, sorted: seq<Assembled>, own: bool)
    ensures Counted(Insert(x, sorted), own) == multiset(OneSaid(x, own)) + Counted(sorted, own)
  {
    if sorted == [] || NotAfter(x, sorted[0]) {
      FirstSays(x, sorted, own);
    } else {
      var first, rest := sorted[0], sorted[1..];
      InsertKeepsContents(x, rest, own);
      InsertedLater(x, sorted);
      FirstSays(first, Insert(x, rest), own);
      FirstSays(first, rest, own);
      assert [first] + rest == sorted;
      SwapFirst(multiset(OneSaid(first, own)), multiset(OneSaid(x, own)), Counted(rest, own));
    }
  }

  lemma {:induction false} SortKeepsContents(list: seq<Assembled>, own: bool)
    ensures multiset(SaidBy(StableSort(list), own)) == multiset(SaidBy(list, own))
  {
    if list != [] {
      SortKeepsContents(list[1..], own);
      InsertKeepsContents(list[0], StableSort(list[1..]), own);
      FirstSays(list[0], list[1..], own);
      assert [list[0]] + list[1..] == list;
    }
  }

  lemma {:induction false} BothSay(one: seq<Assembled>, other: seq<Assembled>, own: bool)
    ensures SaidBy(one + other, own) == SaidBy(one, own) + SaidBy(other, own)
  {
    if one == [] {
      assert one + other == other;
    } else {
      assert (one + other)[1..] == one[1..] + other;
      BothSay(one[1..], other, own);
    }
  }

  lemma {:induction false} OwnSayReadings(merged: seq<Merged>)
    ensures SaidBy(OwnSegments(merged), true) == Readings(merged) && SaidBy(OwnSegments(merged), false) == []
  {
    if merged != [] {
      OwnSayReadings(merged[1..]);
      assert OwnSegments(merged)[1..] == OwnSegments(merged[1..]);
    }
  }

  lemma UnreadIs(records: seq<Record>, t: nat)
    ensures UnreadAt(records, t) <==> IsUnread(records, t)
  {
    if UnreadAt(records, t) {
      var i :| 0 <= i < |records| && records[i].outcome.LeftUnread() && records[i].window.Holds(t);
      assert records[i] in records;
    }
    if IsUnread(records, t) {
      var r :| r in records && r.window.start <= t < r.window.end
        && (r.outcome == Unusable || r.outcome == NotReached);
      var i :| 0 <= i < |records| && records[i] == r;
      assert records[i].outcome.LeftUnread() && records[i].window.Holds(t);
      forall j | 0 <= j < |records| && records[j].window.Holds(t) ensures !records[j].outcome.WasRead() {
        assert records[j] in records;
      }
    }
  }

  lemma CarriesIs(
      range: TimeRange, replaced: TimeRange, records: seq<Record>, written: set<TimeRange>, stopped: Option<nat>)
    ensures EarlierTextRule(replaced, records, written, stopped).Carries(range)
       <==> Stays(range, replaced, records, written, stopped)
  {
    forall t: nat ensures UnreadAt(records, t) <==> IsUnread(records, t) {
      UnreadIs(records, t);
    }
    assert UnreadWithin(records, range) <==> exists t: nat :: range.start <= t < range.end && IsUnread(records, t);
  }

  lemma {:induction false} CarriedAreNotOwn(base: Revision, n: nat, rule: EarlierTextRule, from: nat)
    requires n <= |base.segments| && CarriedSegments(base, n, rule, from).Built?
    ensures SaidBy(CarriedSegments(base, n, rule, from).value.carried, true) == []
  {
    if n > 0 {
      var s := base.segments[n - 1];
      CarriedAreNotOwn(base, n - 1, rule, from);
      BothSay(CarriedSegments(base, n - 1, rule, from).value.carried, [Carried(s, FirstSource(base, s))], true);
    }
  }

  function StaysBy(base: Revision, n: nat, rule: EarlierTextRule, from: nat): seq<Content>
    requires 0 < n <= |base.segments|
  {
    var s := base.segments[n - 1];
    if Wanted(rule, from, s) then [Said(Carried(s, FirstSource(base, s)))] else []
  }

  lemma OneMoreSaid(base: Revision, n: nat, rule: EarlierTextRule, from: nat)
    requires 0 < n <= |base.segments| && CarriedSegments(base, n, rule, from).Built?
    ensures CarriedSegments(base, n - 1, rule, from).Built?
    ensures SaidBy(CarriedSegments(base, n, rule, from).value.carried, false)
         == SaidBy(CarriedSegments(base, n - 1, rule, from).value.carried, false) + StaysBy(base, n, rule, from)
  {
    var s := base.segments[n - 1];
    BothSay(CarriedSegments(base, n - 1, rule, from).value.carried, [Carried(s, FirstSource(base, s))], false);
  }

  lemma OneMoreStays(base: Revision, n: nat, rule: EarlierTextRule, from: nat)
    requires 0 < n <= |base.segments|
    ensures Staying(base, base.segments[..n], rule.replaced, rule.records, rule.written, from, rule.unreadFrom)
         == Staying(base, base.segments[..n - 1], rule.replaced, rule.records, rule.written, from, rule.unreadFrom)
          + StaysBy(base, n, rule, from)
  {
    CarriesIs(base.segments[n - 1].range, rule.replaced, rule.records, rule.written, rule.unreadFrom);
    assert base.segments[..n][..n - 1] == base.segments[..n - 1];
  }

  lemma {:induction false} CarriedSayWhatStays(base: Revision, n: nat, rule: EarlierTextRule, from: nat)
    requires n <= |base.segments| && CarriedSegments(base, n, rule, from).Built?
    ensures SaidBy(CarriedSegments(base, n, rule, from).value.carried, true) == []
    ensures SaidBy(CarriedSegments(base, n, rule, from).value.carried, false)
         == Staying(base, base.segments[..n], rule.replaced, rule.records, rule.written, from, rule.unreadFrom)
  {
    CarriedAreNotOwn(base, n, rule, from);
    if n > 0 {
      OneMoreSaid(base, n, rule, from);
      OneMoreStays(base, n, rule, from);
      CarriedSayWhatStays(base, n - 1, rule, from);
    }
  }

  /** A run's revision says exactly what the run read, field by field, and exactly the earlier text that
      stays; it is in the order of time, earlier text first where both begin and end together. */
  lemma AssembledSays(request: Request)
    requires SoundRequest(request)
    ensures Assemble(request).Built?
    ensures var r, run := Assemble(request).value, request.run;
      && r.id == request.id && r.number == request.number && r.source == request.source
      && r.language == run.language && r.provenance == LocalAsr(run.recogniser, run.records)
      && r.publishedUntil.None?
      && multiset(Contents(r.segments, true)) == multiset(Readings(run.segments))
      && InTime(r.segments)
    ensures request.splice.None? ==>
      var r := Assemble(request).value;
      Contents(r.segments, false) == [] && r.supersedes.None? && r.replaced.None? && r.inherited == []
    ensures request.splice.Some? ==>
      var r, base, run := Assemble(request).value, request.splice.value.base, request.run;
      && r.supersedes == Some(base.id) && r.replaced == Some(request.splice.value.replaced)
      && multiset(Contents(r.segments, false))
        == multiset(Staying(base, base.segments, request.splice.value.replaced, run.records, Ranges(run.segments), 0,
             None))
  {
    SoundRequestIsBuilt(request);
    AssembledIsTheRevision(request);
    var carried, own := CarryingOf(request).carried, OwnSegments(request.run.segments);
    forall which ensures multiset(Contents(Assemble(request).value.segments, which))
      == multiset(SaidBy(carried, which)) + multiset(SaidBy(own, which))
    {
      NamingKeepsContents(request.id, 0, AssembledOf(request), which);
      SortKeepsContents(carried + own, which);
      BothSay(carried, own, which);
    }
    OwnSayReadings(request.run.segments);
    if request.splice.Some? { SplicedSays(request); }
    InTimeWhenNamed(request);
  }

  lemma SplicedSays(request: Request)
    requires SoundRequest(request) && request.splice.Some?
    ensures var base, run, carried := request.splice.value.base, request.run, CarryingOf(request).carried;
      && SaidBy(carried, true) == []
      && SaidBy(carried, false)
        == Staying(base, base.segments, request.splice.value.replaced, run.records, Ranges(run.segments), 0, None)
  {
    var base, rule := request.splice.value.base, RuleOf(request.splice.value.replaced, request.run);
    CarryingIsSound(base, |base.segments|, rule, 0);
    CarriedSayWhatStays(base, |base.segments|, rule, 0);
    assert base.segments[..|base.segments|] == base.segments;
  }

  /** By start, then end, earlier text first. */
  ghost predicate InTime(segments: seq<Segment>) {
    forall i, j :: 0 <= i < j < |segments| ==>
      var a, b := segments[i], segments[j];
      || a.range.start < b.range.start
      || (a.range.start == b.range.start && a.range.end < b.range.end)
      || (a.range == b.range && (a.carriedFrom.Some? || b.carriedFrom.None?))
  }

  lemma InTimeWhenNamed(request: Request)
    requires SoundRequest(request) && Assemble(request).Built?
    ensures InTime(Assemble(request).value.segments)
  {
    AssembledIsTheRevision(request);
    var segments := Assemble(request).value.segments;
    forall i | 0 <= i < |segments|
      ensures segments[i].range == AssembledOf(request)[i].Range()
        && (segments[i].carriedFrom.Some? <==> AssembledOf(request)[i].Carried?)
    {
      NamedFrom(request, i);
    }
  }

  // Open and stopped revisions

  /** Nothing still to come starts before `back`: it is the settled time, or the start of the first
      earlier segment inside the replaced range that reaches past the settled time. */
  ghost predicate ReachesBackTo(splice: Option<Splice>, until: nat, back: nat) {
    if splice.None? then back == until
    else
      var segments, start := splice.value.base.segments, splice.value.replaced.start;
      && back <= until
      && (forall s :: s in segments && start <= s.range.start < until < s.range.end ==> back <= s.range.start)
      && (back == until
          || exists s :: s in segments && start <= s.range.start < until < s.range.end && back == s.range.start)
  }

  /** The published segments are those before the first that ends after `back`; the revision is
      published until that one starts, or until `back`. */
  ghost predicate CutAt(open: Revision, whole: seq<Segment>, back: nat) {
    var n := |open.segments|;
    && open.segments <= whole && open.publishedUntil.Some?
    && (forall s :: s in open.segments ==> s.range.end <= back)
    && (n == |whole| ==> open.publishedUntil.value == back)
    && (n < |whole| ==>
        whole[n].range.end > back && open.publishedUntil.value == Min(back, whole[n].range.start))
  }

  lemma OpenIsCut(request: Request, until: nat)
    requires Assemble(request).Built? && BuildOpen(request, until).Built?
    ensures ReachesBackTo(request.splice, until, ReachBack(request.splice, until))
    ensures CutAt(BuildOpen(request, until).value, Assemble(request).value.segments, ReachBack(request.splice, until))
  {
  }

  /** An open revision is the beginning of that, as far as nothing still to come can change it, and
      inherits what it uses. */
  lemma OpenSays(request: Request, until: nat)
    requires SoundRequest(request)
    ensures BuildOpen(request, until).Built? && Assemble(request).Built?
    ensures exists back: nat ::
      ReachesBackTo(request.splice, until, back)
      && CutAt(BuildOpen(request, until).value, Assemble(request).value.segments, back)
    ensures var open, whole := BuildOpen(request, until).value, Assemble(request).value;
      && open == whole.(segments := open.segments, inherited := open.inherited, publishedUntil := open.publishedUntil)
      && open.segments <= whole.segments && open.publishedUntil.Some?
      && forall e :: e in open.inherited <==> e in whole.inherited && Uses(open.segments, e.id)
  {
    SoundRequestIsBuilt(request);
    var whole, open := Assemble(request).value, BuildOpen(request, until).value;
    UsedAreUsed(whole.inherited, open.segments);
    OpenIsCut(request, until);
  }

  lemma {:induction false} UsedAreUsed(inherited: seq<Inherited>, segments: seq<Segment>)
    ensures forall e :: e in UsedBy(inherited, segments) <==> e in inherited && Uses(segments, e.id)
  {
    if inherited != [] { UsedAreUsed(inherited[1..], segments); }
  }

  /** A stopped revision is the open one, its chunks to come never reached, with the earlier text after
      its published time that stays, in its order. */
  lemma StoppedSays(request: Request, until: nat)
    requires IsPublishing(request)
    ensures var open, stopped, base := OpenOf(request, until), StoppedOf(request, until), request.splice.value.base;
      && open.publishedUntil.Some? && open.segments <= stopped.segments
      && stopped
        == open.(provenance := stopped.provenance, segments := stopped.segments, inherited := stopped.inherited)
      && Contents(stopped.segments[|open.segments|..], true) == []
      && Contents(stopped.segments[|open.segments|..], false)
        == Staying(base, base.segments, request.splice.value.replaced, NeverReached(request.run.records),
             OwnRanges(open.segments), open.publishedUntil.value, open.publishedUntil)
  {
    OpenHas(request, until);
    AddedIsSound(request, until);
    StoppedIsBuilt(request, until);
    var base, open, added := request.splice.value.base, OpenOf(request, until), AddedBy(request, until).carried;
    assert StoppedOf(request, until).segments[|open.segments|..] == AddedSegments(request, until);
    NamingKeepsContents(open.id, |open.segments|, added, true);
    NamingKeepsContents(open.id, |open.segments|, added, false);
    CarryingIsSound(base, |base.segments|, RuleWhenStopped(request, until), open.publishedUntil.value);
    CarriedSayWhatStays(base, |base.segments|, RuleWhenStopped(request, until), open.publishedUntil.value);
    assert base.segments[..|base.segments|] == base.segments;
  }
}
