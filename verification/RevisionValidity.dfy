/** Every revision a run builds is coherent: its names, order, sources and carried text agree. */
module RevisionValidity {
  import opened Basics
  import opened Spans
  import opened ChunkMerge
  import opened Revisions
  import opened OpenRevisions

  // Carrying

  /** What is carried: segments of the base in its order, each naming its first source. */
  ghost predicate CarriesFrom(base: Revision, rule: EarlierTextRule, from: nat, carried: seq<Assembled>) {
    && (forall i :: 0 <= i < |carried| ==>
        carried[i].Carried? && carried[i].segment in base.segments
        && carried[i].from == FirstSource(base, carried[i].segment) && Wanted(rule, from, carried[i].segment))
    && (forall i, j :: 0 <= i < j < |carried| ==>
        carried[i].segment.ordinal < carried[j].segment.ordinal
        && carried[i].segment.range.start <= carried[j].segment.range.start)
  }

  ghost predicate RecordsSources(base: Revision, carrying: Carrying) {
    && DistinctEntries(carrying.inherited)
    && (forall i :: 0 <= i < |carrying.carried| ==>
        carrying.carried[i].Carried? && Known(carrying.inherited, carrying.carried[i].from.revision))
    && (forall i {:trigger HasSource(carrying.carried, carrying.inherited[i].id)} :: 0 <= i < |carrying.inherited| ==>
        HasSource(carrying.carried, carrying.inherited[i].id))
    && (forall i :: 0 <= i < |carrying.inherited| ==>
        carrying.inherited[i].id == base.id || Known(base.inherited, carrying.inherited[i].id))
  }

  /** Some carried segment comes from the revision. */
  ghost predicate HasSource(carried: seq<Assembled>, id: RevisionId) {
    exists j :: 0 <= j < |carried| && carried[j].Carried? && carried[j].from.revision == id
  }

  lemma {:induction false} EntryIsKnown(inherited: seq<Inherited>, id: RevisionId, at: nat, i: nat)
    requires at <= i < |inherited| && inherited[i].id == id
    ensures EntryFrom(inherited, id, at).Some? && EntryFrom(inherited, id, at).value.id == id
    decreases |inherited| - at
  {
    if inherited[at].id != id { EntryIsKnown(inherited, id, at + 1, i); }
  }

  lemma SourceIsOnRecord(base: Revision, i: nat)
    requires Coherent(base) && i < |base.segments|
    ensures var segment := base.segments[i];
      && SourceEntry(base, segment).Some?
      && SourceEntry(base, segment).value.id == FirstSource(base, segment).revision
      && FirstSource(base, segment).segment.revision == FirstSource(base, segment).revision
      && (FirstSource(base, segment).revision == base.id || Known(base.inherited, FirstSource(base, segment).revision))
  {
    var segment := base.segments[i];
    if segment.carriedFrom.Some? {
      var id := segment.carriedFrom.value.revision;
      var at :| 0 <= at < |base.inherited| && base.inherited[at].id == id;
      EntryIsKnown(base.inherited, id, 0, at);
    }
  }

  lemma WithEntryKeeps(inherited: seq<Inherited>, entry: Inherited)
    requires DistinctEntries(inherited)
    ensures DistinctEntries(WithEntry(inherited, entry)) && Known(WithEntry(inherited, entry), entry.id)
    ensures forall id :: Known(inherited, id) ==> Known(WithEntry(inherited, entry), id)
  {
    var more := WithEntry(inherited, entry);
    assert !Known(inherited, entry.id) ==> more[|inherited|].id == entry.id;
    forall id | Known(inherited, id) ensures Known(more, id) {
      var i :| 0 <= i < |inherited| && inherited[i].id == id;
      assert more[i].id == id;
    }
  }

  lemma RecordsOneMore(base: Revision, before: Carrying, entry: Inherited, last: Assembled)
    requires RecordsSources(base, before) && last.Carried? && last.from.revision == entry.id
    requires entry.id == base.id || Known(base.inherited, entry.id)
    ensures RecordsSources(base, Carrying(before.carried + [last], WithEntry(before.inherited, entry)))
  {
    var after := Carrying(before.carried + [last], WithEntry(before.inherited, entry));
    WithEntryKeeps(before.inherited, entry);
    forall i | 0 <= i < |after.inherited| ensures HasSource(after.carried, after.inherited[i].id) {
      if i < |before.inherited| {
        assert HasSource(before.carried, before.inherited[i].id);
        var j :| 0 <= j < |before.carried| && before.carried[j].Carried?
          && before.carried[j].from.revision == before.inherited[i].id;
        assert after.carried[j] == before.carried[j];
      } else {
        assert after.carried[|before.carried|] == last;
      }
    }
  }

  ghost predicate CarriesFirst(base: Revision, n: nat, rule: EarlierTextRule, from: nat, carried: seq<Assembled>)
    requires n <= |base.segments|
  {
    && CarriesFrom(base, rule, from, carried)
    && (forall i :: 0 <= i < |carried| ==> carried[i].segment in base.segments[..n])
    && (forall i :: 0 <= i < n && Wanted(rule, from, base.segments[i]) ==>
          Carried(base.segments[i], FirstSource(base, base.segments[i])) in carried)
  }

  lemma CarriesOneMore(base: Revision, n: nat, rule: EarlierTextRule, from: nat, before: seq<Assembled>)
    requires Numbered(base.id, base.segments) && Ordered(base.segments)
    requires n < |base.segments| && CarriesFirst(base, n, rule, from, before)
    requires Wanted(rule, from, base.segments[n])
    ensures CarriesFirst(base, n + 1, rule, from,
      before + [Carried(base.segments[n], FirstSource(base, base.segments[n]))])
  {
    var segment := base.segments[n];
    assert base.segments[..n + 1] == base.segments[..n] + [segment];
    forall i | 0 <= i < |before|
      ensures before[i].segment.ordinal < segment.ordinal && before[i].segment.range.start <= segment.range.start
    {
      var at :| 0 <= at < n && base.segments[..n][at] == before[i].segment;
      assert base.segments[at] == before[i].segment;
    }
    var last := Carried(segment, FirstSource(base, segment));
    forall i | 0 <= i <= n && Wanted(rule, from, base.segments[i])
      ensures Carried(base.segments[i], FirstSource(base, base.segments[i])) in before + [last]
    {
    }
  }

  lemma CarriesNoMore(base: Revision, n: nat, rule: EarlierTextRule, from: nat, carried: seq<Assembled>)
    requires n < |base.segments| && CarriesFirst(base, n, rule, from, carried) && !Wanted(rule, from, base.segments[n])
    ensures CarriesFirst(base, n + 1, rule, from, carried)
  {
    assert base.segments[..n + 1] == base.segments[..n] + [base.segments[n]];
  }

  lemma {:induction false} CarryingIsBuilt(base: Revision, n: nat, rule: EarlierTextRule, from: nat)
    requires Coherent(base) && n <= |base.segments|
    ensures CarriedSegments(base, n, rule, from).Built?
    ensures RecordsSources(base, CarriedSegments(base, n, rule, from).value)
  {
    if n > 0 {
      CarryingIsBuilt(base, n - 1, rule, from);
      RecordsSourceOf(base, n - 1, CarriedSegments(base, n - 1, rule, from).value);
    }
  }

  lemma {:induction false} CarryingIsInOrder(base: Revision, n: nat, rule: EarlierTextRule, from: nat)
    requires Numbered(base.id, base.segments) && Ordered(base.segments) && n <= |base.segments|
    requires CarriedSegments(base, n, rule, from).Built?
    ensures CarriesFirst(base, n, rule, from, CarriedSegments(base, n, rule, from).value.carried)
  {
    if n > 0 {
      CarryingIsInOrder(base, n - 1, rule, from);
      var carried := CarriedSegments(base, n - 1, rule, from).value.carried;
      if Wanted(rule, from, base.segments[n - 1]) {
        CarriesOneMore(base, n - 1, rule, from, carried);
      } else {
        CarriesNoMore(base, n - 1, rule, from, carried);
      }
    }
  }

  /** A valid base is never refused. */
  lemma CarryingIsSound(base: Revision, n: nat, rule: EarlierTextRule, from: nat)
    requires Coherent(base) && n <= |base.segments|
    ensures CarriedSegments(base, n, rule, from).Built?
    ensures CarriesFirst(base, n, rule, from, CarriedSegments(base, n, rule, from).value.carried)
    ensures RecordsSources(base, CarriedSegments(base, n, rule, from).value)
  {
    CarryingIsBuilt(base, n, rule, from);
    CarryingIsInOrder(base, n, rule, from);
  }

  lemma RecordsSourceOf(base: Revision, n: nat, before: Carrying)
    requires Coherent(base) && n < |base.segments| && RecordsSources(base, before)
    ensures var segment := base.segments[n];
      && SourceEntry(base, segment).Some?
      && RecordsSources(base, Carrying(before.carried + [Carried(segment, FirstSource(base, segment))],
                                       WithEntry(before.inherited, SourceEntry(base, segment).value)))
  {
    var segment := base.segments[n];
    SourceIsOnRecord(base, n);
    RecordsOneMore(base, before, SourceEntry(base, segment).value, Carried(segment, FirstSource(base, segment)));
  }

  /** Two segments of a revision never have the same first source. */
  lemma SourcesDiffer(base: Revision, i: nat, j: nat)
    requires Coherent(base) && i < j < |base.segments|
    ensures FirstSource(base, base.segments[i]).segment != FirstSource(base, base.segments[j]).segment
  {
    SourceIsOnRecord(base, i);
    SourceIsOnRecord(base, j);
  }

  // Sorting

  ghost predicate SourcesOnce(list: seq<Assembled>) {
    forall i, j :: 0 <= i < j < |list| && list[i].Carried? && list[j].Carried? ==>
      list[i].from.segment != list[j].from.segment
  }

  lemma {:induction false} InsertKeepsSources(x: Assembled, sorted: seq<Assembled>)
    requires SourcesOnce(sorted)
    requires x.Carried? ==> forall y :: y in sorted && y.Carried? ==> y.from.segment != x.from.segment
    ensures SourcesOnce(Insert(x, sorted))
    ensures forall y :: y in Insert(x, sorted) <==> y == x || y in sorted
  {
    if sorted != [] && !NotAfter(x, sorted[0]) {
      InsertKeepsSources(x, sorted[1..]);
      var rest := Insert(x, sorted[1..]);
      forall j | 0 <= j < |rest| && rest[j].Carried? && sorted[0].Carried?
        ensures rest[j].from.segment != sorted[0].from.segment
      {
        assert rest[j] in rest;
      }
    }
  }

  lemma {:induction false} SortKeepsSources(list: seq<Assembled>)
    requires SourcesOnce(list)
    ensures SourcesOnce(StableSort(list))
  {
    if list != [] {
      SortKeepsSources(list[1..]);
      SortOrders(list[1..]);
      InsertKeepsSources(list[0], StableSort(list[1..]));
    }
  }

  lemma CarriedSourcesOnce(base: Revision, rule: EarlierTextRule, from: nat, carried: seq<Assembled>)
    requires Coherent(base) && CarriesFrom(base, rule, from, carried)
    ensures SourcesOnce(carried)
  {
    forall i, j | 0 <= i < j < |carried| ensures carried[i].from.segment != carried[j].from.segment {
      var a :| 0 <= a < |base.segments| && base.segments[a] == carried[i].segment;
      var b :| 0 <= b < |base.segments| && base.segments[b] == carried[j].segment;
      SourcesDiffer(base, a, b);
    }
  }

  // Sealed revisions

  /** A revision is superseded by one with an identity of its own. */
  ghost predicate SoundRequest(request: Request) {
    && CoveredRange(request.run.records).Some?
    && Continues(request, CoveredRange(request.run.records).value)
    && (request.splice.Some? ==>
        var base := request.splice.value.base;
        Coherent(base) && request.id != base.id && !Known(base.inherited, request.id))
  }

  ghost predicate Holds(records: seq<Record>, outcome: Outcome) {
    exists r :: r in records && r.outcome == outcome
  }

  ghost function CarryingOf(request: Request): Carrying
    requires SoundRequest(request)
  {
    if request.splice.None? then Carrying([], [])
    else
      var base := request.splice.value.base;
      var r := CarriedSegments(base, |base.segments|, RuleOf(request.splice.value.replaced, request.run), 0);
      if r.Built? then r.value else Carrying([], [])
  }

  lemma SoundRequestIsBuilt(request: Request)
    requires SoundRequest(request)
    ensures Assemble(request).Built?
    ensures AssembledOf(request) == StableSort(CarryingOf(request).carried + OwnSegments(request.run.segments))
    ensures Assemble(request).value.inherited == CarryingOf(request).inherited
  {
    if request.splice.Some? {
      var base := request.splice.value.base;
      CarryingIsSound(base, |base.segments|, RuleOf(request.splice.value.replaced, request.run), 0);
    }
  }

  /** What is assembled: the carried segments, by the rule and once each, and the run's own. */
  lemma AssembledIsSound(request: Request)
    requires SoundRequest(request)
    ensures Assemble(request).Built? && SourcesOnce(AssembledOf(request))
    ensures forall y :: y in AssembledOf(request) <==>
      y in CarryingOf(request).carried || y in OwnSegments(request.run.segments)
    ensures forall y :: y in AssembledOf(request) && y.Carried? ==> y in CarryingOf(request).carried
    ensures request.splice.Some? ==>
      var base := request.splice.value.base;
      && CarriesFrom(base, RuleOf(request.splice.value.replaced, request.run), 0, CarryingOf(request).carried)
      && RecordsSources(base, CarryingOf(request))
  {
    SoundRequestIsBuilt(request);
    var carried, own := CarryingOf(request).carried, OwnSegments(request.run.segments);
    if request.splice.Some? {
      var base := request.splice.value.base;
      var rule := RuleOf(request.splice.value.replaced, request.run);
      CarryingIsSound(base, |base.segments|, rule, 0);
      CarriedSourcesOnce(base, rule, 0, carried);
    }
    SortOrders(carried + own);
    SortKeepsSources(carried + own);
  }

  /** Segments as they are named in the revision. */
  lemma NamedFrom(request: Request, i: nat)
    requires SoundRequest(request) && Assemble(request).Built? && i < |Assemble(request).value.segments|
    ensures |AssembledOf(request)| == |Assemble(request).value.segments|
    ensures var s, y := Assemble(request).value.segments[i], AssembledOf(request)[i];
      && s == Identified(request.id, i + 1, y) && s.range == y.Range()
      && (s.carriedFrom.Some? <==> y.Carried?) && (y.Carried? ==> s.carriedFrom.value == y.from)
      && y in AssembledOf(request)
  {
    AssembledIsTheRevision(request);
  }

  /** Fewer own segments only let more be carried. */
  lemma CarriesMore(rule: EarlierTextRule, written: set<TimeRange>, range: TimeRange)
    requires rule.Carries(range) && written <= rule.written
    ensures rule.(written := written).Carries(range)
  {
  }

  lemma OwnIsWritten(request: Request, i: nat)
    requires SoundRequest(request) && Assemble(request).Built?
    requires i < |Assemble(request).value.segments| && Assemble(request).value.segments[i].carriedFrom.None?
    ensures Assemble(request).value.segments[i].range in Ranges(request.run.segments)
  {
    NamedFrom(request, i);
    AssembledIsSound(request);
    var y := AssembledOf(request)[i];
    assert y !in CarryingOf(request).carried || y.Carried?;
    var j :| 0 <= j < |request.run.segments| && OwnSegments(request.run.segments)[j] == y;
    assert request.run.segments[j] in request.run.segments;
  }

  lemma OwnAreWritten(request: Request, segments: seq<Segment>)
    requires SoundRequest(request) && Assemble(request).Built?
    requires segments <= Assemble(request).value.segments
    ensures OwnRanges(segments) <= Ranges(request.run.segments)
  {
    forall r | r in OwnRanges(segments) ensures r in Ranges(request.run.segments) {
      var s :| s in segments && s.carriedFrom.None? && s.range == r;
      var i :| 0 <= i < |segments| && segments[i] == s;
      OwnIsWritten(request, i);
    }
  }

  /** What the beginning of an assembled revision carries, it may carry. */
  lemma CarriedByRule(request: Request, segments: seq<Segment>, i: nat)
    requires SoundRequest(request) && Assemble(request).Built?
    requires segments <= Assemble(request).value.segments && i < |segments| && segments[i].carriedFrom.Some?
    ensures request.splice.Some?
    ensures EarlierTextRule(request.splice.value.replaced, request.run.records, OwnRanges(segments), None)
      .Carries(segments[i].range)
    ensures Known(Assemble(request).value.inherited, segments[i].carriedFrom.value.revision)
    ensures segments[i].carriedFrom.value.segment.revision == segments[i].carriedFrom.value.revision
  {
    AssembledIsSound(request);
    SoundRequestIsBuilt(request);
    NamedFrom(request, i);
    var y := AssembledOf(request)[i];
    var base := request.splice.value.base;
    OwnAreWritten(request, segments);
    var j :| 0 <= j < |CarryingOf(request).carried| && CarryingOf(request).carried[j] == y;
    CarriesMore(RuleOf(request.splice.value.replaced, request.run), OwnRanges(segments), y.segment.range);
    var at :| 0 <= at < |base.segments| && base.segments[at] == y.segment;
    SourceIsOnRecord(base, at);
  }

  lemma BeginningIsSound(request: Request, segments: seq<Segment>)
    requires SoundRequest(request) && Assemble(request).Built?
    requires segments <= Assemble(request).value.segments
    ensures Numbered(request.id, segments) && Ordered(segments) && CarriedOnce(segments)
  {
    AssembledIsTheRevision(request);
    forall i | 0 <= i < |segments|
      ensures segments[i].ordinal == i + 1 && segments[i].id == SegmentId(request.id, i + 1)
    {
      NamedFrom(request, i);
    }
    forall i, j | 0 <= i < j < |segments| && segments[i].carriedFrom.Some? && segments[j].carriedFrom.Some?
      ensures segments[i].carriedFrom.value.segment != segments[j].carriedFrom.value.segment
    {
      AssembledCarryOnce(request, i, j);
    }
  }

  lemma AssembledCarryOnce(request: Request, i: nat, j: nat)
    requires SoundRequest(request) && Assemble(request).Built? && i < j < |Assemble(request).value.segments|
    requires Assemble(request).value.segments[i].carriedFrom.Some?
    requires Assemble(request).value.segments[j].carriedFrom.Some?
    ensures Assemble(request).value.segments[i].carriedFrom.value.segment
         != Assemble(request).value.segments[j].carriedFrom.value.segment
  {
    AssembledIsSound(request);
    NamedFrom(request, i);
    NamedFrom(request, j);
  }

  lemma InheritedIsFresh(request: Request)
    requires SoundRequest(request) && Assemble(request).Built?
    ensures DistinctEntries(Assemble(request).value.inherited) && !Known(Assemble(request).value.inherited, request.id)
  {
    SoundRequestIsBuilt(request);
    AssembledIsSound(request);
  }

  lemma EntryIsCarried(request: Request, i: nat) returns (y: Assembled)
    requires SoundRequest(request) && i < |CarryingOf(request).inherited|
    ensures y in CarryingOf(request).carried && y.Carried? && y.from.revision == CarryingOf(request).inherited[i].id
  {
    SoundRequestIsBuilt(request);
    AssembledIsSound(request);
    var carried := CarryingOf(request).carried;
    assert HasSource(carried, CarryingOf(request).inherited[i].id);
    var j :| 0 <= j < |carried| && carried[j].Carried?
      && carried[j].from.revision == CarryingOf(request).inherited[i].id;
    y := carried[j];
  }

  lemma InheritedIsUsed(request: Request, i: nat)
    requires SoundRequest(request) && Assemble(request).Built? && i < |Assemble(request).value.inherited|
    ensures Uses(Assemble(request).value.segments, Assemble(request).value.inherited[i].id)
  {
    SoundRequestIsBuilt(request);
    var y := EntryIsCarried(request, i);
    assert y in CarryingOf(request).carried + OwnSegments(request.run.segments);
    SortOrders(CarryingOf(request).carried + OwnSegments(request.run.segments));
    var at :| 0 <= at < |AssembledOf(request)| && AssembledOf(request)[at] == y;
    AssembledIsTheRevision(request);
    NamedFrom(request, at);
  }

  /** What a finished run seals is coherent. */
  lemma SealedIsCoherent(request: Request)
    requires SoundRequest(request) && !Holds(request.run.records, NotReached)
    ensures Assemble(request).Built? && Coherent(Assemble(request).value)
  {
    SoundRequestIsBuilt(request);
    var sealed := Assemble(request).value;
    BeginningIsSound(request, sealed.segments);
    InheritedIsFresh(request);
    forall i | 0 <= i < |sealed.inherited| ensures Uses(sealed.segments, sealed.inherited[i].id) {
      InheritedIsUsed(request, i);
    }
    forall i | 0 <= i < |sealed.segments| && sealed.segments[i].carriedFrom.Some?
      ensures MayCarry(sealed, sealed.segments[i])
        && Known(sealed.inherited, sealed.segments[i].carriedFrom.value.revision)
        && sealed.segments[i].carriedFrom.value.segment.revision == sealed.segments[i].carriedFrom.value.revision
    {
      CarriedByRule(request, sealed.segments, i);
      assert !(exists r :: r in sealed.provenance.records && r.outcome == NotReached);
    }
  }

  // Open revisions

  lemma {:induction false} UsedByKnows(inherited: seq<Inherited>, segments: seq<Segment>, id: RevisionId)
    ensures Known(UsedBy(inherited, segments), id) <==> Known(inherited, id) && Uses(segments, id)
  {
    if inherited != [] {
      var rest := UsedBy(inherited[1..], segments);
      UsedByKnows(inherited[1..], segments, id);
      assert inherited == [inherited[0]] + inherited[1..];
      KnownInTwo([inherited[0]], inherited[1..], id);
      KnownInTwo([inherited[0]], rest, id);
      assert Known([inherited[0]], id) <==> [inherited[0]][0].id == id;
      assert [] + rest == rest;
    }
  }

  lemma {:induction false} UsedByStaysDistinct(inherited: seq<Inherited>, segments: seq<Segment>)
    requires DistinctEntries(inherited)
    ensures DistinctEntries(UsedBy(inherited, segments))
  {
    if inherited != [] {
      var rest := UsedBy(inherited[1..], segments);
      UsedByStaysDistinct(inherited[1..], segments);
      forall i | 0 <= i < |rest| ensures rest[i].id != inherited[0].id {
        UsedByKnows(inherited[1..], segments, rest[i].id);
        assert Known(rest, rest[i].id);
      }
    }
  }

  lemma KnownInTwo(one: seq<Inherited>, other: seq<Inherited>, id: RevisionId)
    ensures Known(one + other, id) <==> Known(one, id) || Known(other, id)
  {
    var all := one + other;
    assert forall i :: 0 <= i < |one| ==> all[i] == one[i];
    assert forall i :: 0 <= i < |other| ==> all[|one| + i] == other[i];
    if Known(all, id) {
      var i :| 0 <= i < |all| && all[i].id == id;
      if i >= |one| { assert other[i - |one|].id == id; }
    }
  }

  lemma OpenKeepsItsTime(request: Request, until: nat)
    requires SoundRequest(request)
    ensures BuildOpen(request, until).Built? && KeepsItsTime(BuildOpen(request, until).value)
  {
    SoundRequestIsBuilt(request);
    OpenIsCut(request, until);
    AssembledIsTheRevision(request);
  }

  lemma OpenInheritsWhatItUses(request: Request, until: nat)
    requires SoundRequest(request)
    ensures BuildOpen(request, until).Built? && InheritsWhatItUses(BuildOpen(request, until).value)
    ensures forall id :: Known(BuildOpen(request, until).value.inherited, id) <==>
      Known(Assemble(request).value.inherited, id) && Uses(BuildOpen(request, until).value.segments, id)
  {
    SoundRequestIsBuilt(request);
    var whole, open := Assemble(request).value, BuildOpen(request, until).value;
    InheritedIsFresh(request);
    UsedByStaysDistinct(whole.inherited, open.segments);
    forall id ensures Known(open.inherited, id) <==> Known(whole.inherited, id) && Uses(open.segments, id) {
      UsedByKnows(whole.inherited, open.segments, id);
    }
    forall i | 0 <= i < |open.inherited| ensures Uses(open.segments, open.inherited[i].id) {
      assert Known(open.inherited, open.inherited[i].id);
    }
  }

  lemma OpenCarriesByRule(request: Request, until: nat)
    requires SoundRequest(request) && !Holds(request.run.records, NotReached)
    ensures BuildOpen(request, until).Built? && CarriesByRule(BuildOpen(request, until).value)
  {
    SoundRequestIsBuilt(request);
    OpenInheritsWhatItUses(request, until);
    var open := BuildOpen(request, until).value;
    forall i | 0 <= i < |open.segments| && open.segments[i].carriedFrom.Some?
      ensures MayCarry(open, open.segments[i])
        && Known(open.inherited, open.segments[i].carriedFrom.value.revision)
        && open.segments[i].carriedFrom.value.segment.revision == open.segments[i].carriedFrom.value.revision
    {
      CarriedByRule(request, open.segments, i);
      assert Uses(open.segments, open.segments[i].carriedFrom.value.revision);
      assert !(exists r :: r in open.provenance.records && r.outcome == NotReached);
    }
  }

  /** What a run publishes is coherent. */
  lemma OpenIsCoherent(request: Request, until: nat)
    requires SoundRequest(request) && !Holds(request.run.records, NotReached)
    ensures BuildOpen(request, until).Built? && Coherent(BuildOpen(request, until).value)
  {
    SoundRequestIsBuilt(request);
    OpenIsCut(request, until);
    BeginningIsSound(request, BuildOpen(request, until).value.segments);
    OpenKeepsItsTime(request, until);
    OpenInheritsWhatItUses(request, until);
    OpenCarriesByRule(request, until);
  }
}
