/** A stopped run whose revision is refused, at the bounds the program runs with. Two cues start
    together and one of them ends by the settled time: the run publishes the first and is published
    until the second starts, which is where the first starts too. What it stops with carries the
    first again. */
module StoppedTwice {
  import opened Basics
  import opened Spans
  import opened ChunkMerge
  import opened ChunkPlan
  import opened Settling
  import opened SettledMerge
  import opened Revisions
  import opened OpenRevisions
  import opened RevisionValidity
  import opened StoppedRevisions
  import opened RevisionChecks

  const SECOND: nat := 1_000_000

  /** How much before its window a recorded file's audio may begin. */
  const MAX_EARLY_AUDIO_MICROS: nat := 5 * SECOND

  /** A cue of the imported transcript, written where it lies. */
  function CueAt(ordinal: nat, range: TimeRange): Segment {
    Segment(SegmentId(1, ordinal), ordinal, range, [], None, Cue(ordinal, range.start, range.end), None)
  }

  const SHORT := CueAt(1, Span(30 * SECOND, 32 * SECOND))
  const LONGER := CueAt(2, Span(30 * SECOND, 36 * SECOND))
  const CROSSING := CueAt(3, Span(34 * SECOND, 50 * SECOND))
  const SOURCE := Source(0, Span(0, 100 * SECOND))
  const IMPORTED :=
    Revision(1, 1, SOURCE, Imported(0, false, 0), None, None, [], None, [SHORT, LONGER, CROSSING], None)

  const FIRST := Span(20 * SECOND, 50 * SECOND)
  const SECOND_WINDOW := Span(45 * SECOND, 75 * SECOND)
  const RANGE := Span(20 * SECOND, 75 * SECOND)

  /** The run whose first answer cannot be used and whose second chunk is still to come. */
  const RUN := Publication(
    [Chunk(FIRST, []), Chunk(SECOND_WINDOW, [])], [Unusable, Silent], RANGE, Plan(30 * SECOND, 5 * SECOND),
    MAX_EARLY_AUDIO_MICROS, 0, 2, 2, SOURCE, Some(Splice(IMPORTED, RANGE)))

  ghost function Stopping(): Request {
    RUN.RequestAfter(1, None)
  }

  // Chunks without text

  lemma {:induction false} NoHorizon(chunks: seq<Chunk>)
    requires forall i :: 0 <= i < |chunks| ==> chunks[i].segments == []
    ensures Horizon(chunks) == 0
    decreases |chunks|
  {
    if chunks != [] { NoHorizon(chunks[..|chunks| - 1]); }
  }

  lemma NothingHeard(chunks: seq<Chunk>)
    requires forall i :: 0 <= i < |chunks| ==> chunks[i].segments == []
    ensures Stretches(chunks) == [] && MergeChunks(chunks) == []
  {
    NoHorizon(chunks);
    assert forall id :: !Valid(chunks, id);
    var placed := Placed(chunks, Kept(chunks));
    assert placed == {};
    assert Sorted(placed) == [];
    assert Drafts(chunks, []) == [];
  }

  lemma WindowsAreAPlan()
    ensures Windows(RUN.chunks) == [FIRST, SECOND_WINDOW] && IsPlanOf(Windows(RUN.chunks), RANGE, RUN.plan)
  {
    var chunks := RUN.chunks;
    assert Windows(chunks[1..]) == [SECOND_WINDOW] by { assert chunks[1..] == [Chunk(SECOND_WINDOW, [])]; }
    assert Windows(chunks) == [FIRST, SECOND_WINDOW];
  }

  lemma FirstChunkSettles()
    ensures SettledAfter(RUN.chunks, 1, RUN.early) == Settled(40 * SECOND, [])
  {
    NothingHeard(RUN.chunks[..1]);
  }

  lemma SecondChunkPends()
    ensures RecordsAfter(RUN.chunks, RUN.outcomes, 1) == [Record(FIRST, Unusable), Record(SECOND_WINDOW, Pending)]
  {
  }

  /** The run is one the program can have, and it has settled forty seconds. */
  lemma RunIsSound()
    ensures RUN.Sound() && RUN.SettledUntil(1) == 40 * SECOND
    ensures Stopping().run == Run(0, [Record(FIRST, Unusable), Record(SECOND_WINDOW, Pending)], None, [])
    ensures Stopping().splice == Some(Splice(IMPORTED, RANGE))
  {
    WindowsAreAPlan();
    FirstChunkSettles();
    SecondChunkPends();
  }

  lemma ImportIsCoherent()
    ensures Coherent(IMPORTED)
  {
  }

  lemma StoppingIsPublishing()
    ensures IsPublishing(Stopping())
  {
    RunIsSound();
    var records := Stopping().run.records;
    assert records[1] in records && records[1].outcome == Pending;
    assert forall r :: r in records ==> r == records[0] || r == records[1];
    assert CoveredRange(records) == Some(RANGE);
    ImportIsCoherent();
  }

  lemma CarriesTheCue(cue: Segment)
    requires cue in IMPORTED.segments
    ensures Wanted(RuleOf(RANGE, Stopping().run), 0, cue)
  {
    RunIsSound();
    var records := Stopping().run.records;
    var t := cue.range.start;
    assert records[0].outcome.LeftUnread() && records[0].window.Holds(t);
    assert UnreadAt(records, t);
    assert UnreadWithin(records, cue.range);
  }

  ghost function CarriedFromImport(cue: Segment): Assembled { Carried(cue, CarriedFrom(1, cue.id)) }

  lemma CarriesAllCues()
    ensures CarriedSegments(IMPORTED, 3, RuleOf(RANGE, Stopping().run), 0).Built?
    ensures CarriedSegments(IMPORTED, 3, RuleOf(RANGE, Stopping().run), 0).value.carried
         == [CarriedFromImport(SHORT), CarriedFromImport(LONGER), CarriedFromImport(CROSSING)]
  {
    var rule := RuleOf(RANGE, Stopping().run);
    CarriesTheCue(IMPORTED.segments[0]);
    CarriesTheCue(IMPORTED.segments[1]);
    CarriesTheCue(IMPORTED.segments[2]);
    assert CarriedSegments(IMPORTED, 0, rule, 0) == Built(Carrying([], []));
    assert CarriedSegments(IMPORTED, 1, rule, 0).value.carried == [CarriedFromImport(SHORT)];
    assert CarriedSegments(IMPORTED, 2, rule, 0).value.carried == [CarriedFromImport(SHORT), CarriedFromImport(LONGER)];
  }

  lemma SortsInPlace(a: Assembled, b: Assembled, c: Assembled)
    requires NotAfter(a, b) && NotAfter(b, c)
    ensures StableSort([a, b, c]) == [a, b, c]
  {
    assert [a, b, c][1..] == [b, c] && [b, c][1..] == [c];
    assert StableSort([c]) == [c];
    assert StableSort([b, c]) == [b, c];
  }

  lemma AssemblesAllCues()
    ensures IsPublishing(Stopping()) && Assemble(Stopping()).Built?
    ensures var whole := Assemble(Stopping()).value.segments;
      && |whole| == 3 && whole[0].range == SHORT.range && whole[1].range == LONGER.range
      && whole[0].carriedFrom.Some?
  {
    RunIsSound();
    StoppingIsPublishing();
    CarriesAllCues();
    var a, b, c := CarriedFromImport(SHORT), CarriedFromImport(LONGER), CarriedFromImport(CROSSING);
    SoundRequestIsBuilt(Stopping());
    assert [a, b, c] + OwnSegments([]) == [a, b, c];
    SortsInPlace(a, b, c);
    AssembledIsTheRevision(Stopping());
  }

  /** Nothing still to come starts before the cue that crosses the settled time. */
  lemma ReachesBack()
    ensures ReachBack(Stopping().splice, RUN.SettledUntil(1)) == 34 * SECOND
  {
    RunIsSound();
    var until := 40 * SECOND;
    assert Crosses(CROSSING, RANGE, until) && IMPORTED.segments[2] == CROSSING;
    assert forall s :: s in IMPORTED.segments && Crosses(s, RANGE, until) ==> s == CROSSING;
  }

  lemma PublishesOneCue()
    ensures IsPublishing(Stopping())
    ensures var open := OpenOf(Stopping(), RUN.SettledUntil(1));
      && |open.segments| == 1 && open.segments[0].carriedFrom.Some? && open.segments[0].range == SHORT.range
      && open.publishedUntil == Some(30 * SECOND)
  {
    AssemblesAllCues();
    ReachesBack();
    OpenHas(Stopping(), RUN.SettledUntil(1));
    OpenIsCut(Stopping(), RUN.SettledUntil(1));
    var whole := Assemble(Stopping()).value.segments;
    assert EndingBySegments(whole[1..], 34 * SECOND) == [];
    assert EndingBySegments(whole, 34 * SECOND) == [whole[0]];
  }

  lemma ImportIsValid()
    ensures IsValid(IMPORTED)
  {
    ImportIsCoherent();
    forall i | 0 <= i < |IMPORTED.segments| ensures IsPlaced(IMPORTED, IMPORTED.segments[i]) {
    }
    assert Validated(IMPORTED, Sealed);
  }

  lemma StoppingIsProper()
    ensures ProperRequest(Stopping()) && IsPublishing(Stopping())
  {
    RunIsSound();
    StoppingIsPublishing();
    ImportIsValid();
  }

  /** A sound run, at the program's own early-audio bound, publishes a revision that passes every
      check and that it cannot stop with: the stopped revision carries a cue twice, and is refused. */
  lemma StoppingMayBeRefused()
    ensures RUN.Sound() && RUN.early == MAX_EARLY_AUDIO_MICROS && RUN.plan.Valid()
    ensures ProperRequest(Stopping()) && IsPublishing(Stopping())
    ensures Validated(OpenOf(Stopping(), RUN.SettledUntil(1)), Open)
    ensures var stopped := BuildStopped(OpenOf(Stopping(), RUN.SettledUntil(1)), Some(IMPORTED));
      stopped.Built? && !CarriedOnce(stopped.value.segments) && !IsValid(stopped.value)
  {
    RunIsSound();
    StoppingIsProper();
    PublishesOneCue();
    OpenHas(Stopping(), RUN.SettledUntil(1));
    OpenIsValid(Stopping(), RUN.SettledUntil(1));
    StoppedIsBuilt(Stopping(), RUN.SettledUntil(1));
    CarriedTwice(Stopping(), RUN.SettledUntil(1), 0);
  }
}
