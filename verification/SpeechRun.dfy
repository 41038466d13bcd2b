/** A speech run over its planned chunks, and what becomes of each chunk. A chunk's outcome is what
    a checkpoint stores of it. `Taken` gathers outcomes into the run's provenance and the input of
    its merge; `Verdict` says when too many answers were unusable for the run to end well. */
module SpeechRun {
  import opened Basics
  import opened Spans
  import opened ChunkMerge

  const MICROS_PER_SECOND: nat := 1_000_000
  const SPEECH_SAMPLE_RATE: nat := 16_000
  const MIN_RECOGNITION_SAMPLES: nat := 1_600
  const MIN_RECOGNITION_MICROS: nat := 100_000
  const MAX_AUDIO_SLACK_MICROS: nat := 5_000_000

  datatype ProviderSegment = ProviderSegment(start: nat, end: nat, text: Option<Text>)
  datatype ProviderOutput = ProviderOutput(segments: seq<ProviderSegment>, language: Option<string>)
  datatype OutputError =
    | TooManySegments | TooManyTokens | OutOfOrderSegments | InvalidTokenProbability | TooManyRejectedSegments
  datatype Warning = Warning(kind: nat, count: nat, first: nat)
  datatype Validated = Validated(segments: seq<Draft>, language: Option<string>, warnings: seq<Warning>)
  datatype Validation = Accepted(value: Validated) | Rejected(error: OutputError)

  datatype Decoding = NoAudioDecoded | Pcm(start: nat, samples: seq<int>)

  /** The recording, the recogniser and the rules its answers are judged by; each always answers
      the same question the same way. */
  datatype World = World(
    decode: TimeRange -> Decoding,
    silent: seq<int> -> bool,
    answer: (TimeRange, seq<int>) -> ProviderOutput,
    validate: (TimeRange, TimeRange, ProviderOutput) -> Validation)

  /** What a checkpoint stores of a chunk. */
  datatype Stored =
    | NoAudio
    | Silent(audio: TimeRange)
    | Recognised(audio: TimeRange, output: ProviderOutput)
    | Unusable(audio: TimeRange, error: OutputError)
  {
    predicate Answered() { Recognised? || Unusable? }
  }

  /** What the chunk becomes in the run. */
  datatype ChunkResult =
    | Gap
    | SilentGap(audio: TimeRange)
    | Transcribed(audio: TimeRange, validated: Validated)
    | Refused(audio: TimeRange, error: OutputError)

  predicate BelowFloor(window: TimeRange) { window.Length() < MIN_RECOGNITION_MICROS }

  /** The range of the decoded samples; none if they last no microsecond. */
  function DecodedRange(start: nat, samples: nat): Option<TimeRange> {
    var duration := samples * MICROS_PER_SECOND / SPEECH_SAMPLE_RATE;
    if duration == 0 then None else Some(Span(start, start + duration))
  }

  /** What a stored outcome becomes, or nothing if the run must not use it. */
  function StoredResult(world: World, window: TimeRange, stored: Stored): Option<ChunkResult> {
    if stored.NoAudio? then Some(Gap)
    else if BelowFloor(window) then None
    else
      match stored
      case Silent(audio) => Some(SilentGap(audio))
      case Recognised(audio, output) =>
        (match world.validate(window, audio, output)
         case Accepted(validated) => Some(Transcribed(audio, validated))
         case Rejected(_) => None)
      case Unusable(audio, error) => Some(Refused(audio, error))
  }

  /** What an answer about the decoded audio becomes, and what is stored of it. */
  function Judged(world: World, window: TimeRange, audio: TimeRange, output: ProviderOutput): (ChunkResult, Stored) {
    match world.validate(window, audio, output)
    case Accepted(validated) => (Transcribed(audio, validated), Recognised(audio, output))
    case Rejected(error) => (Refused(audio, error), Unusable(audio, error))
  }

  /** What an uninterrupted run makes of the chunk. */
  function Fresh(world: World, window: TimeRange): (ChunkResult, Stored) {
    if BelowFloor(window) then (Gap, NoAudio)
    else
      match world.decode(window)
      case NoAudioDecoded => (Gap, NoAudio)
      case Pcm(start, samples) =>
        var decoded := DecodedRange(start, |samples|);
        if decoded.None? then (Gap, NoAudio)
        else if |samples| < MIN_RECOGNITION_SAMPLES || world.silent(samples)
        then (SilentGap(decoded.value), Silent(decoded.value))
        else Judged(world, window, decoded.value, world.answer(window, samples))
  }

  /** The recogniser is asked about a window of at least a tenth of a second that decodes to at least as
      much audio, and not to silence. */
  predicate IsAsked(world: World, window: TimeRange) {
    && window.end - window.start >= 100_000 && world.decode(window).Pcm?
    && |world.decode(window).samples| >= 1_600 && !world.silent(world.decode(window).samples)
  }

  /** A chunk is answered exactly when the recogniser is asked; what the answer becomes is what the
      rules say of it, for the audio decoded; a chunk that is not answered is a gap, silent exactly when
      there was audio of a microsecond at least. */
  lemma FreshTells(world: World, window: TimeRange)
    ensures var result := Fresh(world, window).0;
      && (result.Transcribed? || result.Refused? <==> IsAsked(world, window))
      && (result.Gap? ==>
          || window.end - window.start < 100_000 || world.decode(window).NoAudioDecoded?
          || |world.decode(window).samples| == 0)
      && (!result.Gap? ==>
          && world.decode(window).Pcm? && result.audio.start == world.decode(window).start
          && result.audio.end == result.audio.start + |world.decode(window).samples| * 1_000_000 / 16_000)
      && (result.Transcribed? || result.Refused? ==>
          var validation := world.validate(window, result.audio, world.answer(window, world.decode(window).samples));
          if result.Transcribed? then validation == Accepted(result.validated)
          else validation == Rejected(result.error))
  {
    match world.decode(window)
    case NoAudioDecoded =>
    case Pcm(start, samples) =>
      var decoded := DecodedRange(start, |samples|);
      assert |samples| > 0 <==> decoded.Some?;
  }

  /** A stored outcome is read back as exactly what the chunk became. */
  lemma StoredIsReadBack(world: World, window: TimeRange)
    ensures StoredResult(world, window, Fresh(world, window).1) == Some(Fresh(world, window).0)
  {
    match world.decode(window)
    case NoAudioDecoded =>
    case Pcm(start, samples) =>
      var decoded := DecodedRange(start, |samples|);
      if !BelowFloor(window) && decoded.Some? && |samples| >= MIN_RECOGNITION_SAMPLES && !world.silent(samples) {
        match world.validate(window, decoded.value, world.answer(window, samples))
        case Accepted(_) =>
        case Rejected(_) =>
      }
  }

  // Gathering

  datatype Record = Record(window: TimeRange, result: ChunkResult)
  datatype UnusableChunk = UnusableChunk(index: nat, window: TimeRange, error: OutputError)

  datatype Gathering = Gathering(
    records: seq<Record>, mergeInput: seq<Chunk>, warnings: seq<Warning>, languages: seq<Option<string>>,
    gaps: nat, firstGap: Option<nat>, answered: nat, unusable: nat, first: Option<UnusableChunk>)

  const NOTHING := Gathering([], [], [], [], 0, None, 0, 0, None)

  function FirstOf<T>(known: Option<T>, next: T): Option<T> { if known.Some? then known else Some(next) }

  function Taken(g: Gathering, index: nat, window: TimeRange, result: ChunkResult): Gathering {
    var recorded := g.(records := g.records + [Record(window, result)]);
    match result
    case Gap =>
      recorded.(gaps := g.gaps + 1, firstGap := FirstOf(g.firstGap, index + 1),
        mergeInput := g.mergeInput + [Chunk(window, [])])
    case SilentGap(_) =>
      recorded.(gaps := g.gaps + 1, firstGap := FirstOf(g.firstGap, index + 1),
        mergeInput := g.mergeInput + [Chunk(window, [])])
    case Transcribed(_, v) =>
      recorded.(answered := g.answered + 1, warnings := g.warnings + v.warnings,
        languages := g.languages + [v.language],
                mergeInput := g.mergeInput + [Chunk(window, v.segments)])
    case Refused(_, error) =>
      recorded.(answered := g.answered + 1, unusable := g.unusable + 1,
                first := FirstOf(g.first, UnusableChunk(index, window, error)),
                mergeInput := g.mergeInput + [Chunk(window, [])])
  }

  /** What a run has made of its chunks so far. */
  class Gathered {
    var records: seq<Record>
    var mergeInput: seq<Chunk>
    var warnings: seq<Warning>
    var languages: seq<Option<string>>
    var gaps: nat
    var firstGap: Option<nat>
    var answered: nat
    var unusable: nat
    var first: Option<UnusableChunk>

    function Value(): Gathering
      reads this
    {
      Gathering(records, mergeInput, warnings, languages, gaps, firstGap, answered, unusable, first)
    }

    constructor ()
      ensures Value() == NOTHING
    {
      records, mergeInput, warnings, languages := [], [], [], [];
      gaps, firstGap, answered, unusable, first := 0, None, 0, 0, None;
    }

    method Take(index: nat, window: TimeRange, result: ChunkResult)
      modifies this
      ensures Value() == Taken(old(Value()), index, window, result)
    {
      records := records + [Record(window, result)];
      match result {
        case Gap =>
          gaps := gaps + 1;
          firstGap := FirstOf(firstGap, index + 1);
          mergeInput := mergeInput + [Chunk(window, [])];
        case SilentGap(_) =>
          gaps := gaps + 1;
          firstGap := FirstOf(firstGap, index + 1);
          mergeInput := mergeInput + [Chunk(window, [])];
        case Transcribed(_, validated) =>
          answered := answered + 1;
          warnings := warnings + validated.warnings;
          languages := languages + [validated.language];
          mergeInput := mergeInput + [Chunk(window, validated.segments)];
        case Refused(_, error) =>
          answered := answered + 1;
          unusable := unusable + 1;
          first := FirstOf(first, UnusableChunk(index, window, error));
          mergeInput := mergeInput + [Chunk(window, [])];
      }
    }
  }

  // The verdict

  datatype Malformed = Malformed(unusable: nat, answered: nat, planned: nat, first: UnusableChunk)

  /** More than half of the answered chunks. */
  predicate EndsTheRun(unusable: nat, answered: nat) { unusable * 2 > answered }

  /** The failure of the run, if no chunk still to come can change it. */
  function Verdict(g: Gathering, planned: nat, done: nat): Option<Malformed> {
    var remaining := if done < planned then planned - done else 0;
    if g.first.None? || !EndsTheRun(g.unusable, g.answered + remaining) then None
    else Some(Malformed(g.unusable, g.answered, planned, g.first.value))
  }

  // An uninterrupted run

  datatype Ending = Finished(gathering: Gathering) | GaveUp(verdict: Malformed)

  /** A run without checkpoints, from its `i`-th chunk on. */
  function Uninterrupted(world: World, windows: seq<TimeRange>, i: nat, g: Gathering): Ending
    decreases |windows| - i
  {
    if i >= |windows| then Finished(g)
    else
      var next := Taken(g, i, windows[i], Fresh(world, windows[i]).0);
      var verdict := Verdict(next, |windows|, i + 1);
      if verdict.Some? then GaveUp(verdict.value) else Uninterrupted(world, windows, i + 1, next)
  }

  /** The segments of a finished run. */
  ghost function Transcript(g: Gathering): seq<Merged> { MergeChunks(g.mergeInput) }

  /** The language every transcribed chunk reported, if they all reported the same one. */
  method AgreedLanguage(languages: seq<Option<string>>) returns (agreed: Option<string>)
    ensures agreed.Some? <==>
      languages != [] && exists l :: forall i :: 0 <= i < |languages| ==> languages[i] == Some(l)
    ensures agreed.Some? ==> forall i :: 0 <= i < |languages| ==> languages[i] == agreed
  {
    agreed := None;
    for n := 0 to |languages|
      invariant agreed.Some? <==> n > 0
      invariant forall i :: 0 <= i < n ==> languages[i] == agreed
    {
      var language := languages[n];
      if language.None? { return None; }
      if agreed.Some? && agreed != language {
        assert languages[0] == agreed;
        return None;
      }
      agreed := language;
    }
    assert agreed.Some? ==> forall i :: 0 <= i < |languages| ==> languages[i] == Some(agreed.value);
  }

  // The verdict is exact

  function Answers(results: seq<ChunkResult>): nat {
    if results == [] then 0
    else Answers(results[..|results| - 1]) + if Answered(results[|results| - 1]) then 1 else 0
  }

  function Refusals(results: seq<ChunkResult>): nat {
    if results == [] then 0
    else Refusals(results[..|results| - 1]) + if results[|results| - 1].Refused? then 1 else 0
  }

  predicate Answered(result: ChunkResult) { result.Transcribed? || result.Refused? }

  /** More than half of the answers of a whole run are unusable. */
  predicate Fails(results: seq<ChunkResult>) { EndsTheRun(Refusals(results), Answers(results)) }

  /** However the chunks still to come turn out, the run fails. */
  ghost predicate EveryCompletionFails(results: seq<ChunkResult>, planned: nat)
    requires |results| <= planned
  {
    forall rest: seq<ChunkResult> {:trigger Fails(results + rest)} :: |rest| == planned - |results| ==>
      Fails(results + rest)
  }

  lemma {:induction false} CountsGrow(results: seq<ChunkResult>, rest: seq<ChunkResult>)
    ensures Refusals(results) <= Refusals(results + rest)
    ensures Answers(results + rest) - Refusals(results + rest) <= Answers(results) - Refusals(results) + |rest|
    ensures Answers(results + rest) <= Answers(results) + |rest| + (Refusals(results + rest) - Refusals(results))
    ensures 2 * Refusals(results + rest) - Answers(results + rest) >= 2 * Refusals(results) - Answers(results) - |rest|
  {
    if rest == [] {
      assert results + rest == results;
    } else {
      var last := |rest| - 1;
      assert (results + rest)[..|results| + last] == results + rest[..last];
      CountsGrow(results, rest[..last]);
    }
  }

  /** The mildest completion: every chunk still to come is answered well. */
  function AnsweredWell(n: nat): (rest: seq<ChunkResult>)
    ensures |rest| == n
  {
    if n == 0 then [] else AnsweredWell(n - 1) + [Transcribed(Span(0, 1), Validated([], None, []))]
  }

  lemma {:induction false} MildestCounts(results: seq<ChunkResult>, n: nat)
    ensures Refusals(results + AnsweredWell(n)) == Refusals(results)
    ensures Answers(results + AnsweredWell(n)) == Answers(results) + n
  {
    if n == 0 {
      assert results + AnsweredWell(0) == results;
    } else {
      var all := results + AnsweredWell(n);
      assert all[..|all| - 1] == results + AnsweredWell(n - 1);
      MildestCounts(results, n - 1);
    }
  }

  lemma CertainIsCounted(results: seq<ChunkResult>, planned: nat)
    requires |results| <= planned && EveryCompletionFails(results, planned)
    ensures EndsTheRun(Refusals(results), Answers(results) + planned - |results|)
  {
    MildestCounts(results, planned - |results|);
    assert Fails(results + AnsweredWell(planned - |results|));
  }

  lemma CountedIsCertain(results: seq<ChunkResult>, planned: nat)
    requires |results| <= planned
    requires EndsTheRun(Refusals(results), Answers(results) + planned - |results|)
    ensures EveryCompletionFails(results, planned)
  {
    forall rest: seq<ChunkResult> | |rest| == planned - |results| ensures Fails(results + rest) {
      CountsGrow(results, rest);
    }
  }

  /** The run is certain to fail exactly when the verdict's count says so. */
  lemma CertainExactly(results: seq<ChunkResult>, planned: nat)
    requires |results| <= planned
    ensures EveryCompletionFails(results, planned)
       <==> EndsTheRun(Refusals(results), Answers(results) + planned - |results|)
  {
    if EveryCompletionFails(results, planned) { CertainIsCounted(results, planned); }
    if EndsTheRun(Refusals(results), Answers(results) + planned - |results|) { CountedIsCertain(results, planned); }
  }

  function FreshResults(world: World, windows: seq<TimeRange>): (results: seq<ChunkResult>)
    ensures |results| == |windows|
    ensures forall i :: 0 <= i < |windows| ==> results[i] == Fresh(world, windows[i]).0
  {
    if windows == [] then []
    else FreshResults(world, windows[..|windows| - 1]) + [Fresh(world, windows[|windows| - 1]).0]
  }

  /** What has been gathered counts the results so far. */
  ghost predicate Counts(g: Gathering, results: seq<ChunkResult>) {
    && g.answered == Answers(results) && g.unusable == Refusals(results)
    && (g.first.Some? <==> Refusals(results) > 0)
  }

  lemma CountsOneMore(g: Gathering, results: seq<ChunkResult>, index: nat, window: TimeRange, result: ChunkResult)
    requires Counts(g, results)
    ensures Counts(Taken(g, index, window, result), results + [result])
  {
    assert (results + [result])[..|results|] == results;
  }

  ghost predicate CertainAt(results: seq<ChunkResult>, k: nat)
    requires k <= |results|
  {
    EveryCompletionFails(results[..k], |results|)
  }

  /** The count that makes it certain. */
  predicate CountedAt(results: seq<ChunkResult>, k: nat)
    requires k <= |results|
  {
    EndsTheRun(Refusals(results[..k]), Answers(results[..k]) + |results| - k)
  }

  lemma CertainIsCountedAt(results: seq<ChunkResult>, k: nat)
    requires k <= |results|
    ensures CertainAt(results, k) <==> CountedAt(results, k)
  {
    CertainExactly(results[..k], |results|);
  }

  lemma VerdictIsCounted(world: World, windows: seq<TimeRange>, i: nat, g: Gathering)
    requires i < |windows| && Counts(g, FreshResults(world, windows)[..i])
    ensures var results := FreshResults(world, windows);
      var next := Taken(g, i, windows[i], results[i]);
      && Counts(next, results[..i + 1])
      && (Verdict(next, |windows|, i + 1).Some? <==> CountedAt(results, i + 1))
  {
    var results := FreshResults(world, windows);
    CountsOneMore(g, results[..i], i, windows[i], results[i]);
    assert results[..i] + [results[i]] == results[..i + 1];
    assert EndsTheRun(Refusals(results[..i + 1]), Answers(results[..i + 1]) + |results| - (i + 1)) ==>
      Refusals(results[..i + 1]) > 0;
  }

  /** The run goes on after chunk `i` to this ending, its verdict due at chunk `k` if it gives up. */
  ghost predicate EndsWhenCounted(results: seq<ChunkResult>, i: nat, ending: Ending, k: nat) {
    match ending
    case GaveUp(verdict) =>
      && i < k <= |results| && CountedAt(results, k)
      && (forall j :: i < j < k ==> !CountedAt(results, j))
      && verdict.unusable == Refusals(results[..k]) && verdict.answered == Answers(results[..k])
    case Finished(_) => forall j :: i < j <= |results| ==> !CountedAt(results, j)
  }

  lemma EndsNoEarlier(results: seq<ChunkResult>, i: nat, ending: Ending, k: nat)
    requires i < |results| && !CountedAt(results, i + 1) && EndsWhenCounted(results, i + 1, ending, k)
    ensures EndsWhenCounted(results, i, ending, k)
  {
  }

  lemma {:induction false} GivesUpWhenCounted(world: World, windows: seq<TimeRange>, i: nat, g: Gathering)
      returns (k: nat)
    requires i <= |windows| && Counts(g, FreshResults(world, windows)[..i])
    ensures EndsWhenCounted(FreshResults(world, windows), i, Uninterrupted(world, windows, i, g), k)
    decreases |windows| - i
  {
    k := i;
    if i < |windows| {
      VerdictIsCounted(world, windows, i, g);
      var next := Taken(g, i, windows[i], FreshResults(world, windows)[i]);
      if Verdict(next, |windows|, i + 1).Some? {
        k := i + 1;
      } else {
        k := GivesUpWhenCounted(world, windows, i + 1, next);
        EndsNoEarlier(FreshResults(world, windows), i, Uninterrupted(world, windows, i + 1, next), k);
      }
    }
  }

  /** A run gives up after its `k`-th chunk if that is the first after which every completion
      fails, and at no other chunk. */
  lemma GivesUpAt(world: World, windows: seq<TimeRange>) returns (k: nat)
    ensures var results := FreshResults(world, windows);
      match Uninterrupted(world, windows, 0, NOTHING)
      case GaveUp(verdict) =>
        && 0 < k <= |windows| && CertainAt(results, k)
        && (forall j :: 0 < j < k ==> !CertainAt(results, j))
        && verdict.unusable == Refusals(results[..k]) && verdict.answered == Answers(results[..k])
      case Finished(_) => forall j :: 0 < j <= |windows| ==> !CertainAt(results, j)
  {
    k := GivesUpWhenCounted(world, windows, 0, NOTHING);
    var results := FreshResults(world, windows);
    forall j | 0 <= j <= |results| ensures CertainAt(results, j) <==> CountedAt(results, j) {
      CertainIsCountedAt(results, j);
    }
  }

  lemma GivesUpWhenMostFail(world: World, windows: seq<TimeRange>)
    requires windows != []
    ensures Uninterrupted(world, windows, 0, NOTHING).GaveUp? <==> Fails(FreshResults(world, windows))
  {
    var results := FreshResults(world, windows);
    var k := GivesUpWhenCounted(world, windows, 0, NOTHING);
    assert results[..|results|] == results;
    assert CountedAt(results, |results|) <==> Fails(results);
    if Uninterrupted(world, windows, 0, NOTHING).GaveUp? {
      CountsGrow(results[..k], results[k..]);
      assert results[..k] + results[k..] == results;
    }
  }

  /** Absent other failures, a run gives up if and only if more than half of all its answers would
      be unusable. */
  lemma VerdictIsExact(world: World, windows: seq<TimeRange>)
    requires windows != []
    ensures var results := FreshResults(world, windows);
      Uninterrupted(world, windows, 0, NOTHING).GaveUp?
      <==> 2 * |IndicesOf(results, RefusedOnes)| > |IndicesOf(results, AnsweredOnes)|
  {
    GivesUpWhenMostFail(world, windows);
    CountsAreSizes(FreshResults(world, windows));
  }

  // What a run gathers

  datatype Kind = GapOnes | TranscribedOnes | RefusedOnes | AnsweredOnes

  predicate IsA(result: ChunkResult, kind: Kind) {
    match kind
    case GapOnes => result.Gap? || result.SilentGap?
    case TranscribedOnes => result.Transcribed?
    case RefusedOnes => result.Refused?
    case AnsweredOnes => result.Transcribed? || result.Refused?
  }

  /** Which of the chunks became what. */
  function IndicesOf(results: seq<ChunkResult>, kind: Kind): set<nat> {
    set i | 0 <= i < |results| && IsA(results[i], kind)
  }

  lemma OneIndexMore(results: seq<ChunkResult>, result: ChunkResult, kind: Kind)
    ensures IndicesOf(results + [result], kind)
         == IndicesOf(results, kind) + if IsA(result, kind) then {|results|} else {}
    ensures |IndicesOf(results + [result], kind)| == |IndicesOf(results, kind)| + if IsA(result, kind) then 1 else 0
  {
    var more := results + [result];
    assert forall i :: 0 <= i < |results| ==> more[i] == results[i];
    assert IndicesOf(more, kind) == IndicesOf(results, kind) + if IsA(result, kind) then {|results|} else {};
  }

  lemma {:induction false} CountsAreSizes(results: seq<ChunkResult>)
    ensures Refusals(results) == |IndicesOf(results, RefusedOnes)|
    ensures Answers(results) == |IndicesOf(results, AnsweredOnes)|
  {
    if results == [] {
      assert IndicesOf(results, RefusedOnes) == {} && IndicesOf(results, AnsweredOnes) == {};
    } else {
      var n := |results| - 1;
      CountsAreSizes(results[..n]);
      OneIndexMore(results[..n], results[n], RefusedOnes);
      OneIndexMore(results[..n], results[n], AnsweredOnes);
      assert results[..n] + [results[n]] == results;
    }
  }

  /** The first of the chunks that became that; none if no chunk did. */
  ghost predicate IsFirst(results: seq<ChunkResult>, kind: Kind, first: Option<nat>) {
    match first
    case None => forall i :: 0 <= i < |results| ==> !IsA(results[i], kind)
    case Some(k) => k < |results| && IsA(results[k], kind) && forall i :: 0 <= i < k ==> !IsA(results[i], kind)
  }

  lemma FirstStays(results: seq<ChunkResult>, result: ChunkResult, kind: Kind, first: Option<nat>)
    requires IsFirst(results, kind, first)
    ensures IsFirst(results + [result], kind,
      if first.Some? then first else if IsA(result, kind) then Some(|results|) else None)
  {
  }

  /** What the merge hears of a chunk. */
  function HeardIn(result: ChunkResult): seq<Draft> {
    if result.Transcribed? then result.validated.segments else []
  }

  /** What the transcribed chunks reported, in order. */
  function LanguagesOf(results: seq<ChunkResult>): seq<Option<string>> {
    if results == [] then []
    else
      var last := results[|results| - 1];
      LanguagesOf(results[..|results| - 1]) + if last.Transcribed? then [last.validated.language] else []
  }

  function WarningsOf(results: seq<ChunkResult>): seq<Warning> {
    if results == [] then []
    else
      var last := results[|results| - 1];
      WarningsOf(results[..|results| - 1]) + if last.Transcribed? then last.validated.warnings else []
  }

  /** Every chunk is on record with what it became, and the merge hears it: a transcribed chunk's
      segments, and nothing of any other. */
  ghost predicate Records(g: Gathering, windows: seq<TimeRange>, results: seq<ChunkResult>) {
    && |windows| == |results| == |g.records| == |g.mergeInput|
    && forall i :: 0 <= i < |results| ==>
        g.records[i] == Record(windows[i], results[i]) && g.mergeInput[i] == Chunk(windows[i], HeardIn(results[i]))
  }

  /** The figures of the run are those of its chunks. */
  ghost predicate Figures(g: Gathering, windows: seq<TimeRange>, results: seq<ChunkResult>) {
    && |windows| == |results|
    && g.languages == LanguagesOf(results) && g.warnings == WarningsOf(results)
    && g.gaps == |IndicesOf(results, GapOnes)| && g.answered == |IndicesOf(results, AnsweredOnes)|
    && g.unusable == |IndicesOf(results, RefusedOnes)|
    && (g.firstGap.Some? ==> g.firstGap.value > 0)
    && IsFirst(results, GapOnes, if g.firstGap.Some? then Some(g.firstGap.value - 1) else None)
    && IsFirstRefusal(windows, results, g.first)
  }

  /** The first chunk whose answer was refused, with its window and why. */
  ghost predicate IsFirstRefusal(windows: seq<TimeRange>, results: seq<ChunkResult>, first: Option<UnusableChunk>)
    requires |windows| == |results|
  {
    && IsFirst(results, RefusedOnes, if first.Some? then Some(first.value.index) else None)
    && (first.Some? ==>
      && first.value.window == windows[first.value.index]
      && first.value.error == results[first.value.index].error)
  }

  lemma RecordsOneMore(
      g: Gathering, windows: seq<TimeRange>, results: seq<ChunkResult>, window: TimeRange, result: ChunkResult)
    requires Records(g, windows, results)
    ensures Records(Taken(g, |results|, window, result), windows + [window], results + [result])
  {
  }

  lemma ListsGrow(results: seq<ChunkResult>, result: ChunkResult)
    ensures LanguagesOf(results + [result])
         == LanguagesOf(results) + if result.Transcribed? then [result.validated.language] else []
    ensures WarningsOf(results + [result])
         == WarningsOf(results) + if result.Transcribed? then result.validated.warnings else []
  {
    assert (results + [result])[..|results|] == results;
  }

  lemma FirstRefusalGrows(
      windows: seq<TimeRange>, results: seq<ChunkResult>, first: Option<UnusableChunk>, window: TimeRange,
      result: ChunkResult)
    requires |windows| == |results| && IsFirstRefusal(windows, results, first)
    ensures IsFirstRefusal(windows + [window], results + [result],
      if result.Refused? then FirstOf(first, UnusableChunk(|results|, window, result.error)) else first)
  {
    FirstStays(results, result, RefusedOnes, if first.Some? then Some(first.value.index) else None);
  }

  lemma FirstGapGrows(results: seq<ChunkResult>, result: ChunkResult, first: Option<nat>)
    requires (first.Some? ==> first.value > 0)
    requires IsFirst(results, GapOnes, if first.Some? then Some(first.value - 1) else None)
    ensures var next := if IsA(result, GapOnes) then FirstOf(first, |results| + 1) else first;
      (next.Some? ==> next.value > 0)
      && IsFirst(results + [result], GapOnes, if next.Some? then Some(next.value - 1) else None)
  {
    FirstStays(results, result, GapOnes, if first.Some? then Some(first.value - 1) else None);
  }

  lemma FiguresOneMore(
      g: Gathering, windows: seq<TimeRange>, results: seq<ChunkResult>, window: TimeRange, result: ChunkResult)
    requires Figures(g, windows, results)
    ensures Figures(Taken(g, |results|, window, result), windows + [window], results + [result])
  {
    ListsGrow(results, result);
    OneIndexMore(results, result, GapOnes);
    OneIndexMore(results, result, AnsweredOnes);
    OneIndexMore(results, result, RefusedOnes);
    FirstGapGrows(results, result, g.firstGap);
    FirstRefusalGrows(windows, results, g.first, window, result);
  }

  /** What an ending holds of the chunks it is the ending of. */
  ghost predicate EndingTells(windows: seq<TimeRange>, results: seq<ChunkResult>, ending: Ending)
    requires |windows| == |results|
  {
    match ending
    case Finished(g) => Records(g, windows, results) && Figures(g, windows, results)
    case GaveUp(verdict) => verdict.planned == |windows| && IsFirstRefusal(windows, results, Some(verdict.first))
  }

  lemma FirstRefusalStays(
      windows: seq<TimeRange>, results: seq<ChunkResult>, n: nat, first: Option<UnusableChunk>)
    requires n <= |windows| == |results| && first.Some? && IsFirstRefusal(windows[..n], results[..n], first)
    ensures IsFirstRefusal(windows, results, first)
  {
    assert results[..n][first.value.index] == results[first.value.index];
    forall i | 0 <= i < first.value.index ensures !IsA(results[i], RefusedOnes) {
      assert results[..n][i] == results[i];
    }
  }

  lemma {:induction false} GathersFrom(world: World, windows: seq<TimeRange>, i: nat, g: Gathering)
    requires i <= |windows|
    requires Records(g, windows[..i], FreshResults(world, windows)[..i])
    requires Figures(g, windows[..i], FreshResults(world, windows)[..i])
    ensures EndingTells(windows, FreshResults(world, windows), Uninterrupted(world, windows, i, g))
    decreases |windows| - i
  {
    var results := FreshResults(world, windows);
    if i == |windows| {
      assert windows[..i] == windows && results[..i] == results;
    } else {
      var next := Taken(g, i, windows[i], results[i]);
      assert windows[..i] + [windows[i]] == windows[..i + 1] && results[..i] + [results[i]] == results[..i + 1];
      RecordsOneMore(g, windows[..i], results[..i], windows[i], results[i]);
      FiguresOneMore(g, windows[..i], results[..i], windows[i], results[i]);
      if Verdict(next, |windows|, i + 1).Some? {
        FirstRefusalStays(windows, results, i + 1, next.first);
      } else {
        GathersFrom(world, windows, i + 1, next);
      }
    }
  }

  /** A finished run holds every chunk with what it became, gives the merge what each transcribed
      chunk heard, and counts them right; one that gives up names the first refused chunk. */
  lemma RunGathers(world: World, windows: seq<TimeRange>)
    ensures EndingTells(windows, FreshResults(world, windows), Uninterrupted(world, windows, 0, NOTHING))
  {
    var results := FreshResults(world, windows);
    assert windows[..0] == [] && results[..0] == [];
    assert forall kind :: IndicesOf([], kind) == {};
    GathersFrom(world, windows, 0, NOTHING);
  }
}
