/** How the answers of a run's overlapping chunks become one transcript. A recogniser hears every
    seam twice. Rules 1 and 2 choose, for every segment, which chunk's copy stands; a guard puts
    dropped segments back where a choice would leave a hole; rule 3 trims or drops the words that
    two consecutive chunks both wrote. */
module ChunkMerge {
  import opened Basics
  import opened Spans

  /** A word as written, and as compared: its letters and digits in lower case, none
      for punctuation alone. */
  datatype Word = Word(written: string, folded: string)
  type Text = seq<Word>

  datatype Reading = Reading(confidence: int, providerStart: nat, providerEnd: nat, trimmed: bool)
  datatype Draft = Draft(range: TimeRange, text: Text, reading: Reading)
  datatype Chunk = Chunk(window: TimeRange, segments: seq<Draft>)
  datatype Id = Id(chunk: nat, position: nat)
  datatype Merged = Merged(chunk: nat, segment: Draft)
  datatype Side = Left | Right
  const SEAM_EDGE: nat := 500_000
  const SEAM_TOLERANCE: nat := SEAM_EDGE
  const MIN_SEAM_DUPLICATE_WORDS: nat := 2
  const MIN_FUZZY_SEAM_WORDS: nat := 4
  const MAX_LOOP_UNIT_WORDS: nat := 4
  const MIN_LOOP_REPEATS: nat := 8

  // Words

  function Folded(text: Text): seq<string> {
    if text == [] then []
    else (if text[0].folded == "" then [] else [text[0].folded]) + Folded(text[1..])
  }

  function Differences(one: seq<string>, other: seq<string>): nat
    requires |one| == |other|
  {
    if one == [] then 0
    else (if one[0] == other[0] then 0 else 1) + Differences(one[1..], other[1..])
  }

  /** Equal, or different in one inner word of four or more. */
  predicate SameSeamWords(one: seq<string>, other: seq<string>) {
    && |one| == |other|
    && (Differences(one, other) == 0
        || (Differences(one, other) == 1
            && |one| >= MIN_FUZZY_SEAM_WORDS
            && one[0] == other[0]
            && one[|one| - 1] == other[|other| - 1]))
  }

  function LongestSharedEnd(earlier: seq<string>, later: seq<string>, length: nat): nat
    requires length <= |earlier| && length <= |later|
  {
    if length < MIN_SEAM_DUPLICATE_WORDS then 0
    else if SameSeamWords(earlier[|earlier| - length..], later[..length]) then length
    else LongestSharedEnd(earlier, later, length - 1)
  }

  predicate RepeatedAt(earlier: seq<string>, at: nat, later: seq<string>)
    requires at + |later| <= |earlier|
  {
    SameSeamWords(earlier[at..at + |later|], later)
  }

  /** How many leading words of `later` the end of `earlier` repeats; all of them when
      `earlier` holds them anywhere. */
  function SharedSeamWords(earlier: seq<string>, later: seq<string>): nat {
    if |later| >= MIN_SEAM_DUPLICATE_WORDS
       && exists at :: 0 <= at <= |earlier| - |later| && RepeatedAt(earlier, at, later)
    then |later|
    else LongestSharedEnd(earlier, later, if |earlier| < |later| then |earlier| else |later|)
  }

  function SkipWords(text: Text, count: nat): Text {
    if text == [] || count == 0 then text
    else SkipWords(text[1..], if text[0].folded == "" then count else count - 1)
  }

  function WithoutLeadingWords(text: Text, count: nat): Option<Text> {
    var rest := SkipWords(text, count);
    if exists w :: w in rest && w.folded != "" then Some(rest) else None
  }

  predicate LoopsWithUnit(words: seq<string>, unit: nat, at: nat, streak: nat)
    requires unit > 0
    decreases |words| - at
  {
    at + unit < |words|
    && var run := if words[at] == words[at + unit] then streak + 1 else 0;
       || ((run + unit) / unit >= MIN_LOOP_REPEATS && (run + unit) * 2 >= |words|)
       || LoopsWithUnit(words, unit, at + 1, run)
  }

  /** One to four words said again and again over at least half of the segment. */
  predicate LoopsOnItsOwnWords(words: seq<string>) {
    exists unit :: 1 <= unit <= MAX_LOOP_UNIT_WORDS && LoopsWithUnit(words, unit, 0, 0)
  }

  predicate RepeatsTheSegmentBefore(chunk: Chunk, position: nat)
    requires position < |chunk.segments|
  {
    position > 0
    && var words := Folded(chunk.segments[position].text);
       && |words| >= MIN_SEAM_DUPLICATE_WORDS
       && SameSeamWords(Folded(chunk.segments[position - 1].text), words)
  }

  /** A recogniser loop is kept like any segment but claims no time from its neighbours. */
  predicate ClaimsNoTime(chunk: Chunk, position: nat)
    requires position < |chunk.segments|
  {
    RepeatsTheSegmentBefore(chunk, position) || LoopsOnItsOwnWords(Folded(chunk.segments[position].text))
  }

  predicate ClaimsTimeOver(chunk: Chunk, segment: Draft) {
    exists p :: 0 <= p < |chunk.segments|
      && chunk.segments[p].range.Overlaps(segment.range) && !ClaimsNoTime(chunk, p)
  }

  // The chunks and their segments

  predicate Valid(chunks: seq<Chunk>, id: Id) {
    id.chunk < |chunks| && id.position < |chunks[id.chunk].segments|
  }

  function At(chunks: seq<Chunk>, id: Id): Draft
    requires Valid(chunks, id)
  {
    chunks[id.chunk].segments[id.position]
  }

  /** Every segment of every chunk. */
  function AllIds(chunks: seq<Chunk>): (ids: set<Id>)
    ensures forall id :: id in ids <==> Valid(chunks, id)
  {
    if chunks == [] then {}
    else
      var last := |chunks| - 1;
      assert forall id :: Valid(chunks, id) && id.chunk < last ==> Valid(chunks[..last], id);
      AllIds(chunks[..last]) + set p | 0 <= p < |chunks[last].segments| :: Id(last, p)
  }

  function Midpoint(range: TimeRange): nat { (range.start + range.end) / 2 }

  /** The middle of the overlap of chunk `i` and the next. */
  function Boundary(chunks: seq<Chunk>, i: nat): nat
    requires i + 1 < |chunks|
  {
    (chunks[i + 1].window.start + chunks[i].window.end) / 2
  }

  predicate InCore(chunks: seq<Chunk>, i: nat, t: nat)
    requires i < |chunks|
  {
    && (i > 0 ==> Boundary(chunks, i - 1) <= t)
    && (i + 1 < |chunks| ==> t < Boundary(chunks, i))
  }

  /** The first chunk from `from` on whose core holds `t`. */
  function OwnerFrom(chunks: seq<Chunk>, from: nat, t: nat, otherwise: nat): (owner: nat)
    ensures owner == otherwise || (from <= owner < |chunks| && InCore(chunks, owner, t))
    ensures otherwise < |chunks| ==> owner < |chunks|
    decreases |chunks| - from
  {
    if from >= |chunks| then otherwise
    else if InCore(chunks, from, t) then from
    else OwnerFrom(chunks, from + 1, t, otherwise)
  }

  /** Whether the segment lies within the margin of an inner window edge. */
  predicate CutAt(chunks: seq<Chunk>, i: nat, segment: Draft, side: Side)
    requires i < |chunks|
  {
    match side
    case Left => i > 0 && segment.range.start < chunks[i].window.start + SEAM_EDGE
    case Right => i + 1 < |chunks| && segment.range.end + SEAM_EDGE > chunks[i].window.end
  }

  predicate Covers(chunks: seq<Chunk>, candidate: Id, segment: Draft, facing: Side)
    requires Valid(chunks, candidate)
  {
    && At(chunks, candidate).range.Holds(Midpoint(segment.range))
    && !CutAt(chunks, candidate.chunk, At(chunks, candidate), facing)
    && !ClaimsNoTime(chunks[candidate.chunk], candidate.position)
  }

  /** The segments of the neighbour that can stand for a segment cut at its edge. */
  function Covering(chunks: seq<Chunk>, neighbour: nat, segment: Draft, facing: Side): set<Id> {
    set c | c in AllIds(chunks) && c.chunk == neighbour && Covers(chunks, c, segment, facing)
  }

  function Owner(chunks: seq<Chunk>, id: Id): nat
    requires Valid(chunks, id)
  {
    OwnerFrom(chunks, 0, Midpoint(At(chunks, id).range), id.chunk)
  }

  /** Rule 2 for a segment in its own core: itself, or the neighbours' segments it is a cut copy of. */
  function KeptInCore(chunks: seq<Chunk>, id: Id): set<Id>
    requires Valid(chunks, id)
  {
    var segment := At(chunks, id);
    var left := CutAt(chunks, id.chunk, segment, Left);
    var right := CutAt(chunks, id.chunk, segment, Right);
    var before := if left then Covering(chunks, id.chunk - 1, segment, Right) else {};
    var after := if right then Covering(chunks, id.chunk + 1, segment, Left) else {};
    if (left || right) && (left ==> before != {}) && (right ==> after != {})
    then before + after
    else {id}
  }

  /** What rules 1 and 2 keep because of one segment: itself, its stand-ins, or nothing. */
  function KeptFor(chunks: seq<Chunk>, id: Id): set<Id>
    requires Valid(chunks, id)
  {
    var owner := Owner(chunks, id);
    if owner == id.chunk then KeptInCore(chunks, id)
    else if ClaimsTimeOver(chunks[owner], At(chunks, id)) then {}
    else {id}
  }

  /** Rules 1 and 2. */
  function KeptByRules(chunks: seq<Chunk>): set<Id> {
    set id | id in AllIds(chunks) && exists cause :: cause in AllIds(chunks) && id in KeptFor(chunks, cause)
  }

  // Order

  /** What a list of segments is sorted by. */
  datatype Key = Key(weight: int, range: TimeRange, id: Id)

  predicate Before(a: Key, b: Key) {
    || a.weight < b.weight
    || (a.weight == b.weight
        && (|| a.range.start < b.range.start
            || (a.range.start == b.range.start
                && (|| a.range.end < b.range.end
                    || (a.range.end == b.range.end
                        && (|| a.id.chunk < b.id.chunk
                            || (a.id.chunk == b.id.chunk && a.id.position < b.id.position)))))))
  }

  ghost predicate IsLeast(keys: set<Key>, least: Key) {
    least in keys && forall k :: k in keys ==> k == least || Before(least, k)
  }

  lemma {:induction false} LeastExists(keys: set<Key>) returns (least: Key)
    requires keys != {}
    ensures IsLeast(keys, least)
  {
    least :| least in keys;
    if keys != {least} {
      var rest := LeastExists(keys - {least});
      forall k | k in keys && k != least && k != rest ensures Before(rest, k) {
        assert k in keys - {least};
      }
      if Before(rest, least) {
        least := rest;
      } else {
        assert Before(least, rest);
      }
    }
  }

  ghost function Least(keys: set<Key>): (least: Key)
    requires keys != {}
    ensures IsLeast(keys, least)
  {
    assert exists least :: IsLeast(keys, least) by { var least := LeastExists(keys); }
    var least :| IsLeast(keys, least);
    least
  }

  ghost function Sorted(keys: set<Key>): (sorted: seq<Key>)
    ensures forall k :: k in sorted <==> k in keys
  {
    if keys == {} then [] else [Least(keys)] + Sorted(keys - {Least(keys)})
  }

  // The guard

  predicate Hears(chunks: seq<Chunk>, ids: set<Id>, t: nat) {
    exists id :: id in ids && Valid(chunks, id) && At(chunks, id).range.Holds(t)
  }

  /** No segment reaches past the horizon. */
  function Horizon(chunks: seq<Chunk>): (horizon: nat)
    ensures forall id :: Valid(chunks, id) ==> At(chunks, id).range.end <= horizon
  {
    if chunks == [] then 0
    else
      var last := |chunks| - 1;
      var before, own := Horizon(chunks[..last]), LastEnd(chunks[last].segments);
      assert forall id :: Valid(chunks, id) && id.chunk < last ==>
          Valid(chunks[..last], id) && At(chunks[..last], id) == At(chunks, id);
      if before < own then own else before
  }

  function LastEnd(segments: seq<Draft>): (end: nat)
    ensures forall s :: s in segments ==> s.range.end <= end
  {
    if segments == [] then 0
    else
      var rest := LastEnd(segments[1..]);
      if rest < segments[0].range.end then segments[0].range.end else rest
  }

  /** The instants the segments of `ids` cover. */
  function Covered(chunks: seq<Chunk>, ids: set<Id>): set<nat> {
    set t: nat | t < Horizon(chunks) && Hears(chunks, ids, t)
  }

  /** Everything any chunk heard, and its stretches: overlapping or touching segments joined. */
  function Union(chunks: seq<Chunk>): set<nat> { Covered(chunks, AllIds(chunks)) }

  function Stretches(chunks: seq<Chunk>): seq<Span> { Runs(Union(chunks), 0, Horizon(chunks)) }

  function Overlap(one: Span, other: Span): int {
    (if one.end < other.end then one.end else other.end) - (if one.start < other.start then other.start else one.start)
  }

  /** The dropped segments over a hole, to be sorted: the most overlapping first. */
  function Candidates(chunks: seq<Chunk>, kept: set<Id>, hole: Span): set<Key> {
    set id | id in AllIds(chunks) && id !in kept && At(chunks, id).range.Overlaps(hole)
      :: Key(-Overlap(At(chunks, id).range, hole), At(chunks, id).range, id)
  }

  /** Whether a gap of the hole longer than the tolerance is left under `range`. */
  predicate WideGapUnder(chunks: seq<Chunk>, kept: set<Id>, hole: Span, range: TimeRange) {
    exists g :: g in Gaps(Covered(chunks, kept), hole.start, hole.end)
      && g.Length() > SEAM_TOLERANCE && range.Overlaps(g)
  }

  /** Restores, in order, every candidate that a wide gap still needs. */
  function Restore(chunks: seq<Chunk>, kept: set<Id>, hole: Span, candidates: seq<Key>): set<Id>
    decreases |candidates|
  {
    if candidates == [] then kept
    else
      var next := candidates[0];
      Restore(chunks,
        if WideGapUnder(chunks, kept, hole, next.range) then kept + {next.id} else kept,
        hole, candidates[1..])
  }

  ghost function CloseHoles(chunks: seq<Chunk>, kept: set<Id>, holes: seq<Span>): set<Id>
    decreases |holes|
  {
    if holes == [] then kept
    else
      CloseHoles(chunks,
        if holes[0].Length() > SEAM_TOLERANCE
        then Restore(chunks, kept, holes[0], Sorted(Candidates(chunks, kept, holes[0])))
        else kept,
        holes[1..])
  }

  /** Closes the holes of each stretch in turn. */
  ghost function Guarded(chunks: seq<Chunk>, kept: set<Id>, stretches: seq<Span>): set<Id>
    decreases |stretches|
  {
    if stretches == [] then kept
    else
      var stretch := stretches[0];
      Guarded(chunks,
        CloseHoles(chunks, kept, Gaps(Covered(chunks, kept), stretch.start, stretch.end)),
        stretches[1..])
  }

  // Rule 3

  /** The kept segments by start, then end, then chunk, then provider order. */
  function Placed(chunks: seq<Chunk>, ids: set<Id>): set<Key> {
    set id | id in ids && Valid(chunks, id) :: Key(0, At(chunks, id).range, id)
  }

  function Drafts(chunks: seq<Chunk>, keys: seq<Key>): (ordered: seq<Merged>)
    requires forall k :: k in keys ==> Valid(chunks, k.id)
    ensures |ordered| == |keys|
    ensures forall i :: 0 <= i < |keys| ==> ordered[i] == Merged(keys[i].id.chunk, At(chunks, keys[i].id))
  {
    if keys == [] then [] else [Merged(keys[0].id.chunk, At(chunks, keys[0].id))] + Drafts(chunks, keys[1..])
  }

  predicate HearsInstead(ordered: seq<Merged>, except: nat, t: nat) {
    exists i :: 0 <= i < |ordered| && i != except && ordered[i].segment.range.Holds(t)
  }

  /** The instants of `[from, until)` that a segment other than `except` covers. */
  function CoveredInstead(ordered: seq<Merged>, except: nat, from: nat, until: nat): set<nat> {
    set t: nat | from <= t < until && HearsInstead(ordered, except, t)
  }

  /** Whether dropping the segment at `index` leaves a wide gap of the union under it. */
  predicate DroppingLeavesAHole(union: set<nat>, horizon: nat, ordered: seq<Merged>, index: nat)
    requires index < |ordered|
  {
    exists stretch, gap ::
      && stretch in Runs(union, 0, horizon)
      && stretch.Overlaps(ordered[index].segment.range)
      && gap in Gaps(CoveredInstead(ordered, index, stretch.start, stretch.end), stretch.start, stretch.end)
      && gap.Length() > SEAM_TOLERANCE
      && gap.Overlaps(ordered[index].segment.range)
  }

  datatype Judgement = Unrelated | Trimmed(text: Text) | Repeated

  /** What a segment of the next chunk is to one of the chunk before: nothing, a copy whose
      first words it repeats, or a copy that adds no word. */
  function Judge(earlier: Merged, later: Merged): Judgement {
    if earlier.chunk + 1 != later.chunk || !earlier.segment.range.Overlaps(later.segment.range) then Unrelated
    else
      var words := Folded(later.segment.text);
      var shared := SharedSeamWords(Folded(earlier.segment.text), words);
      if shared == 0 then Unrelated
      else
        var rest := WithoutLeadingWords(later.segment.text, shared);
        if shared < |words| && rest.Some? then Trimmed(rest.value) else Repeated
  }

  function WithText(m: Merged, text: Text): Merged { m.(segment := m.segment.(text := text)) }

  function Without(ordered: seq<Merged>, index: nat): seq<Merged>
    requires index < |ordered|
  {
    ordered[..index] + ordered[index + 1..]
  }

  datatype Compared = Compared(ordered: seq<Merged>, dropped: bool)

  /** Compares the segment at `later` with those of the chunk before its own, from the one at
      `earlier` on: trims the words it repeats, or drops it. */
  function Compare(union: set<nat>, horizon: nat, ordered: seq<Merged>, later: nat, earlier: nat): (c: Compared)
    requires later < |ordered|
    ensures |c.ordered| == if c.dropped then |ordered| - 1 else |ordered|
    decreases |ordered| - earlier
  {
    if earlier >= |ordered| then Compared(ordered, false)
    else
      match Judge(ordered[earlier], ordered[later])
      case Unrelated => Compare(union, horizon, ordered, later, earlier + 1)
      case Trimmed(text) =>
        Compare(union, horizon, ordered[later := WithText(ordered[later], text)], later, earlier + 1)
      case Repeated =>
        if DroppingLeavesAHole(union, horizon, ordered, later)
        then Compare(union, horizon, ordered, later, earlier + 1)
        else Compared(Without(ordered, later), true)
  }

  /** Rule 3 from the segment at `later` on. */
  function WithoutRepeats(union: set<nat>, horizon: nat, ordered: seq<Merged>, later: nat): seq<Merged>
    decreases |ordered| - later
  {
    if later >= |ordered| then ordered
    else
      var c := Compare(union, horizon, ordered, later, 0);
      WithoutRepeats(union, horizon, c.ordered, if c.dropped then later else later + 1)
  }

  ghost function Kept(chunks: seq<Chunk>): set<Id> {
    Guarded(chunks, KeptByRules(chunks), Stretches(chunks))
  }

  /** The merged transcript of the chunks, in plan order. */
  ghost function MergeChunks(chunks: seq<Chunk>): seq<Merged> {
    var keys := Sorted(Placed(chunks, Kept(chunks)));
    WithoutRepeats(Union(chunks), Horizon(chunks), Drafts(chunks, keys), 0)
  }
}
