/** The runner's record stream, and the pairing of its lines with a reference's. */
module OcrRunner {
  import opened Basics

  datatype Box = Box(x: int, y: int, width: nat, height: nat)
  datatype Line = Line(text: string, box: Box, confidence: int)

  // The record stream

  /** One record of a read: a line of an image, the end of an image with its line count, an image
      that could not be read, or anything else. */
  datatype Record = Greeting(valid: bool) | LineOf(image: nat, line: Line) | EndOf(image: nat, lines: nat)
    | ErrorOf(image: nat) | Other

  /** An image's lines, or `None` when it could not be read. */
  type Reading = Option<seq<Line>>

  function LinesOf(image: nat, lines: seq<Line>): seq<Record> {
    seq(|lines|, i requires 0 <= i < |lines| => LineOf(image, lines[i]))
  }

  /** What the runner writes for one image. */
  function WrittenImage(image: nat, reading: Reading): seq<Record> {
    if reading.None? then [ErrorOf(image)] else LinesOf(image, reading.value) + [EndOf(image, |reading.value|)]
  }

  function Written(readings: seq<Reading>): seq<Record> {
    if readings == [] then []
    else
      var n := |readings| - 1;
      Written(readings[..n]) + WrittenImage(n, readings[n])
  }

  datatype Reader = Reader(readings: seq<Reading>, current: seq<Line>) {
    /** The records a reader that has come this far has read. */
    function Read(): seq<Record> { Written(readings) + LinesOf(|readings|, current) }

    function Next(r: Record): Option<Reader> {
      match r
      case LineOf(image, line) => if image == |readings| then Some(this.(current := current + [line])) else None
      case EndOf(image, lines) =>
        if image == |readings| && lines == |current| then Some(Reader(readings + [Some(current)], [])) else None
      case ErrorOf(image) => if image == |readings| && current == [] then Some(Reader(readings + [None], [])) else None
      case _ => None
    }
  }

  /** Each step reads exactly the record it was given. */
  lemma NextReads(s: Reader, r: Record)
    requires s.Next(r).Some?
    ensures s.Next(r).value.Read() == s.Read() + [r]
  {
    var after := s.Next(r).value;
    match r
    case LineOf(image, line) =>
      assert LinesOf(|s.readings|, s.current + [line]) == LinesOf(|s.readings|, s.current) + [r];
    case EndOf(_, _) =>
      assert after.readings[..|s.readings|] == s.readings && LinesOf(|after.readings|, []) == [];
    case ErrorOf(_) =>
      assert after.readings[..|s.readings|] == s.readings
        && LinesOf(|after.readings|, []) == [] && LinesOf(|s.readings|, []) == [];
  }

  function ReadAll(s: Reader, records: seq<Record>): Option<Reader>
    decreases |records|
  {
    if records == [] then Some(s)
    else
      var before := ReadAll(s, records[..|records| - 1]);
      if before.None? then None else before.value.Next(records[|records| - 1])
  }

  const START := Reader([], [])

  lemma {:induction false} ReadAllOn(s: Reader, a: seq<Record>, b: seq<Record>)
    ensures ReadAll(s, a + b) == if ReadAll(s, a).None? then None else ReadAll(ReadAll(s, a).value, b)
    decreases |b|
  {
    if b == [] {
      assert a + b == a;
    } else {
      ReadAllOn(s, a, b[..|b| - 1]);
      assert (a + b)[..|a + b| - 1] == a + b[..|b| - 1];
    }
  }

  lemma {:induction false} LinesAreRead(s: Reader, lines: seq<Line>)
    ensures ReadAll(s, LinesOf(|s.readings|, lines)) == Some(s.(current := s.current + lines))
    decreases |lines|
  {
    if lines == [] {
      assert s.current + [] == s.current;
    } else {
      var n := |lines| - 1;
      LinesAreRead(s, lines[..n]);
      assert LinesOf(|s.readings|, lines)[..n] == LinesOf(|s.readings|, lines[..n]);
      assert s.current + lines[..n] + [lines[n]] == s.current + lines;
    }
  }

  lemma ImageIsRead(s: Reader, reading: Reading)
    requires s.current == []
    ensures ReadAll(s, WrittenImage(|s.readings|, reading)) == Some(Reader(s.readings + [reading], []))
  {
    if reading.Some? {
      LinesAreRead(s, reading.value);
      assert [] + reading.value == reading.value;
      ReadAllOn(s, LinesOf(|s.readings|, reading.value), [EndOf(|s.readings|, |reading.value|)]);
      assert [EndOf(|s.readings|, |reading.value|)][..0] == [];
    } else {
      assert [ErrorOf(|s.readings|)][..0] == [];
    }
  }

  lemma ReadFurther(a: seq<Record>, b: seq<Record>, between: Reader, after: Reader)
    requires ReadAll(START, a) == Some(between) && ReadAll(between, b) == Some(after)
    ensures ReadAll(START, a + b) == Some(after)
  {
    ReadAllOn(START, a, b);
  }

  /** What was written is read back. */
  lemma {:induction false} WrittenIsRead(readings: seq<Reading>)
    ensures ReadAll(START, Written(readings)) == Some(Reader(readings, []))
    decreases |readings|
  {
    if readings != [] {
      var n := |readings| - 1;
      WrittenIsRead(readings[..n]);
      ImageIsRead(Reader(readings[..n], []), readings[n]);
      assert readings[..n] + [readings[n]] == readings;
      var between, after := Reader(readings[..n], []), Reader(readings, []);
      ReadFurther(Written(readings[..n]), WrittenImage(n, readings[n]), between, after);
    }
  }

  /** The stream is a valid greeting, then what the runner writes for the readings. */
  ghost predicate IsStream(records: seq<Record>, readings: seq<Reading>) {
    records == [Greeting(true)] + Written(readings)
  }

  /** The readings of a stream, one per image: accepted exactly when the stream is a valid greeting
      and what the runner writes for those readings. */
  method ParseRead(records: seq<Record>, count: nat) returns (parsed: Option<seq<Reading>>)
    ensures parsed.Some? ==> IsStream(records, parsed.value) && |parsed.value| == count
    ensures forall readings :: |readings| == count && IsStream(records, readings) ==> parsed == Some(readings)
  {
    if records == [] || records[0] != Greeting(true) {
      return None;
    }
    var body := records[1..];
    var readings: seq<Reading>, current: seq<Line> := [], [];
    assert Written([]) + LinesOf(0, []) == [];
    for n := 0 to |body|
      invariant ReadAll(START, body[..n]) == Some(Reader(readings, current))
      invariant Reader(readings, current).Read() == body[..n]
    {
      var record := body[n];
      ghost var s := Reader(readings, current);
      OneRecordMore(body, n, s);
      NextCases(s, record);
      if record.LineOf? && record.image == |readings| {
        current := current + [record.line];
      } else if record.EndOf? && record.image == |readings| && record.lines == |current| {
        readings := readings + [Some(current)];
        current := [];
      } else if record.ErrorOf? && record.image == |readings| && current == [] {
        readings := readings + [None];
      } else {
        Unreadable(body, n, records);
        return None;
      }
    }
    assert body[..|body|] == body;
    StreamIsOver(body, records, Reader(readings, current));
    if |readings| != count || current != [] {
      return None;
    }
    parsed := Some(readings);
  }

  /** What a reader does with each kind of record. */
  lemma NextCases(s: Reader, r: Record)
    ensures r.LineOf? && r.image == |s.readings| ==> s.Next(r) == Some(s.(current := s.current + [r.line]))
    ensures r.EndOf? && r.image == |s.readings| && r.lines == |s.current| ==>
      s.Next(r) == Some(Reader(s.readings + [Some(s.current)], []))
    ensures r.ErrorOf? && r.image == |s.readings| && s.current == [] ==>
      s.Next(r) == Some(Reader(s.readings + [None], []))
    ensures
      || (r.LineOf? && r.image == |s.readings|)
      || (r.EndOf? && r.image == |s.readings| && r.lines == |s.current|)
      || (r.ErrorOf? && r.image == |s.readings| && s.current == [])
      || s.Next(r) == None
  {
  }

  lemma OneRecordMore(body: seq<Record>, n: nat, s: Reader)
    requires n < |body| && ReadAll(START, body[..n]) == Some(s) && s.Read() == body[..n]
    ensures ReadAll(START, body[..n + 1]) == s.Next(body[n])
    ensures s.Next(body[n]).Some? ==> s.Next(body[n]).value.Read() == body[..n + 1]
  {
    assert body[..n + 1] == body[..n] + [body[n]] && body[..n + 1][..n] == body[..n];
    if s.Next(body[n]).Some? { NextReads(s, body[n]); }
  }

  /** A stream that written readings are is read as those readings. */
  lemma AcceptedIsRead(body: seq<Record>, records: seq<Record>)
    requires records != [] && body == records[1..]
    ensures forall readings :: IsStream(records, readings) ==> ReadAll(START, body) == Some(Reader(readings, []))
  {
    forall readings | IsStream(records, readings) ensures ReadAll(START, body) == Some(Reader(readings, [])) {
      WrittenIsRead(readings);
      assert ([Greeting(true)] + Written(readings))[1..] == Written(readings);
    }
  }

  /** What a reader that took every record says of the stream. */
  lemma StreamIsOver(body: seq<Record>, records: seq<Record>, s: Reader)
    requires records != [] && body == records[1..] && records[0] == Greeting(true)
    requires ReadAll(START, body) == Some(s) && s.Read() == body
    ensures s.current == [] ==> IsStream(records, s.readings)
    ensures forall readings :: IsStream(records, readings) ==> s == Reader(readings, [])
  {
    AcceptedIsRead(body, records);
    assert LinesOf(|s.readings|, []) == [];
    assert records == [Greeting(true)] + body;
  }

  /** A stream with a record no reader can take is written by no readings. */
  lemma Unreadable(body: seq<Record>, n: nat, records: seq<Record>)
    requires records != [] && body == records[1..] && n < |body| && ReadAll(START, body[..n + 1]).None?
    ensures forall readings :: !IsStream(records, readings)
  {
    AcceptedIsRead(body, records);
    ReadAllOn(START, body[..n + 1], body[n + 1..]);
    assert body[..n + 1] + body[n + 1..] == body;
  }

  // Pairing

  function Lesser(a: int, b: int): int { if a < b then a else b }
  function Greater(a: int, b: int): int { if a < b then b else a }

  function Overlap(a: Box, b: Box): (inter: nat)
  {
    var w := Greater(0, Lesser(a.x + a.width, b.x + b.width) - Greater(a.x, b.x));
    var h := Greater(0, Lesser(a.y + a.height, b.y + b.height) - Greater(a.y, b.y));
    Product(w, h)
  }

  function Product(a: nat, b: nat): (p: nat) { a * b }

  function Union(a: Box, b: Box): int { a.width * a.height + b.width * b.height - Overlap(a, b) }

  /** Intersection over union of two boxes. */
  function Iou(a: Box, b: Box): real {
    if Union(a, b) > 0 then Overlap(a, b) as real / Union(a, b) as real else 0.0
  }

  lemma ProductGrows(a: nat, b: nat, c: nat, d: nat)
    requires a <= c && b <= d
    ensures a * b <= c * d
    ensures a * b == c * d > 0 ==> a == c && b == d
  {
    assert c * d - a * b == (c - a) * d + a * (d - b);
    assert (c - a) * d >= 0 && a * (d - b) >= 0;
    if a * b == c * d > 0 {
      assert (c - a) * d == 0 && a * (d - b) == 0;
    }
  }

  function Shared(from: int, length: nat, other: int, otherLength: nat): (n: nat)
    ensures n <= length && n <= otherLength
    ensures length > 0 && n == length && n == otherLength ==> from == other
  {
    Greater(0, Lesser(from + length, other + otherLength) - Greater(from, other))
  }

  lemma OverlapFits(a: Box, b: Box)
    ensures Overlap(a, b) <= a.width * a.height && Overlap(a, b) <= b.width * b.height && Overlap(a, b) == Overlap(b, a)
    ensures Overlap(a, b) == a.width * a.height == b.width * b.height > 0 ==> a == b
  {
    var w, h := Shared(a.x, a.width, b.x, b.width), Shared(a.y, a.height, b.y, b.height);
    assert Overlap(a, b) == w * h;
    ProductGrows(w, h, a.width, a.height);
    ProductGrows(w, h, b.width, b.height);
  }

  /** The measure is symmetric, between nought and one, and one only for the same box. */
  lemma IouIsASimilarity(a: Box, b: Box)
    ensures Iou(a, b) == Iou(b, a) && 0.0 <= Iou(a, b) <= 1.0
    ensures Iou(a, b) == 1.0 <==> a == b && a.width > 0 && a.height > 0
  {
    OverlapFits(a, b);
    var inter, union := Overlap(a, b), Union(a, b);
    assert 0 <= inter <= union;
    if union > 0 {
      Quotient(inter, union);
      if inter == union {
        assert a.width * a.height == inter && b.width * b.height == inter;
        PositiveSides(a);
      }
    }
    if a == b && a.width > 0 && a.height > 0 {
      SameBoxOverlaps(a);
    }
  }

  lemma Quotient(m: nat, n: nat)
    requires m <= n && n > 0
    ensures 0.0 <= m as real / n as real <= 1.0
    ensures m as real / n as real == 1.0 <==> m == n
  {
  }

  lemma PositiveSides(a: Box)
    requires a.width * a.height > 0
    ensures a.width > 0 && a.height > 0
  {
  }

  lemma SameBoxOverlaps(a: Box)
    requires a.width > 0 && a.height > 0
    ensures Overlap(a, a) == a.width * a.height > 0 && Union(a, a) == Overlap(a, a)
  {
    ProductGrows(1, 1, a.width, a.height);
    assert Overlap(a, a) == Product(a.width, a.height);
  }

  /** A point of a box, by its two coordinates. */
  datatype Point = Point(x: int, y: int)

  function Points(x: int, y: int, width: nat, height: nat): set<Point> {
    set i, j | x <= i < x + width && y <= j < y + height :: Point(i, j)
  }

  function PointsOf(b: Box): set<Point> { Points(b.x, b.y, b.width, b.height) }

  lemma {:induction false} ColumnHasPoints(x: int, y: int, height: nat)
    ensures |Points(x, y, 1, height)| == height
    decreases height
  {
    if height == 0 {
      assert Points(x, y, 1, 0) == {};
    } else {
      ColumnHasPoints(x, y, height - 1);
      assert Points(x, y, 1, height) == Points(x, y, 1, height - 1) + {Point(x, y + height - 1)};
    }
  }

  lemma {:induction false} BoxHasPoints(x: int, y: int, width: nat, height: nat)
    ensures |Points(x, y, width, height)| == width * height
    decreases width
  {
    if width == 0 {
      assert Points(x, y, 0, height) == {};
    } else {
      var before, last := Points(x, y, width - 1, height), Points(x + width - 1, y, 1, height);
      BoxHasPoints(x, y, width - 1, height);
      ColumnHasPoints(x + width - 1, y, height);
      assert Points(x, y, width, height) == before + last && before !! last;
      assert (width - 1) * height + height == width * height;
    }
  }

  /** The points of two boxes that overlap are those of a box. */
  lemma SharedPoints(a: Box, b: Box)
    ensures |PointsOf(a) * PointsOf(b)| == Overlap(a, b)
  {
    var x, y := Greater(a.x, b.x), Greater(a.y, b.y);
    var w := Greater(0, Lesser(a.x + a.width, b.x + b.width) - x);
    var h := Greater(0, Lesser(a.y + a.height, b.y + b.height) - y);
    assert PointsOf(a) * PointsOf(b) == Points(x, y, w, h);
    BoxHasPoints(x, y, w, h);
  }

  /** The measure is how many points the boxes share, of those that are in either. */
  lemma IouCountsPoints(a: Box, b: Box)
    ensures var both, either := PointsOf(a) * PointsOf(b), PointsOf(a) + PointsOf(b);
      Iou(a, b) == if either == {} then 0.0 else |both| as real / |either| as real
  {
    BoxHasPoints(a.x, a.y, a.width, a.height);
    BoxHasPoints(b.x, b.y, b.width, b.height);
    SharedPoints(a, b);
    assert |PointsOf(a) + PointsOf(b)| == Union(a, b);
  }

  /** For each reference line the runner's line it is paired with, if any. */
  type Pairs = seq<Option<nat>>

  function Used(pairs: Pairs): set<nat> { set i | 0 <= i < |pairs| && pairs[i].Some? :: pairs[i].value }

  function Paired(pairs: Pairs): nat {
    if pairs == [] then 0 else Paired(pairs[..|pairs| - 1]) + if pairs[|pairs| - 1].Some? then 1 else 0
  }

  ghost predicate Injective(pairs: Pairs) {
    forall i, j :: 0 <= i < j < |pairs| && pairs[i].Some? && pairs[j].Some? ==> pairs[i].value != pairs[j].value
  }

  datatype Tie = FirstOfEquals | LastOfEquals

  /** The line's pair is the runner's line, of those not used before, that it overlaps most, and at
      least the threshold; it has none only when none of them reaches that. */
  ghost predicate IsBest(line: Line, runner: seq<Line>, used: set<nat>, threshold: real, tie: Tie, pair: Option<nat>) {
    match pair
    case None => forall k :: 0 <= k < |runner| && k !in used ==> Iou(line.box, runner[k].box) < threshold
    case Some(best) =>
      && best < |runner| && best !in used && Iou(line.box, runner[best].box) >= threshold
      && forall k :: 0 <= k < |runner| && k !in used && k != best ==>
          Iou(line.box, runner[k].box) < Iou(line.box, runner[best].box)
          || (Iou(line.box, runner[k].box) == Iou(line.box, runner[best].box) && (k < best <==> tie.LastOfEquals?))
  }

  /** Each reference line, in order, takes the best of what those before it left. */
  ghost predicate IsGreedy(reference: seq<Line>, runner: seq<Line>, threshold: real, tie: Tie, pairs: Pairs) {
    |pairs| == |reference| && forall i :: 0 <= i < |pairs| ==>
      IsBest(reference[i], runner, Used(pairs[..i]), threshold, tie, pairs[i])
  }

  /** Finds the unused runner line that a reference line overlaps most, the last of equals. */
  method Best(line: Line, runner: seq<Line>, used: set<nat>, threshold: real) returns (best: Option<nat>)
    ensures IsBest(line, runner, used, threshold, LastOfEquals, best)
  {
    best := None;
    var bestIou := threshold;
    for k := 0 to |runner|
      invariant best.Some? ==>
        best.value < k && best.value !in used && bestIou == Iou(line.box, runner[best.value].box) >= threshold
      invariant best.None? ==> bestIou == threshold
      invariant forall j :: 0 <= j < k && j !in used && Some(j) != best ==>
        Iou(line.box, runner[j].box) < bestIou
        || (best.Some? && Iou(line.box, runner[j].box) == bestIou && j < best.value)
    {
      if k !in used {
        var overlap := Iou(line.box, runner[k].box);
        if overlap >= bestIou {
          best, bestIou := Some(k), overlap;
        }
      }
    }
  }

  lemma OnePairMore(pairs: Pairs, pair: Option<nat>)
    ensures Used(pairs + [pair]) == Used(pairs) + (if pair.Some? then {pair.value} else {})
    ensures Paired(pairs + [pair]) == Paired(pairs) + if pair.Some? then 1 else 0
    ensures Injective(pairs) && (pair.Some? ==> pair.value !in Used(pairs)) ==> Injective(pairs + [pair])
  {
    var more := pairs + [pair];
    assert more[..|pairs|] == pairs && more[|pairs|] == pair;
    forall i | 0 <= i < |pairs| && pairs[i].Some? ensures pairs[i].value in Used(more) { assert more[i] == pairs[i]; }
    if pair.Some? { assert more[|pairs|].value in Used(more); }
  }

  lemma GreedyMore(
      reference: seq<Line>, runner: seq<Line>, threshold: real, tie: Tie, pairs: Pairs, pair: Option<nat>)
    requires |pairs| < |reference| && IsGreedy(reference[..|pairs|], runner, threshold, tie, pairs)
    requires IsBest(reference[|pairs|], runner, Used(pairs), threshold, tie, pair)
    ensures IsGreedy(reference[..|pairs| + 1], runner, threshold, tie, pairs + [pair])
  {
    var more, n := pairs + [pair], |pairs|;
    forall i | 0 <= i <= n ensures IsBest(reference[..n + 1][i], runner, Used(more[..i]), threshold, tie, more[i]) {
      assert more[..i] == pairs[..i];
      if i == n { assert pairs[..n] == pairs; }
    }
  }

  /** How far a frame's pairing has come. */
  ghost predicate IsPairing(
      reference: seq<Line>, i: nat, runner: seq<Line>, threshold: real, tie: Tie, pairs: Pairs, used: set<nat>) {
    && i <= |reference| && IsGreedy(reference[..i], runner, threshold, tie, pairs) && Injective(pairs)
    && used == Used(pairs) && forall k :: k in used ==> k < |runner|
  }

  lemma PairingMore(
      reference: seq<Line>, i: nat, runner: seq<Line>, threshold: real, tie: Tie, pairs: Pairs, used: set<nat>,
      best: Option<nat>)
    requires i < |reference| && IsPairing(reference, i, runner, threshold, tie, pairs, used)
    requires IsBest(reference[i], runner, used, threshold, tie, best)
    ensures IsPairing(reference, i + 1, runner, threshold, tie, pairs + [best],
      if best.Some? then used + {best.value} else used)
    ensures Paired(pairs + [best]) == Paired(pairs) + if best.Some? then 1 else 0
  {
    GreedyMore(reference, runner, threshold, tie, pairs, best);
    OnePairMore(pairs, best);
  }

  lemma PairingIsOver(
      reference: seq<Line>, runner: seq<Line>, threshold: real, tie: Tie, pairs: Pairs, used: set<nat>)
    requires IsPairing(reference, |reference|, runner, threshold, tie, pairs, used)
    ensures IsGreedy(reference, runner, threshold, tie, pairs) && Injective(pairs)
    ensures |used| == Paired(pairs) <= |reference| && |used| <= |runner|
  {
    assert reference[..|reference|] == reference;
    PairsCountUsed(pairs);
    UsedFit(used, |runner|);
  }

  /** Every used line is some pair's, and no pair shares one. */
  lemma {:induction false} PairsCountUsed(pairs: Pairs)
    requires Injective(pairs)
    ensures |Used(pairs)| == Paired(pairs) <= |pairs|
    decreases |pairs|
  {
    if pairs != [] {
      var init, last := pairs[..|pairs| - 1], pairs[|pairs| - 1];
      PairsCountUsed(init);
      assert pairs == init + [last];
      OnePairMore(init, last);
    }
  }

  lemma UsedFit(used: set<nat>, n: nat)
    requires forall k :: k in used ==> k < n
    ensures |used| <= n
    decreases n
  {
    if n > 0 {
      UsedFit(used - {n - 1}, n - 1);
      if n - 1 in used { assert |used| == |used - {n - 1}| + 1; } else { assert used - {n - 1} == used; }
    } else {
      assert used == {};
    }
  }

  /** There is one way to pair. */
  lemma OnePairing(
      reference: seq<Line>, runner: seq<Line>, threshold: real, tie: Tie, pairs: Pairs, others: Pairs)
    requires IsGreedy(reference, runner, threshold, tie, pairs) && IsGreedy(reference, runner, threshold, tie, others)
    ensures pairs == others
  {
    SamePairs(reference, runner, threshold, tie, pairs, others, |reference|);
    assert pairs[..|reference|] == pairs && others[..|reference|] == others;
  }

  lemma {:induction false} SamePairs(
      reference: seq<Line>, runner: seq<Line>, threshold: real, tie: Tie, pairs: Pairs, others: Pairs, n: nat)
    requires IsGreedy(reference, runner, threshold, tie, pairs) && IsGreedy(reference, runner, threshold, tie, others)
    requires n <= |reference|
    ensures pairs[..n] == others[..n]
  {
    if n > 0 {
      SamePairs(reference, runner, threshold, tie, pairs, others, n - 1);
      SamePair(reference, runner, threshold, tie, pairs, others, n - 1);
    }
  }

  lemma SamePair(
      reference: seq<Line>, runner: seq<Line>, threshold: real, tie: Tie, pairs: Pairs, others: Pairs, i: nat)
    requires i < |reference| == |pairs| == |others| && pairs[..i] == others[..i]
    requires IsBest(reference[i], runner, Used(pairs[..i]), threshold, tie, pairs[i])
    requires IsBest(reference[i], runner, Used(others[..i]), threshold, tie, others[i])
    ensures pairs[..i + 1] == others[..i + 1]
  {
    OneBest(reference[i], runner, Used(pairs[..i]), threshold, tie, pairs[i], others[i]);
    assert pairs[..i + 1] == pairs[..i] + [pairs[i]] && others[..i + 1] == others[..i] + [others[i]];
  }

  lemma OneBest(
      line: Line, runner: seq<Line>, used: set<nat>, threshold: real, tie: Tie, a: Option<nat>, b: Option<nat>)
    requires IsBest(line, runner, used, threshold, tie, a) && IsBest(line, runner, used, threshold, tie, b)
    ensures a == b
  {
  }

  datatype Parity = Parity(referenceLines: nat, runnerLines: nat, paired: nat, textEqual: nat, unpairedRunner: nat)

  /** The pairs whose two texts are the same. */
  ghost function EqualOnes(
      reference: seq<Line>, runner: seq<Line>, pairs: Pairs, same: (string, string) -> bool): set<nat>
    requires |pairs| <= |reference|
  {
    set i | 0 <= i < |pairs| && pairs[i].Some? && pairs[i].value < |runner|
      && same(reference[i].text, runner[pairs[i].value].text)
  }

  lemma EqualMore(
      reference: seq<Line>, runner: seq<Line>, pairs: Pairs, same: (string, string) -> bool, pair: Option<nat>)
    requires |pairs| < |reference| && (pair.Some? ==> pair.value < |runner|)
    ensures |EqualOnes(reference, runner, pairs + [pair], same)| == |EqualOnes(reference, runner, pairs, same)|
      + if pair.Some? && same(reference[|pairs|].text, runner[pair.value].text) then 1 else 0
  {
    var n, more := |pairs|, pairs + [pair];
    var now := if pair.Some? && same(reference[n].text, runner[pair.value].text) then {n} else {};
    assert forall i :: 0 <= i < n ==> more[i] == pairs[i];
    assert EqualOnes(reference, runner, more, same) == EqualOnes(reference, runner, pairs, same) + now;
  }

  /** Pairs each reference line greedily, and counts. */
  method ParityOfFrame(reference: seq<Line>, runner: seq<Line>, threshold: real, same: (string, string) -> bool)
      returns (p: Parity, pairs: Pairs)
    ensures IsGreedy(reference, runner, threshold, LastOfEquals, pairs) && Injective(pairs)
    ensures p.referenceLines == |reference| && p.runnerLines == |runner| && p.paired == Paired(pairs)
    ensures p.textEqual == |EqualOnes(reference, runner, pairs, same)|
    ensures p.paired <= |reference| && p.paired + p.unpairedRunner == |runner|
  {
    var used: set<nat> := {};
    var paired, equal := 0, 0;
    pairs := [];
    for i := 0 to |reference|
      invariant IsPairing(reference, i, runner, threshold, LastOfEquals, pairs, used)
      invariant paired == Paired(pairs) && equal == |EqualOnes(reference, runner, pairs, same)|
    {
      var best := Best(reference[i], runner, used, threshold);
      PairingMore(reference, i, runner, threshold, LastOfEquals, pairs, used, best);
      EqualMore(reference, runner, pairs, same, best);
      pairs := pairs + [best];
      if best.Some? {
        used := used + {best.value};
        paired := paired + 1;
        if same(reference[i].text, runner[best.value].text) {
          equal := equal + 1;
        }
      }
    }
    PairingIsOver(reference, runner, threshold, LastOfEquals, pairs, used);
    p := Parity(|reference|, |runner|, paired, equal, |runner| - |used|);
  }

  // What became of each line

  datatype Outcome = Equal | CaseOrSpace | Shorter | Longer | Near | Far | UnpairedOverlapping | UnpairedMissed
    | RunnerOnly

  /** The counts of one comparison, over all its frames. */
  class Tally {
    var outcomes: multiset<Outcome>

    constructor ()
      ensures outcomes == multiset{}
    {
      outcomes := multiset{};
    }

    method Add(kind: Outcome, times: nat)
      modifies this
      ensures outcomes == old(outcomes)[kind := old(outcomes)[kind] + times]
    {
      outcomes := outcomes[kind := outcomes[kind] + times];
    }
  }

  /** What becomes of a reference line: the difference to its pair, or whether it overlaps at all
      what those before it left. */
  ghost function OutcomeOf(
      line: Line, runner: seq<Line>, used: set<nat>, pair: Option<nat>, difference: (string, string) -> Outcome):
      Outcome
    requires pair.Some? ==> pair.value < |runner|
  {
    match pair
    case Some(k) => difference(line.text, runner[k].text)
    case None =>
      if exists k :: 0 <= k < |runner| && k !in used && Iou(line.box, runner[k].box) > 0.0
        then UnpairedOverlapping else UnpairedMissed
  }

  ghost predicate PairsFit(runner: seq<Line>, pairs: Pairs) {
    forall i :: 0 <= i < |pairs| && pairs[i].Some? ==> pairs[i].value < |runner|
  }

  /** The outcomes of the reference lines, in order. */
  ghost function OutcomesOf(
      reference: seq<Line>, runner: seq<Line>, pairs: Pairs, difference: (string, string) -> Outcome):
      (outcomes: seq<Outcome>)
    requires |pairs| <= |reference| && PairsFit(runner, pairs)
    ensures |outcomes| == |pairs|
  {
    seq(|pairs|, i requires 0 <= i < |pairs| =>
      OutcomeOf(reference[i], runner, Used(pairs[..i]), pairs[i], difference))
  }

  lemma OutcomesMore(
      reference: seq<Line>, runner: seq<Line>, pairs: Pairs, difference: (string, string) -> Outcome,
      pair: Option<nat>)
    requires |pairs| < |reference| && PairsFit(runner, pairs) && (pair.Some? ==> pair.value < |runner|)
    ensures PairsFit(runner, pairs + [pair])
    ensures OutcomesOf(reference, runner, pairs + [pair], difference)
      == OutcomesOf(reference, runner, pairs, difference)
        + [OutcomeOf(reference[|pairs|], runner, Used(pairs), pair, difference)]
  {
    var more := pairs + [pair];
    assert more[..|pairs|] == pairs;
    assert forall i :: 0 <= i < |pairs| ==> more[i] == pairs[i] && more[..i] == pairs[..i];
  }

  /** The lines reported as missed, overlapping or not, are those without a pair. */
  lemma {:induction false} MissedAreUnpaired(
      reference: seq<Line>, runner: seq<Line>, pairs: Pairs, difference: (string, string) -> Outcome)
    requires |pairs| <= |reference| && PairsFit(runner, pairs)
    requires forall a, b :: difference(a, b) !in {UnpairedOverlapping, UnpairedMissed}
    ensures var outcomes := multiset(OutcomesOf(reference, runner, pairs, difference));
      outcomes[UnpairedOverlapping] + outcomes[UnpairedMissed] == |pairs| - Paired(pairs)
    decreases |pairs|
  {
    if pairs != [] {
      var n := |pairs| - 1;
      MissedAreUnpaired(reference, runner, pairs[..n], difference);
      OutcomesMore(reference, runner, pairs[..n], difference, pairs[n]);
      assert pairs == pairs[..n] + [pairs[n]];
    }
  }

  /** The unused runner line a reference line overlaps most, the first of equals, at all. */
  method BestAtAll(line: Line, runner: seq<Line>, used: set<nat>) returns (best: Option<nat>, bestIou: real)
    ensures best.Some? ==>
      best.value < |runner| && best.value !in used && bestIou == Iou(line.box, runner[best.value].box) > 0.0
    ensures best.None? ==> bestIou == 0.0
    ensures forall k :: 0 <= k < |runner| && k !in used && Some(k) != best ==>
      Iou(line.box, runner[k].box) < bestIou
      || (Iou(line.box, runner[k].box) == bestIou && (best.Some? ==> best.value < k))
  {
    best, bestIou := None, 0.0;
    for k := 0 to |runner|
      invariant best.Some? ==>
        best.value < k && best.value !in used && bestIou == Iou(line.box, runner[best.value].box) > 0.0
      invariant best.None? ==> bestIou == 0.0
      invariant forall j :: 0 <= j < k && j !in used && Some(j) != best ==>
        Iou(line.box, runner[j].box) < bestIou
        || (Iou(line.box, runner[j].box) == bestIou && (best.Some? ==> best.value < j))
    {
      if k !in used {
        var overlap := Iou(line.box, runner[k].box);
        if overlap > bestIou {
          best, bestIou := Some(k), overlap;
        }
      }
    }
  }

  /** Tallies what became of one reference line. */
  method DiagnoseLine(
      line: Line, runner: seq<Line>, used: set<nat>, threshold: real, difference: (string, string) -> Outcome,
      tally: Tally)
      returns (pair: Option<nat>)
    requires threshold > 0.0
    modifies tally
    ensures IsBest(line, runner, used, threshold, FirstOfEquals, pair)
    ensures tally.outcomes == old(tally.outcomes) + multiset{OutcomeOf(line, runner, used, pair, difference)}
  {
    var best, bestIou := BestAtAll(line, runner, used);
    if best.None? || bestIou < threshold {
      tally.Add(if best.Some? then UnpairedOverlapping else UnpairedMissed, 1);
      return None;
    }
    tally.Add(difference(line.text, runner[best.value].text), 1);
    return best;
  }

  /** Tallies one frame: every reference line has its one outcome, and every runner line left is the
      runner's alone. */
  method DiagnoseFrame(
      reference: seq<Line>, runner: seq<Line>, threshold: real, difference: (string, string) -> Outcome, tally: Tally)
      returns (pairs: Pairs)
    requires threshold > 0.0
    modifies tally
    ensures IsGreedy(reference, runner, threshold, FirstOfEquals, pairs) && Injective(pairs)
    ensures PairsFit(runner, pairs) && Paired(pairs) <= |runner|
    ensures tally.outcomes == old(tally.outcomes) + multiset(OutcomesOf(reference, runner, pairs, difference))
      + multiset{}[RunnerOnly := |runner| - Paired(pairs)]
    ensures |tally.outcomes| == |old(tally.outcomes)| + |reference| + (|runner| - Paired(pairs))
  {
    var used: set<nat> := {};
    pairs := [];
    for i := 0 to |reference|
      invariant IsPairing(reference, i, runner, threshold, FirstOfEquals, pairs, used) && PairsFit(runner, pairs)
      invariant tally.outcomes == old(tally.outcomes) + multiset(OutcomesOf(reference, runner, pairs, difference))
    {
      var pair := DiagnoseLine(reference[i], runner, used, threshold, difference, tally);
      PairingMore(reference, i, runner, threshold, FirstOfEquals, pairs, used, pair);
      OutcomesMore(reference, runner, pairs, difference, pair);
      pairs := pairs + [pair];
      if pair.Some? {
        used := used + {pair.value};
      }
    }
    PairingIsOver(reference, runner, threshold, FirstOfEquals, pairs, used);
    tally.Add(RunnerOnly, |runner| - |used|);
  }
}
