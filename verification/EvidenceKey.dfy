/** The text an evidence request and an evidence item are named by. */
module EvidenceKey {
  import opened Basics
  import opened Decimals
  import opened TextParts

  /** What the keys need of an identifier or digest; `IdentifiersAreValid` shows that each has it. */
  predicate ValidText(text: string) {
    '\n' !in text && text != "none"
  }

  predicate IsPlain(c: char) { 'a' <= c <= 'z' || '0' <= c <= '9' }

  /** An opaque identifier as its parser accepts it. */
  predicate IsIdentifier(text: string, prefix: string) {
    prefix <= text && 16 <= |text| - |prefix| <= 64 && forall i :: |prefix| <= i < |text| ==> IsPlain(text[i])
  }

  lemma IdentifiersAreValid(text: string, prefix: string)
    requires IsIdentifier(text, prefix) && '\n' !in prefix
    ensures ValidText(text)
  {
    forall i | 0 <= i < |text| ensures text[i] != '\n' {
      if i < |prefix| { assert text[i] == prefix[i]; }
    }
  }

  /** The adapter profile has one value. */
  datatype Scope = Scope(session: string, source: string, fingerprint: Option<string>)

  datatype Selection = AtOrAfter | DisplayedAt
  datatype Rect = Rect(x: nat, y: nat, width: nat, height: nat)

  datatype Request =
    | FrameAt(at: nat, selection: Selection, tolerance: nat, candidate: Option<string>)
    | Neighbours(anchor: string, count: nat)
    | Burst(from: nat, to: nat, maxFrames: nat)
    | Crop(parent: string, rect: Rect)
    | Audio(from: nat, to: nat)

  predicate ValidScope(s: Scope) {
    ValidText(s.session) && ValidText(s.source) && (s.fingerprint.Some? ==> ValidText(s.fingerprint.value))
  }

  predicate ValidRequest(r: Request) {
    match r
    case FrameAt(_, _, _, candidate) => candidate.Some? ==> ValidText(candidate.value)
    case Neighbours(anchor, _) => ValidText(anchor)
    case Crop(parent, _) => ValidText(parent)
    case _ => true
  }

  function OrNone(text: Option<string>): string { if text.None? then "none" else text.value }

  function StreamSelector(r: Request): string {
    if r.Audio? then "audio:speech_default" else "video:first_decodable"
  }

  function Operation(r: Request): string {
    match r
    case FrameAt(_, _, _, _) => "frame_get"
    case Neighbours(_, _) => "frame_neighbours"
    case Burst(_, _, _) => "frame_burst"
    case Crop(_, _) => "crop"
    case Audio(_, _) => "audio"
  }

  function Policy(s: Selection): string { if s.AtOrAfter? then "at_or_after" else "displayed_at" }

  function RectText(r: Rect): string {
    Join([Printed(r.x), Printed(r.y), Printed(r.width), Printed(r.height)], ',')
  }

  function CanonicalParameters(r: Request): seq<string> {
    match r
    case FrameAt(at, selection, tolerance, candidate) =>
      ["at_us=" + Printed(at), "policy=" + Policy(selection),
        "tolerance_us=" + Printed(tolerance), "candidate=" + OrNone(candidate)]
    case Neighbours(anchor, count) => ["anchor=" + anchor, "count=" + Printed(count)]
    case Burst(from, to, maxFrames) =>
      ["from_us=" + Printed(from), "to_us=" + Printed(to), "max_frames=" + Printed(maxFrames)]
    case Crop(parent, rect) => ["parent=" + parent, "rect=" + RectText(rect)]
    case Audio(from, to) => ["from_us=" + Printed(from), "to_us=" + Printed(to)]
  }

  const REQUEST_DOMAIN := "vsift.evidence-request.v1"
  const PROFILE := "p09-r0-v1"

  function Lines(s: Scope, r: Request): seq<string> {
    [REQUEST_DOMAIN, s.session, s.source, StreamSelector(r), Operation(r)]
      + CanonicalParameters(r) + [PROFILE, OrNone(s.fingerprint)]
  }

  /** Builds the text whose digest is the request key, line after line. */
  method RequestMaterial(s: Scope, r: Request) returns (material: string)
    ensures material == Join(Lines(s, r), '\n')
  {
    material := REQUEST_DOMAIN;
    ghost var lines := [REQUEST_DOMAIN];
    var first, parameters, last :=
      [s.session, s.source, StreamSelector(r), Operation(r)], CanonicalParameters(r), [PROFILE, OrNone(s.fingerprint)];
    material := Pushed(material, first, lines);
    material := Pushed(material, parameters, lines + first);
    material := Pushed(material, last, lines + first + parameters);
    assert lines + first == [REQUEST_DOMAIN, s.session, s.source, StreamSelector(r), Operation(r)];
  }

  /** The material with each line pushed after a line break. */
  method Pushed(material: string, lines: seq<string>, ghost before: seq<string>) returns (longer: string)
    requires before != [] && material == Join(before, '\n')
    ensures longer == Join(before + lines, '\n')
  {
    longer := material;
    assert before + lines[..0] == before;
    for n := 0 to |lines|
      invariant longer == Join(before + lines[..n], '\n')
    {
      JoinMore(before + lines[..n], lines[n], '\n');
      assert before + lines[..n + 1] == before + lines[..n] + [lines[n]];
      longer := longer + ['\n'];
      longer := longer + lines[n];
    }
    assert lines[..|lines|] == lines;
  }

  // Nothing of a request is lost

  lemma NumbersAreFree(n: nat)
    ensures '\n' !in Printed(n) && ',' !in Printed(n) && '/' !in Printed(n)
  {
    assert AllDigits(Printed(n));
  }

  lemma RectTextIsInjective(a: Rect, b: Rect)
    requires RectText(a) == RectText(b)
    ensures a == b
  {
    var x, y :=
      [Printed(a.x), Printed(a.y), Printed(a.width), Printed(a.height)],
      [Printed(b.x), Printed(b.y), Printed(b.width), Printed(b.height)];
    RectPartsAreFree(a);
    RectPartsAreFree(b);
    JoinIsInjective(x, y, ',');
    assert x[0] == y[0] && x[1] == y[1] && x[2] == y[2] && x[3] == y[3];
    PrintedIsInjective(a.x, b.x);
    PrintedIsInjective(a.y, b.y);
    PrintedIsInjective(a.width, b.width);
    PrintedIsInjective(a.height, b.height);
  }

  lemma RectPartsAreFree(r: Rect)
    ensures Free([Printed(r.x), Printed(r.y), Printed(r.width), Printed(r.height)], ',')
  {
    NumbersAreFree(r.x);
    NumbersAreFree(r.y);
    NumbersAreFree(r.width);
    NumbersAreFree(r.height);
  }

  lemma {:induction false} JoinHolds(parts: seq<string>, sep: char, c: char)
    requires parts != [] && c != sep && forall i :: 0 <= i < |parts| ==> c !in parts[i]
    ensures c !in Join(parts, sep)
  {
    if |parts| > 1 { JoinHolds(parts[1..], sep, c); }
  }

  lemma RectTextIsFree(r: Rect)
    ensures '\n' !in RectText(r)
  {
    NumbersAreFree(r.x);
    NumbersAreFree(r.y);
    NumbersAreFree(r.width);
    NumbersAreFree(r.height);
    JoinHolds([Printed(r.x), Printed(r.y), Printed(r.width), Printed(r.height)], ',', '\n');
  }

  lemma AfterName(name: string, a: string, b: string)
    requires name + a == name + b
    ensures a == b
  {
    assert (name + a)[|name|..] == a && (name + b)[|name|..] == b;
  }

  lemma OrNoneIsInjective(a: Option<string>, b: Option<string>)
    requires OrNone(a) == OrNone(b) && (a.Some? ==> ValidText(a.value)) && (b.Some? ==> ValidText(b.value))
    ensures a == b
  {
  }

  lemma ParametersAreFree(r: Request)
    requires ValidRequest(r)
    ensures Free(CanonicalParameters(r), '\n')
  {
    match r
    case FrameAt(at, selection, tolerance, candidate) =>
      NumbersAreFree(at);
      NumbersAreFree(tolerance);
    case Neighbours(anchor, count) =>
      NumbersAreFree(count);
    case Burst(from, to, maxFrames) =>
      NumbersAreFree(from);
      NumbersAreFree(to);
      NumbersAreFree(maxFrames);
    case Crop(parent, rect) =>
      RectTextIsFree(rect);
    case Audio(from, to) =>
      NumbersAreFree(from);
      NumbersAreFree(to);
  }

  /** Requests of one operation with the same parameter lines are the same. */
  lemma ParametersAreInjective(a: Request, b: Request)
    requires ValidRequest(a) && ValidRequest(b) && Operation(a) == Operation(b)
      && CanonicalParameters(a) == CanonicalParameters(b)
    ensures a == b
  {
    SameOperation(a, b);
    var x, y := CanonicalParameters(a), CanonicalParameters(b);
    assert |x| >= 2 && x[0] == y[0] && x[1] == y[1] && x[|x| - 1] == y[|y| - 1];
    match a
    case FrameAt(at, selection, tolerance, candidate) =>
      assert x[2] == y[2];
      AfterName("at_us=", Printed(at), Printed(b.at));
      AfterName("policy=", Policy(selection), Policy(b.selection));
      assert Policy(AtOrAfter)[0] != Policy(DisplayedAt)[0];
      AfterName("tolerance_us=", Printed(tolerance), Printed(b.tolerance));
      AfterName("candidate=", OrNone(candidate), OrNone(b.candidate));
      PrintedIsInjective(at, b.at);
      PrintedIsInjective(tolerance, b.tolerance);
      OrNoneIsInjective(candidate, b.candidate);
    case Neighbours(anchor, count) =>
      AfterName("anchor=", anchor, b.anchor);
      AfterName("count=", Printed(count), Printed(b.count));
      PrintedIsInjective(count, b.count);
    case Burst(from, to, maxFrames) =>
      AfterName("from_us=", Printed(from), Printed(b.from));
      AfterName("to_us=", Printed(to), Printed(b.to));
      AfterName("max_frames=", Printed(maxFrames), Printed(b.maxFrames));
      PrintedIsInjective(from, b.from);
      PrintedIsInjective(to, b.to);
      PrintedIsInjective(maxFrames, b.maxFrames);
    case Crop(parent, rect) =>
      AfterName("parent=", parent, b.parent);
      AfterName("rect=", RectText(rect), RectText(b.rect));
      RectTextIsInjective(rect, b.rect);
    case Audio(from, to) =>
      AfterName("from_us=", Printed(from), Printed(b.from));
      AfterName("to_us=", Printed(to), Printed(b.to));
      PrintedIsInjective(from, b.from);
      PrintedIsInjective(to, b.to);
  }

  lemma SameOperation(a: Request, b: Request)
    requires Operation(a) == Operation(b)
    ensures a.FrameAt? == b.FrameAt? && a.Neighbours? == b.Neighbours?
      && a.Burst? == b.Burst? && a.Crop? == b.Crop? && a.Audio? == b.Audio?
  {
    assert |"frame_get"| == 9 && |"frame_neighbours"| == 16 && |"frame_burst"| == 11 && |"crop"| == 4 && |"audio"| == 5;
  }

  lemma HeadIsFree(s: Scope, r: Request)
    requires ValidScope(s)
    ensures Free([REQUEST_DOMAIN, s.session, s.source, StreamSelector(r), Operation(r)], '\n')
  {
  }

  lemma TailIsFree(s: Scope)
    requires ValidScope(s)
    ensures Free([PROFILE, OrNone(s.fingerprint)], '\n')
  {
  }

  lemma LinesAreFree(s: Scope, r: Request)
    requires ValidScope(s) && ValidRequest(r)
    ensures Free(Lines(s, r), '\n')
  {
    ParametersAreFree(r);
    var head, tail :=
      [REQUEST_DOMAIN, s.session, s.source, StreamSelector(r), Operation(r)], [PROFILE, OrNone(s.fingerprint)];
    HeadIsFree(s, r);
    TailIsFree(s);
    BothFree(head, CanonicalParameters(r), '\n');
    BothFree(head + CanonicalParameters(r), tail, '\n');
  }

  /** The request material names everything that decides a call's result: two calls with the same
      material are for the same session and source, by the same provider, with the same request. */
  lemma RequestMaterialIsInjective(s: Scope, r: Request, t: Scope, q: Request)
    requires ValidScope(s) && ValidRequest(r) && ValidScope(t) && ValidRequest(q)
    requires Join(Lines(s, r), '\n') == Join(Lines(t, q), '\n')
    ensures s == t && r == q
  {
    LinesAreFree(s, r);
    LinesAreFree(t, q);
    var a, b := Lines(s, r), Lines(t, q);
    JoinIsInjective(a, b, '\n');
    assert a[1] == b[1] && a[2] == b[2] && a[4] == b[4] && a[|a| - 1] == b[|b| - 1];
    assert a[5..|a| - 2] == CanonicalParameters(r) && b[5..|b| - 2] == CanonicalParameters(q);
    ParametersAreInjective(r, q);
    OrNoneIsInjective(s.fingerprint, t.fingerprint);
  }

  // Reuse

  datatype Record = Record(key: string, partial: bool)

  predicate Answers(record: Record, key: string) { record.key == key && !record.partial }

  /** The newest complete record with the key; none while the provider is not identified. */
  method FindReusableRecord(records: seq<Record>, key: string, fingerprint: Option<string>) returns (found: Option<nat>)
    ensures found.Some? ==> fingerprint.Some? && found.value < |records| && Answers(records[found.value], key)
    ensures found.Some? ==> forall j :: found.value < j < |records| ==> !Answers(records[j], key)
    ensures found.None? ==> fingerprint.None? || forall j :: 0 <= j < |records| ==> !Answers(records[j], key)
  {
    if fingerprint.None? {
      return None;
    }
    for n := |records| downto 0
      invariant forall j :: n <= j < |records| ==> !Answers(records[j], key)
    {
      if Answers(records[n], key) {
        return Some(n);
      }
    }
    return None;
  }
}
