/** The text an evidence item is named by: only what fixes its pixels or samples. */
module EvidenceItem {
  import opened Basics
  import opened Decimals
  import opened TextParts
  import opened EvidenceKey

  datatype FrameFacts = FrameFacts(stream: nat, numerator: nat, denominator: nat, pts: int)

  datatype Subject =
    | Frame(frame: FrameFacts)
    | Crop(frame: FrameFacts, parent: string, rect: Rect, frameRect: Rect)
    | Audio(stream: nat, from: nat, to: nat)

  function Signed(n: int): string { if n < 0 then "-" + Printed(-n) else Printed(n) }

  function TimeBaseText(f: FrameFacts): string { Join([Printed(f.numerator), Printed(f.denominator)], '/') }

  function FrameParts(f: FrameFacts): seq<string> { [Printed(f.stream), TimeBaseText(f), Signed(f.pts)] }

  function SubjectParts(s: Subject): seq<string> {
    match s
    case Frame(f) => ["frame"] + FrameParts(f)
    case Crop(f, parent, rect, frameRect) => ["crop"] + FrameParts(f) + [parent, RectText(rect), RectText(frameRect)]
    case Audio(stream, from, to) => ["audio", Printed(stream), Printed(from), Printed(to)]
  }

  /** Without a fingerprint nothing says which tool made the bytes, so the bytes are named too. */
  function ContentPart(scope: Scope, content: string): seq<string> {
    if scope.fingerprint.None? then ["content=" + content] else []
  }

  const ITEM_DOMAIN := "vsift.evidence-item.v1"

  function ItemLines(scope: Scope, s: Subject, content: string): seq<string> {
    [ITEM_DOMAIN, scope.session, scope.source, PROFILE, OrNone(scope.fingerprint)]
      + SubjectParts(s) + ContentPart(scope, content)
  }

  predicate ValidSubject(s: Subject) { s.Crop? ==> ValidText(s.parent) }

  lemma SignedIsInjective(m: int, n: int)
    requires Signed(m) == Signed(n)
    ensures m == n
  {
    assert forall k: nat :: IsDigit(Printed(k)[0]);
    if m < 0 {
      assert Signed(m)[0] == '-' && Signed(m)[1..] == Printed(-m) && Signed(n)[0] == '-';
      assert n < 0 && Signed(n)[1..] == Printed(-n);
      PrintedIsInjective(-m, -n);
    } else {
      assert Signed(m)[0] != '-';
      assert n >= 0;
      PrintedIsInjective(m, n);
    }
  }

  lemma TimeBaseIsInjective(a: FrameFacts, b: FrameFacts)
    requires TimeBaseText(a) == TimeBaseText(b)
    ensures a.numerator == b.numerator && a.denominator == b.denominator
  {
    var x, y := [Printed(a.numerator), Printed(a.denominator)], [Printed(b.numerator), Printed(b.denominator)];
    NumbersAreFree(a.numerator);
    NumbersAreFree(a.denominator);
    NumbersAreFree(b.numerator);
    NumbersAreFree(b.denominator);
    JoinIsInjective(x, y, '/');
    assert x[0] == y[0] && x[1] == y[1];
    PrintedIsInjective(a.numerator, b.numerator);
    PrintedIsInjective(a.denominator, b.denominator);
  }

  lemma FramePartsAreInjective(a: FrameFacts, b: FrameFacts)
    requires FrameParts(a) == FrameParts(b)
    ensures a == b
  {
    assert FrameParts(a)[0] == FrameParts(b)[0]
      && FrameParts(a)[1] == FrameParts(b)[1] && FrameParts(a)[2] == FrameParts(b)[2];
    PrintedIsInjective(a.stream, b.stream);
    TimeBaseIsInjective(a, b);
    SignedIsInjective(a.pts, b.pts);
  }

  lemma FramePartsAreFree(f: FrameFacts)
    ensures Free(FrameParts(f), '\n')
  {
    NumbersAreFree(f.stream);
    NumbersAreFree(f.numerator);
    NumbersAreFree(f.denominator);
    JoinHolds([Printed(f.numerator), Printed(f.denominator)], '/', '\n');
    NumbersAreFree(if f.pts < 0 then -f.pts else f.pts);
  }

  lemma SubjectPartsAreFree(s: Subject)
    requires ValidSubject(s)
    ensures Free(SubjectParts(s), '\n')
  {
    match s
    case Frame(f) =>
      FramePartsAreFree(f);
      BothFree(["frame"], FrameParts(f), '\n');
    case Crop(f, parent, rect, frameRect) =>
      FramePartsAreFree(f);
      RectTextIsFree(rect);
      RectTextIsFree(frameRect);
      BothFree(["crop"], FrameParts(f), '\n');
      BothFree(["crop"] + FrameParts(f), [parent, RectText(rect), RectText(frameRect)], '\n');
    case Audio(stream, from, to) =>
      NumbersAreFree(stream);
      NumbersAreFree(from);
      NumbersAreFree(to);
  }

  lemma SameKind(a: Subject, b: Subject)
    requires SubjectParts(a)[0] == SubjectParts(b)[0]
    ensures a.Frame? == b.Frame? && a.Crop? == b.Crop? && a.Audio? == b.Audio? && |SubjectParts(a)| == |SubjectParts(b)|
  {
    assert "frame"[0] == 'f' && "crop"[0] == 'c' && "audio"[0] == 'a';
  }

  lemma SubjectPartsAreInjective(a: Subject, b: Subject)
    requires SubjectParts(a) == SubjectParts(b)
    ensures a == b
  {
    SameKind(a, b);
    var x, y := SubjectParts(a), SubjectParts(b);
    match a
    case Frame(f) =>
      assert x[1..] == FrameParts(f) && y[1..] == FrameParts(b.frame);
      FramePartsAreInjective(f, b.frame);
    case Crop(f, parent, rect, frameRect) =>
      assert x[1..4] == FrameParts(f) && y[1..4] == FrameParts(b.frame);
      assert x[4] == y[4] && x[5] == y[5] && x[6] == y[6];
      FramePartsAreInjective(f, b.frame);
      RectTextIsInjective(rect, b.rect);
      RectTextIsInjective(frameRect, b.frameRect);
    case Audio(stream, from, to) =>
      assert x[1] == y[1] && x[2] == y[2] && x[3] == y[3];
      PrintedIsInjective(stream, b.stream);
      PrintedIsInjective(from, b.from);
      PrintedIsInjective(to, b.to);
  }

  lemma ItemLinesAreFree(scope: Scope, s: Subject, content: string)
    requires ValidScope(scope) && ValidSubject(s) && '\n' !in content
    ensures Free(ItemLines(scope, s, content), '\n')
  {
    SubjectPartsAreFree(s);
    var head := [ITEM_DOMAIN, scope.session, scope.source, PROFILE, OrNone(scope.fingerprint)];
    HeadLinesAreFree(scope);
    BothFree(head, SubjectParts(s), '\n');
    BothFree(head + SubjectParts(s), ContentPart(scope, content), '\n');
  }

  lemma HeadLinesAreFree(scope: Scope)
    requires ValidScope(scope)
    ensures Free([ITEM_DOMAIN, scope.session, scope.source, PROFILE, OrNone(scope.fingerprint)], '\n')
  {
  }

  /** Two items share an identity exactly when they are the same pixels or samples: the same frame,
      region or clip of the same source by the same provider, or by unidentified ones with the same
      bytes. */
  lemma SameItemSameIdentity(s: Scope, a: Subject, x: string, t: Scope, b: Subject, y: string)
    requires ValidScope(s) && ValidSubject(a) && '\n' !in x && ValidScope(t) && ValidSubject(b) && '\n' !in y
    ensures Join(ItemLines(s, a, x), '\n') == Join(ItemLines(t, b, y), '\n') <==>
      s == t && a == b && (s.fingerprint.None? ==> x == y)
  {
    if Join(ItemLines(s, a, x), '\n') == Join(ItemLines(t, b, y), '\n') {
      ItemLinesAreFree(s, a, x);
      ItemLinesAreFree(t, b, y);
      JoinIsInjective(ItemLines(s, a, x), ItemLines(t, b, y), '\n');
      SameLinesSameItem(s, a, x, t, b, y);
    }
  }

  lemma SameLinesSameItem(s: Scope, a: Subject, x: string, t: Scope, b: Subject, y: string)
    requires ValidScope(s) && ValidScope(t) && ItemLines(s, a, x) == ItemLines(t, b, y)
    ensures s == t && a == b && (s.fingerprint.None? ==> x == y)
  {
    var p, q := ItemLines(s, a, x), ItemLines(t, b, y);
    var m, n := |SubjectParts(a)|, |SubjectParts(b)|;
    assert p[1] == q[1] && p[2] == q[2] && p[4] == q[4] && p[5] == q[5];
    OrNoneIsInjective(s.fingerprint, t.fingerprint);
    assert p[5] == SubjectParts(a)[0] && q[5] == SubjectParts(b)[0];
    SameKind(a, b);
    assert p[5..5 + m] == SubjectParts(a) && q[5..5 + n] == SubjectParts(b);
    SubjectPartsAreInjective(a, b);
    if s.fingerprint.None? {
      assert p[5 + m] == "content=" + x && q[5 + n] == "content=" + y;
      AfterName("content=", x, y);
    }
  }
}
