/** The text of a cursor: the key of a position, and the material its search is named by. */
module CursorKey {
  import opened Basics
  import opened BundlePage
  import opened Decimals
  import opened TextParts

  const MAX_BUNDLES := 64
  const MAX_KEY_LENGTH := 64
  const SEPARATOR := '-'

  /** The positions a search can give: bundle ranks below the limit, sequences from one that fit
      thirty-two bits. */
  predicate ValidPosition(p: Position) {
    p.bundle < MAX_BUNDLES && 1 <= p.sequence < 0x1_0000_0000
  }

  function TierKey(tier: Tier): string {
    match tier
    case Phrase => "1"
    case AllTerms => "2"
  }

  function PositionKey(p: Position): string {
    Join([TierKey(p.tier), Printed(p.bundle), Printed(p.sequence)], SEPARATOR)
  }

  /** A canonical decimal that fits thirty-two bits. */
  function Number(text: string): Option<nat> {
    if text != "" && AllDigits(text) && (text == "0" || text[0] != '0') && Parsed(text) < 0x1_0000_0000
    then Some(Parsed(text))
    else None
  }

  function ParseTier(text: string): Option<Tier> {
    if text == "1" then Some(Phrase) else if text == "2" then Some(AllTerms) else None
  }

  function ParsePosition(key: string): Option<Position> {
    var parts := Split(key, SEPARATOR);
    if |parts| != 3 || ParseTier(parts[0]).None? then None
    else
      var bundle := Number(parts[1]);
      var sequence := Number(parts[2]);
      if bundle.None? || bundle.value >= 0x1_0000 || bundle.value >= MAX_BUNDLES then None
      else if sequence.None? || sequence.value < 1 then None
      else Some(Position(ParseTier(parts[0]).value, bundle.value, sequence.value))
  }

  lemma DigitsHoldNoSeparator(text: string)
    requires AllDigits(text)
    ensures SEPARATOR !in text && '\n' !in text
  {
  }

  lemma KeyParts(p: Position)
    ensures Free([TierKey(p.tier), Printed(p.bundle), Printed(p.sequence)], SEPARATOR)
  {
    DigitsHoldNoSeparator(Printed(p.bundle));
    DigitsHoldNoSeparator(Printed(p.sequence));
  }

  /** Every position a search gives is read back from its key. */
  lemma KeyIsReadBack(p: Position)
    requires ValidPosition(p)
    ensures ParsePosition(PositionKey(p)) == Some(p)
  {
    var parts := [TierKey(p.tier), Printed(p.bundle), Printed(p.sequence)];
    KeyParts(p);
    SplitJoin(parts, SEPARATOR);
    TierIsReadBack(p.tier);
    NumberIsReadBack(p.bundle);
    NumberIsReadBack(p.sequence);
    assert Split(PositionKey(p), SEPARATOR) == parts;
  }

  lemma TierIsReadBack(tier: Tier)
    ensures ParseTier(TierKey(tier)) == Some(tier)
  {
  }

  lemma NumberIsReadBack(n: nat)
    requires n < 0x1_0000_0000
    ensures Number(Printed(n)) == Some(n)
  {
    ParsedPrinted(n);
  }

  /** Every text that is accepted is the key of the position it names. */
  lemma AcceptedIsTheKey(key: string)
    requires ParsePosition(key).Some?
    ensures ValidPosition(ParsePosition(key).value) && PositionKey(ParsePosition(key).value) == key
  {
    var parts := Split(key, SEPARATOR);
    JoinSplit(key, SEPARATOR);
    PrintedParsed(parts[1]);
    PrintedParsed(parts[2]);
    assert parts == [parts[0], parts[1], parts[2]];
  }

  // What a cursor accepts as a last-item key

  predicate ValidLastItemKey(key: string) {
    && key != "" && |key| <= MAX_KEY_LENGTH
    && forall i :: 0 <= i < |key| ==> 'a' <= key[i] <= 'z' || IsDigit(key[i]) || key[i] == '_' || key[i] == '-'
  }

  function Power(k: nat): nat { if k == 0 then 1 else 10 * Power(k - 1) }

  lemma {:induction false} PrintedLength(n: nat, k: nat)
    requires k > 0 && n < Power(k)
    ensures |Printed(n)| <= k
  {
    if n >= 10 {
      PrintedLength(n / 10, k - 1);
    }
  }

  /** A cursor is never refused for the key of its own hit. */
  lemma KeyIsAccepted(p: Position)
    requires ValidPosition(p)
    ensures ValidLastItemKey(PositionKey(p))
  {
    assert Power(2) == 100 && Power(10) == 100 * Power(8) && Power(8) == 100 * Power(6) && Power(6) == 1000000;
    PrintedLength(p.bundle, 2);
    PrintedLength(p.sequence, 10);
    var a, b, c := TierKey(p.tier), Printed(p.bundle), Printed(p.sequence);
    ThreeParts(a, b, c, SEPARATOR);
    assert AllDigits(a) && AllDigits(b) && AllDigits(c);
  }

  lemma ThreeParts(a: string, b: string, c: string, sep: char)
    ensures Join([a, b, c], sep) == a + [sep] + (b + [sep] + c)
  {
    assert [a, b, c][1..] == [b, c] && [b, c][1..] == [c];
    assert Join([c], sep) == c && Join([b, c], sep) == b + [sep] + c;
  }

  // What names a search

  const HEADER := "vsift.bundle-search.v1"

  function Material(manifests: seq<string>, terms: seq<string>): string {
    Join([HEADER, Printed(|manifests|)] + manifests + terms, '\n')
  }

  /** Builds the text whose digest names the search: a line each for the header, the count, the
      manifests in rank order and the query's words. */
  method SearchMaterial(manifests: seq<string>, terms: seq<string>) returns (material: string)
    ensures material == Material(manifests, terms)
  {
    material := HEADER + "\n" + Printed(|manifests|);
    ghost var lines := [HEADER, Printed(|manifests|)];
    assert lines[1..] == [Printed(|manifests|)];
    for n := 0 to |manifests|
      invariant lines == [HEADER, Printed(|manifests|)] + manifests[..n] && material == Join(lines, '\n')
    {
      JoinMore(lines, manifests[n], '\n');
      material := material + ['\n'];
      material := material + manifests[n];
      lines := lines + [manifests[n]];
    }
    for n := 0 to |terms|
      invariant lines == [HEADER, Printed(|manifests|)] + manifests + terms[..n] && material == Join(lines, '\n')
    {
      JoinMore(lines, terms[n], '\n');
      material := material + ['\n'];
      material := material + terms[n];
      lines := lines + [terms[n]];
    }
    assert terms[..|terms|] == terms;
  }

  /** Different bundles, a different order of them, or different words give different material. */
  lemma MaterialIsInjective(m1: seq<string>, t1: seq<string>, m2: seq<string>, t2: seq<string>)
    requires Free(m1, '\n') && Free(t1, '\n') && Free(m2, '\n') && Free(t2, '\n')
    requires Material(m1, t1) == Material(m2, t2)
    ensures m1 == m2 && t1 == t2
  {
    var a, b := [HEADER, Printed(|m1|)] + m1 + t1, [HEADER, Printed(|m2|)] + m2 + t2;
    LinesAreFree(m1, t1);
    LinesAreFree(m2, t2);
    JoinIsInjective(a, b, '\n');
    assert a[1] == Printed(|m1|) && b[1] == Printed(|m2|);
    PrintedIsInjective(|m1|, |m2|);
    assert a[2..2 + |m1|] == m1 && b[2..2 + |m2|] == m2;
    assert a[2 + |m1|..] == t1 && b[2 + |m2|..] == t2;
  }

  lemma HeadIsFree(count: nat)
    ensures Free([HEADER, Printed(count)], '\n')
  {
    DigitsHoldNoSeparator(Printed(count));
    assert forall i :: 0 <= i < |HEADER| ==> HEADER[i] != '\n';
  }

  lemma LinesAreFree(manifests: seq<string>, terms: seq<string>)
    requires Free(manifests, '\n') && Free(terms, '\n')
    ensures Free([HEADER, Printed(|manifests|)] + manifests + terms, '\n')
  {
    HeadIsFree(|manifests|);
    var head := [HEADER, Printed(|manifests|)];
    BothFree(head, manifests, '\n');
    BothFree(head + manifests, terms, '\n');
  }
}
