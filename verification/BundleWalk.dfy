/** Which of the bundles found a search reads, and what it counts. */
module BundleWalk {
  import opened Basics
  import opened BundlePage
  import opened BundleRank
  import opened CursorKey

  const MANIFEST_BYTES := 128 * 1024

  datatype Identity = Identity(session: nat, manifest: string)

  /** What a bundle holds: `recordBytes` is what its records declare, `hits` what matches in those
      that can be read, `complete` whether all its planned frames were read. */
  datatype Bundle<T> = Bundle(identity: Identity, recordBytes: nat, hits: seq<Raw<T>>, complete: bool)

  datatype Unreadable = NotPrivate | IntegrityFailure | UnsupportedVersion | OtherFailure
  datatype Opened<T> = Readable(bundle: Bundle<T>) | Broken(reason: Unreadable)
  datatype Found<T> = Found(name: string, contents: Opened<T>)

  datatype Entry = Searched(bundle: string, identity: Identity, hits: nat)
    | Unavailable(bundle: string, reason: Unreadable)
  datatype Reason = BundleLimit | ReadBudget
  datatype Skipped = Skipped(bundle: string, reason: Reason)

  /** How far a search has come: `searched` are the bundles read, in rank order, and `openings` how
      many manifests were read. */
  datatype Walked<T> = Walked(left: nat, openings: nat, searched: seq<Bundle<T>>, entries: seq<Entry>,
    unavailable: nat, skipped: seq<Skipped>, duplicates: nat)

  function Manifests<T>(bundles: seq<Bundle<T>>): (manifests: seq<string>)
    ensures |manifests| == |bundles|
  {
    seq(|bundles|, i requires 0 <= i < |bundles| => bundles[i].identity.manifest)
  }

  function OpenedOne<T>(w: Walked<T>, name: string, b: Bundle<T>): Walked<T> {
    if b.identity.manifest in Manifests(w.searched) then w.(duplicates := w.duplicates + 1)
    else if b.recordBytes > w.left then w.(skipped := w.skipped + [Skipped(name, ReadBudget)])
    else w.(left := w.left - b.recordBytes, searched := w.searched + [b],
      entries := w.entries + [Searched(name, b.identity, |b.hits|)])
  }

  function Next<T>(w: Walked<T>, index: nat, f: Found<T>): Walked<T> {
    if index >= MAX_BUNDLES then w.(skipped := w.skipped + [Skipped(f.name, BundleLimit)])
    else if w.left < MANIFEST_BYTES then w.(skipped := w.skipped + [Skipped(f.name, ReadBudget)])
    else
      var paid := w.(left := w.left - MANIFEST_BYTES, openings := w.openings + 1);
      match f.contents
      case Readable(b) => OpenedOne(paid, f.name, b)
      case Broken(reason) => paid.(unavailable := paid.unavailable + 1,
        entries := paid.entries + [Unavailable(f.name, reason)])
  }

  function Walk<T>(found: seq<Found<T>>, budget: nat): Walked<T> {
    if found == [] then Walked(budget, 0, [], [], 0, [], 0)
    else Next(Walk(found[..|found| - 1], budget), |found| - 1, found[|found| - 1])
  }

  function RecordBytes<T>(bundles: seq<Bundle<T>>): nat {
    if bundles == [] then 0 else RecordBytes(bundles[..|bundles| - 1]) + bundles[|bundles| - 1].recordBytes
  }

  function HitsIn(entries: seq<Entry>): nat {
    if entries == [] then 0
    else HitsIn(entries[..|entries| - 1]) + match entries[|entries| - 1] case Searched(_, _, hits) => hits case _ => 0
  }

  /** Every hit of the bundles read, each at its place. */
  function Offers<T>(bundles: seq<Bundle<T>>): seq<Hit<T>> {
    if bundles == [] then []
    else
      var n := |bundles| - 1;
      Offers(bundles[..n]) + Ranked(n, bundles[n].hits)
  }

  ghost predicate Distinct<T(!new)>(list: seq<T>) {
    forall i, j :: 0 <= i < j < |list| ==> list[i] != list[j]
  }

  ghost predicate Accounted<T>(w: Walked<T>, found: nat, budget: nat) {
    && found == |w.searched| + w.unavailable + |w.skipped| + w.duplicates
    && |w.entries| == |w.searched| + w.unavailable
    && Distinct(Manifests(w.searched))
    && budget == w.left + w.openings * MANIFEST_BYTES + RecordBytes(w.searched)
    && |w.searched| <= w.openings <= MAX_BUNDLES && w.openings <= found
    && HitsIn(w.entries) == |Offers(w.searched)|
  }

  lemma OneMoreSearched<T>(bundles: seq<Bundle<T>>, b: Bundle<T>)
    ensures RecordBytes(bundles + [b]) == RecordBytes(bundles) + b.recordBytes
    ensures Offers(bundles + [b]) == Offers(bundles) + Ranked(|bundles|, b.hits)
    ensures Manifests(bundles + [b]) == Manifests(bundles) + [b.identity.manifest]
    ensures |Ranked(|bundles|, b.hits)| == |b.hits|
  {
    assert (bundles + [b])[..|bundles|] == bundles;
    RankedIsInOrder(|bundles|, b.hits);
  }

  lemma OneMoreEntry(entries: seq<Entry>, e: Entry)
    ensures HitsIn(entries + [e]) == HitsIn(entries) + match e case Searched(_, _, hits) => hits case _ => 0
  {
    assert (entries + [e])[..|entries|] == entries;
  }

  /** A bundle opened at `n`, its manifest paid for but the bundle not counted yet. */
  lemma OpenedIsAccounted<T>(w: Walked<T>, n: nat, name: string, b: Bundle<T>, budget: nat)
    requires Accounted(w.(unavailable := w.unavailable + 1, entries := w.entries + [Unavailable(name, OtherFailure)]),
      n, budget)
    requires |w.searched| < w.openings && HitsIn(w.entries) == |Offers(w.searched)|
    ensures Accounted(OpenedOne(w, name, b), n, budget)
  {
    var after := OpenedOne(w, name, b);
    OneMoreSearched(w.searched, b);
    OneMoreEntry(w.entries, Searched(name, b.identity, |b.hits|));
    if b.identity.manifest !in Manifests(w.searched) && b.recordBytes <= w.left {
      var list := Manifests(w.searched);
      assert Distinct(list + [b.identity.manifest]);
    }
  }

  lemma BrokenIsAccounted<T>(w: Walked<T>, n: nat, name: string, reason: Unreadable, budget: nat)
    requires Accounted(w, n, budget) && n < MAX_BUNDLES && w.left >= MANIFEST_BYTES
    ensures Accounted(Next(w, n, Found(name, Broken(reason))), n + 1, budget)
  {
    var entry := Unavailable(name, reason);
    OneMoreEntry(w.entries, entry);
    assert Next(w, n, Found(name, Broken(reason))) == w.(left := w.left - MANIFEST_BYTES, openings := w.openings + 1,
      unavailable := w.unavailable + 1, entries := w.entries + [entry]);
  }

  lemma ReadableIsAccounted<T>(w: Walked<T>, n: nat, name: string, b: Bundle<T>, budget: nat)
    requires Accounted(w, n, budget) && n < MAX_BUNDLES && w.left >= MANIFEST_BYTES
    ensures Accounted(Next(w, n, Found(name, Readable(b))), n + 1, budget)
  {
    var paid := w.(left := w.left - MANIFEST_BYTES, openings := w.openings + 1);
    BrokenIsAccounted(w, n, name, OtherFailure, budget);
    assert Next(w, n, Found(name, Broken(OtherFailure)))
        == paid.(unavailable := w.unavailable + 1, entries := w.entries + [Unavailable(name, OtherFailure)]);
    assert Next(w, n, Found(name, Readable(b))) == OpenedOne(paid, name, b);
    OpenedIsAccounted(paid, n + 1, name, b, budget);
  }

  lemma NextIsAccounted<T>(w: Walked<T>, n: nat, f: Found<T>, budget: nat)
    requires Accounted(w, n, budget)
    ensures Accounted(Next(w, n, f), n + 1, budget)
  {
    if n < MAX_BUNDLES && w.left >= MANIFEST_BYTES {
      match f.contents
      case Broken(reason) => BrokenIsAccounted(w, n, f.name, reason, budget);
      case Readable(b) => ReadableIsAccounted(w, n, f.name, b, budget);
    }
  }

  /** Every bundle found is counted once; no bundle is read twice; what is read is what was paid
      for; and the entries' hits are the hits offered. */
  lemma {:induction false} WalkIsAccounted<T>(found: seq<Found<T>>, budget: nat)
    ensures Accounted(Walk(found, budget), |found|, budget)
  {
    if found == [] {
      assert Offers<T>([]) == [];
    } else {
      var n := |found| - 1;
      WalkIsAccounted(found[..n], budget);
      NextIsAccounted(Walk(found[..n], budget), n, found[n], budget);
    }
  }

  ghost predicate OfferedBy<T>(bundles: seq<Bundle<T>>, hit: Hit<T>, n: nat) {
    n < |bundles| && hit in Ranked(n, bundles[n].hits)
  }

  /** What is offered is what the bundles read hold, each hit ranked within its bundle. */
  lemma OffersAreRanked<T>(bundles: seq<Bundle<T>>, hit: Hit<T>)
    ensures hit in Offers(bundles) <==> exists n: nat :: OfferedBy(bundles, hit, n)
  {
    if hit in Offers(bundles) { var n := FromBundle(bundles, hit); }
    if n: nat :| OfferedBy(bundles, hit, n) { AllAreOffered(bundles, hit, n); }
  }

  lemma {:induction false} FromBundle<T>(bundles: seq<Bundle<T>>, hit: Hit<T>) returns (n: nat)
    requires hit in Offers(bundles)
    ensures OfferedBy(bundles, hit, n)
  {
    n := |bundles| - 1;
    if hit !in Ranked(n, bundles[n].hits) { n := FromBundle(bundles[..n], hit); }
  }

  lemma {:induction false} AllAreOffered<T>(bundles: seq<Bundle<T>>, hit: Hit<T>, n: nat)
    requires OfferedBy(bundles, hit, n)
    ensures hit in Offers(bundles)
  {
    if n < |bundles| - 1 { AllAreOffered(bundles[..|bundles| - 1], hit, n); }
  }

  /** No two hits are offered at the same place, and every place can stand in a cursor. */
  lemma {:induction false} OffersAreApart<T>(bundles: seq<Bundle<T>>)
    ensures forall i, j :: 0 <= i < j < |Offers(bundles)| ==> Offers(bundles)[i].position != Offers(bundles)[j].position
    ensures forall i :: 0 <= i < |Offers(bundles)| ==>
      Offers(bundles)[i].position.bundle < |bundles| && Offers(bundles)[i].position.sequence >= 1
  {
    if bundles != [] {
      var n := |bundles| - 1;
      var earlier, ranked := Offers(bundles[..n]), Ranked(n, bundles[n].hits);
      OffersAreApart(bundles[..n]);
      RankedIsInOrder(n, bundles[n].hits);
      forall i, j | 0 <= i < j < |ranked| ensures ranked[i].position != ranked[j].position {
        assert Before(Places(ranked)[i], Places(ranked)[j]);
      }
    }
  }
}
