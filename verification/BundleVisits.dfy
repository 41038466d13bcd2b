/** What becomes of each bundle found, told from the bytes it needs and the bytes that are left. */
module BundleVisits {
  import opened Basics
  import opened BundleRank
  import opened CursorKey
  import opened BundleWalk

  /** `Read` is searched; `Twin` has the manifest of one that was; `Unfit` declares more than is left;
      `Unpaid` comes when not even a manifest can be read; `Past` is beyond the limit. */
  datatype Fate = Read | Twin | Unfit | Bad | Unpaid | Past

  datatype Visit<T> = Visit(found: Found<T>, fate: Fate)

  /** What a bundle costs to open and read whole. */
  function Cost<T>(f: Found<T>): nat {
    MANIFEST_BYTES + if f.contents.Readable? then f.contents.bundle.recordBytes else 0
  }

  function Charged<T>(visits: seq<Visit<T>>): nat {
    if visits == [] then 0
    else
      var last := visits[|visits| - 1];
      Charged(visits[..|visits| - 1]) + match last.fate
        case Read => Cost(last.found)
        case Unpaid => 0
        case Past => 0
        case _ => MANIFEST_BYTES
  }

  ghost predicate Reads<T>(v: Visit<T>, manifest: string) {
    v.fate == Read && v.found.contents.Readable? && v.found.contents.bundle.identity.manifest == manifest
  }

  ghost predicate HasRead<T>(visits: seq<Visit<T>>, manifest: string) {
    exists j :: 0 <= j < |visits| && Reads(visits[j], manifest)
  }

  /** A bundle was met after `before`, and `left` bytes were left. */
  ghost predicate FitsIn<T>(before: seq<Visit<T>>, v: Visit<T>, left: int) {
    if |before| >= MAX_BUNDLES then v.fate == Past
    else if left < MANIFEST_BYTES then v.fate == Unpaid
    else if v.found.contents.Broken? then v.fate == Bad
    else if HasRead(before, v.found.contents.bundle.identity.manifest) then v.fate == Twin
    else v.fate == if left < Cost(v.found) then Unfit else Read
  }

  ghost predicate Fits<T>(visits: seq<Visit<T>>, i: nat, budget: nat)
    requires i < |visits|
  {
    FitsIn(visits[..i], visits[i], budget - Charged(visits[..i]))
  }

  ghost predicate AreVisits<T>(visits: seq<Visit<T>>, found: seq<Found<T>>, budget: nat) {
    && |visits| == |found|
    && forall i :: 0 <= i < |visits| ==> visits[i].found == found[i] && Fits(visits, i, budget)
  }

  // The lists a walk keeps, from the visits

  function SearchedOf<T>(v: Visit<T>): seq<Bundle<T>> {
    if v.fate == Read && v.found.contents.Readable? then [v.found.contents.bundle] else []
  }

  function EntriesOf<T>(v: Visit<T>): seq<Entry> {
    match v.found.contents
    case Readable(b) => if v.fate == Read then [Searched(v.found.name, b.identity, |b.hits|)] else []
    case Broken(reason) => if v.fate == Bad then [Unavailable(v.found.name, reason)] else []
  }

  function SkippedOf<T>(v: Visit<T>): seq<Skipped> {
    match v.fate
    case Past => [Skipped(v.found.name, BundleLimit)]
    case Unfit => [Skipped(v.found.name, ReadBudget)]
    case Unpaid => [Skipped(v.found.name, ReadBudget)]
    case _ => []
  }

  function AllOf<T, U>(visits: seq<Visit<T>>, of: Visit<T> -> seq<U>): seq<U> {
    if visits == [] then [] else AllOf(visits[..|visits| - 1], of) + of(visits[|visits| - 1])
  }

  function Times<T>(visits: seq<Visit<T>>, fate: Fate): nat {
    if visits == [] then 0
    else Times(visits[..|visits| - 1], fate) + if visits[|visits| - 1].fate == fate then 1 else 0
  }

  /** The walk's lists hold what became of each bundle, in the order they were found. */
  ghost predicate Lists<T>(w: Walked<T>, visits: seq<Visit<T>>, budget: nat) {
    && w.searched == AllOf(visits, SearchedOf)
    && w.entries == AllOf(visits, EntriesOf)
    && w.skipped == AllOf(visits, SkippedOf)
    && w.unavailable == Times(visits, Bad) && w.duplicates == Times(visits, Twin)
    && w.left == budget - Charged(visits)
  }

  lemma {:induction false} OneMoreOf<T, U>(visits: seq<Visit<T>>, v: Visit<T>, of: Visit<T> -> seq<U>)
    ensures AllOf(visits + [v], of) == AllOf(visits, of) + of(v)
  {
    assert (visits + [v])[..|visits|] == visits;
  }

  lemma {:induction false} OneMoreCharged<T>(visits: seq<Visit<T>>, v: Visit<T>)
    ensures Charged(visits + [v]) == Charged(visits) + Charged([v])
    ensures forall fate :: Times(visits + [v], fate) == Times(visits, fate) + if v.fate == fate then 1 else 0
  {
    assert (visits + [v])[..|visits|] == visits;
    assert [v][..0] == [];
  }

  lemma {:induction false} OneMoreRead<T>(visits: seq<Visit<T>>, v: Visit<T>, m: string)
    ensures HasRead(visits + [v], m) <==> HasRead(visits, m) || Reads(v, m)
  {
    var more := visits + [v];
    assert more[|visits|] == v && forall j :: 0 <= j < |visits| ==> more[j] == visits[j];
  }

  lemma {:induction false} ManifestsJoin<T>(a: seq<Bundle<T>>, b: seq<Bundle<T>>)
    ensures Manifests(a + b) == Manifests(a) + Manifests(b)
  {
  }

  /** The manifests searched are those of the visits that read. */
  lemma {:induction false} ManifestsAreRead<T>(visits: seq<Visit<T>>, m: string)
    ensures m in Manifests(AllOf(visits, SearchedOf)) <==> HasRead(visits, m)
  {
    if visits != [] {
      var before, v := visits[..|visits| - 1], visits[|visits| - 1];
      ManifestsAreRead(before, m);
      assert before + [v] == visits;
      OneMoreRead(before, v, m);
      ManifestsJoin(AllOf(before, SearchedOf), SearchedOf(v));
      if Reads(v, m) { assert Manifests(SearchedOf(v))[0] == m; }
    }
  }

  /** What becomes of the next bundle. */
  lemma {:induction false} NextFate<T>(visits: seq<Visit<T>>, f: Found<T>, left: int) returns (v: Visit<T>)
    ensures v.found == f && FitsIn(visits, v, left)
  {
    var fate := Read;
    if |visits| >= MAX_BUNDLES {
      fate := Past;
    } else if left < MANIFEST_BYTES {
      fate := Unpaid;
    } else if f.contents.Broken? {
      fate := Bad;
    } else if HasRead(visits, f.contents.bundle.identity.manifest) {
      fate := Twin;
    } else if left < Cost(f) {
      fate := Unfit;
    }
    v := Visit(f, fate);
  }

  lemma {:induction false} NextVisit<T>(w: Walked<T>, visits: seq<Visit<T>>, v: Visit<T>, budget: nat)
    requires Lists(w, visits, budget) && FitsIn(visits, v, w.left)
    ensures Lists(Next(w, |visits|, v.found), visits + [v], budget)
  {
    OneMoreOf(visits, v, SearchedOf);
    OneMoreOf(visits, v, EntriesOf);
    OneMoreOf(visits, v, SkippedOf);
    OneMoreCharged(visits, v);
    assert [v][..0] == [];
    if v.found.contents.Readable? {
      ManifestsAreRead(visits, v.found.contents.bundle.identity.manifest);
    }
  }

  /** Every walk is a row of visits: what becomes of each bundle follows from what was read before it
      and the bytes that were left, and the walk's lists say so. */
  lemma {:induction false} WalkVisits<T>(found: seq<Found<T>>, budget: nat) returns (visits: seq<Visit<T>>)
    ensures AreVisits(visits, found, budget) && Lists(Walk(found, budget), visits, budget)
    decreases |found|
  {
    visits := [];
    if found != [] {
      var n := |found| - 1;
      var before := WalkVisits(found[..n], budget);
      var v := NextFate(before, found[n], Walk(found[..n], budget).left);
      NextVisit(Walk(found[..n], budget), before, v, budget);
      VisitsStay(before, v, found, budget);
      visits := before + [v];
    }
  }

  lemma {:induction false} VisitsStay<T>(before: seq<Visit<T>>, v: Visit<T>, found: seq<Found<T>>, budget: nat)
    requires |found| == |before| + 1 && AreVisits(before, found[..|before|], budget)
    requires v.found == found[|before|] && FitsIn(before, v, budget - Charged(before))
    ensures AreVisits(before + [v], found, budget)
  {
    var visits := before + [v];
    forall i | 0 <= i < |visits| ensures visits[i].found == found[i] && Fits(visits, i, budget) {
      if i < |before| {
        assert visits[..i] == before[..i] && visits[i] == before[i] && Fits(before, i, budget);
      } else {
        assert visits[..i] == before;
      }
    }
  }

  lemma {:induction false} InAll<T, U>(visits: seq<Visit<T>>, of: Visit<T> -> seq<U>, i: nat, x: U)
    requires i < |visits| && x in of(visits[i])
    ensures x in AllOf(visits, of)
  {
    if i < |visits| - 1 { InAll(visits[..|visits| - 1], of, i, x); }
  }

  lemma {:induction false} FromAll<T, U>(visits: seq<Visit<T>>, of: Visit<T> -> seq<U>, x: U) returns (i: nat)
    requires x in AllOf(visits, of)
    ensures i < |visits| && x in of(visits[i])
  {
    i := |visits| - 1;
    if x !in of(visits[i]) { i := FromAll(visits[..|visits| - 1], of, x); }
  }

  // What a walk says of every bundle

  /** What is said of bundle `i`. Beyond the limit, or when the bytes left were fewer than a manifest
      needs, it is skipped; a broken one is unavailable; any other is searched, or another of its
      manifest is, or its records did not fit what was left. */
  ghost predicate ToldOf<T>(w: Walked<T>, visits: seq<Visit<T>>, i: nat, budget: nat)
    requires i < |visits|
  {
    var f, left := visits[i].found, budget - Charged(visits[..i]);
    if i >= MAX_BUNDLES then Skipped(f.name, BundleLimit) in w.skipped
    else if left < MANIFEST_BYTES then Skipped(f.name, ReadBudget) in w.skipped
    else match f.contents
      case Broken(reason) => Unavailable(f.name, reason) in w.entries
      case Readable(b) =>
        || (b in w.searched && Searched(f.name, b.identity, |b.hits|) in w.entries)
        || HasRead(visits[..i], b.identity.manifest)
        || (Skipped(f.name, ReadBudget) in w.skipped && left < MANIFEST_BYTES + b.recordBytes)
  }

  lemma {:induction false} OneIsToldOf<T>(w: Walked<T>, visits: seq<Visit<T>>, i: nat, budget: nat)
    requires Lists(w, visits, budget) && i < |visits| && Fits(visits, i, budget)
    ensures ToldOf(w, visits, i, budget)
  {
    var v := visits[i];
    if SkippedOf(v) != [] { InAll(visits, SkippedOf, i, SkippedOf(v)[0]); }
    if EntriesOf(v) != [] { InAll(visits, EntriesOf, i, EntriesOf(v)[0]); }
    if SearchedOf(v) != [] { InAll(visits, SearchedOf, i, SearchedOf(v)[0]); }
  }

  /** Every bundle found is told of. */
  lemma {:induction false} WalkTellsEach<T>(found: seq<Found<T>>, budget: nat) returns (visits: seq<Visit<T>>)
    ensures AreVisits(visits, found, budget) && Lists(Walk(found, budget), visits, budget)
    ensures forall i :: 0 <= i < |found| ==> ToldOf(Walk(found, budget), visits, i, budget)
  {
    visits := WalkVisits(found, budget);
    forall i | 0 <= i < |found| ensures ToldOf(Walk(found, budget), visits, i, budget) {
      OneIsToldOf(Walk(found, budget), visits, i, budget);
    }
  }

  /** Whatever is unavailable was found broken, within the limit and with its manifest paid for. */
  lemma {:induction false} UnavailableWasBroken<T>(
      w: Walked<T>, visits: seq<Visit<T>>, budget: nat, name: string, reason: Unreadable)
      returns (i: nat)
    requires Lists(w, visits, budget) && Unavailable(name, reason) in w.entries
    requires forall i :: 0 <= i < |visits| ==> Fits(visits, i, budget)
    ensures i < |visits| && i < MAX_BUNDLES && visits[i].found == Found(name, Broken(reason))
    ensures budget - Charged(visits[..i]) >= MANIFEST_BYTES
  {
    i := FromAll(visits, EntriesOf, Unavailable(name, reason));
    assert Fits(visits, i, budget);
  }

  // When everything fits

  function Needed<T>(found: seq<Found<T>>): nat {
    if found == [] then 0 else Needed(found[..|found| - 1]) + Cost(found[|found| - 1])
  }

  lemma {:induction false} NeededGrows<T>(found: seq<Found<T>>, n: nat)
    requires n <= |found|
    ensures Needed(found[..n]) <= Needed(found)
    decreases |found|
  {
    if n < |found| {
      NeededGrows(found[..|found| - 1], n);
      assert found[..|found| - 1][..n] == found[..n];
    } else {
      assert found[..n] == found;
    }
  }

  lemma {:induction false} ChargedIsNeeded<T>(visits: seq<Visit<T>>, found: seq<Found<T>>)
    requires |visits| == |found| && forall i :: 0 <= i < |visits| ==> visits[i].found == found[i]
    ensures Charged(visits) <= Needed(found)
    decreases |visits|
  {
    if visits != [] { ChargedIsNeeded(visits[..|visits| - 1], found[..|found| - 1]); }
  }

  /** With the bytes for every manifest and every record, each bundle finds what it costs left. */
  lemma {:induction false} EnoughIsLeft<T>(visits: seq<Visit<T>>, found: seq<Found<T>>, budget: nat, i: nat)
    requires AreVisits(visits, found, budget) && budget >= Needed(found) && i < |found|
    ensures budget - Charged(visits[..i]) >= Cost(found[i])
  {
    ChargedIsNeeded(visits[..i], found[..i]);
    NeededGrows(found, i + 1);
    assert found[..i + 1][..i] == found[..i] && found[..i + 1][i] == found[i];
  }

  lemma {:induction false} NoneSkipped<T>(visits: seq<Visit<T>>)
    requires forall i :: 0 <= i < |visits| ==> SkippedOf(visits[i]) == []
    ensures AllOf(visits, SkippedOf) == []
    decreases |visits|
  {
    if visits != [] { NoneSkipped(visits[..|visits| - 1]); }
  }

  lemma {:induction false} HasReadStays<T>(visits: seq<Visit<T>>, i: nat, m: string)
    requires i <= |visits| && HasRead(visits[..i], m)
    ensures HasRead(visits, m)
  {
    var j :| 0 <= j < i && Reads(visits[..i][j], m);
    assert Reads(visits[j], m);
  }

  /** A search that may open every bundle and has the bytes for all of them skips none, and searches
      every readable manifest found. */
  lemma {:induction false} EverythingIsSearched<T>(found: seq<Found<T>>, budget: nat)
    requires |found| <= MAX_BUNDLES && budget >= Needed(found)
    ensures Walk(found, budget).skipped == []
    ensures forall i :: 0 <= i < |found| && found[i].contents.Readable? ==>
      found[i].contents.bundle.identity.manifest in Manifests(Walk(found, budget).searched)
  {
    var visits := WalkVisits(found, budget);
    forall i | 0 <= i < |visits| ensures SkippedOf(visits[i]) == [] {
      EnoughIsLeft(visits, found, budget, i);
      assert Fits(visits, i, budget);
    }
    NoneSkipped(visits);
    forall i | 0 <= i < |found| && found[i].contents.Readable?
      ensures found[i].contents.bundle.identity.manifest in Manifests(Walk(found, budget).searched)
    {
      var m := found[i].contents.bundle.identity.manifest;
      EnoughIsLeft(visits, found, budget, i);
      assert Fits(visits, i, budget);
      if HasRead(visits[..i], m) { HasReadStays(visits, i, m); } else { assert Reads(visits[i], m); }
      ManifestsAreRead(visits, m);
    }
  }
}
