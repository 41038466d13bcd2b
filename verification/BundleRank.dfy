/** The order of one bundle's hits, and the position each gets across bundles. */
module BundleRank {
  import opened Basics
  import opened BundlePage

  datatype Kind = Transcript | ScreenText {
    function Rank(): nat { if Transcript? then 0 else 1 }
  }

  datatype Key = Key(tier: Tier, time: nat, kind: Kind, ordinal: nat)

  datatype Raw<T> = Raw(key: Key, value: T)

  predicate Earlier(a: Key, b: Key) {
    || a.tier.Rank() < b.tier.Rank()
    || (a.tier == b.tier && a.time < b.time)
    || (a.tier == b.tier && a.time == b.time && a.kind.Rank() < b.kind.Rank())
    || (a.tier == b.tier && a.time == b.time && a.kind == b.kind && a.ordinal < b.ordinal)
  }

  ghost predicate Sorted<T>(hits: seq<Raw<T>>) {
    forall i, j :: 0 <= i < j < |hits| ==> !Earlier(hits[j].key, hits[i].key)
  }

  /** Puts a hit after every hit that is not later than it. */
  function Inserted<T>(hits: seq<Raw<T>>, hit: Raw<T>): seq<Raw<T>> {
    if hits != [] && Earlier(hit.key, hits[|hits| - 1].key)
    then Inserted(hits[..|hits| - 1], hit) + [hits[|hits| - 1]]
    else hits + [hit]
  }

  /** The hits sorted by key, those of equal keys in the order they came. */
  function InKeyOrder<T>(hits: seq<Raw<T>>): seq<Raw<T>> {
    if hits == [] then [] else Inserted(InKeyOrder(hits[..|hits| - 1]), hits[|hits| - 1])
  }

  lemma {:induction false} InsertedHolds<T>(hits: seq<Raw<T>>, hit: Raw<T>)
    ensures multiset(Inserted(hits, hit)) == multiset(hits) + multiset{hit}
    decreases |hits|
  {
    if hits != [] && Earlier(hit.key, hits[|hits| - 1].key) {
      InsertedHolds(hits[..|hits| - 1], hit);
      LastOfMany(hits);
    }
  }

  lemma {:induction false} InsertedSorts<T>(hits: seq<Raw<T>>, hit: Raw<T>)
    requires Sorted(hits)
    ensures Sorted(Inserted(hits, hit))
    decreases |hits|
  {
    if hits != [] && Earlier(hit.key, hits[|hits| - 1].key) {
      var init, last := hits[..|hits| - 1], hits[|hits| - 1];
      InsertedSorts(init, hit);
      NoneIsLater(hits, hit);
      LastStays(Inserted(init, hit), last);
    }
  }

  /** Nothing put in before the last hit is later than it. */
  lemma NoneIsLater<T>(hits: seq<Raw<T>>, hit: Raw<T>)
    requires Sorted(hits) && hits != [] && Earlier(hit.key, hits[|hits| - 1].key)
    ensures var init, last := hits[..|hits| - 1], hits[|hits| - 1];
      forall i :: 0 <= i < |Inserted(init, hit)| ==> !Earlier(last.key, Inserted(init, hit)[i].key)
  {
    var init, last := hits[..|hits| - 1], hits[|hits| - 1];
    var inserted := Inserted(init, hit);
    InsertedHolds(init, hit);
    forall i | 0 <= i < |inserted| ensures !Earlier(last.key, inserted[i].key) {
      assert inserted[i] in multiset(inserted);
      assert inserted[i] in init || inserted[i] == hit;
    }
  }

  lemma LastStays<T>(hits: seq<Raw<T>>, last: Raw<T>)
    requires Sorted(hits) && forall i :: 0 <= i < |hits| ==> !Earlier(last.key, hits[i].key)
    ensures Sorted(hits + [last])
  {
  }

  lemma {:induction false} KeyOrderHolds<T>(hits: seq<Raw<T>>)
    ensures multiset(InKeyOrder(hits)) == multiset(hits)
    decreases |hits|
  {
    if hits != [] {
      KeyOrderHolds(hits[..|hits| - 1]);
      InsertedHolds(InKeyOrder(hits[..|hits| - 1]), hits[|hits| - 1]);
      LastOfMany(hits);
    }
  }

  lemma {:induction false} KeyOrderSorts<T>(hits: seq<Raw<T>>)
    ensures Sorted(InKeyOrder(hits))
    decreases |hits|
  {
    if hits != [] {
      KeyOrderSorts(hits[..|hits| - 1]);
      InsertedSorts(InKeyOrder(hits[..|hits| - 1]), hits[|hits| - 1]);
    }
  }

  /** How many hits up to and with the one at `n` are of its tier. */
  function CountOf<T>(hits: seq<Raw<T>>, n: nat, tier: Tier): (count: nat)
    requires n <= |hits|
    ensures count <= n
  {
    if n == 0 then 0 else CountOf(hits, n - 1, tier) + if hits[n - 1].key.tier == tier then 1 else 0
  }

  function PlaceOf<T>(bundle: nat, sorted: seq<Raw<T>>, i: nat): Position
    requires i < |sorted|
  {
    Position(sorted[i].key.tier, bundle, CountOf(sorted, i + 1, sorted[i].key.tier))
  }

  /** One bundle's hits, in rank order, each at its place among the hits of its tier. */
  function Ranked<T>(bundle: nat, hits: seq<Raw<T>>): (ranked: seq<Hit<T>>)
  {
    var sorted := InKeyOrder(hits);
    seq(|sorted|, i requires 0 <= i < |sorted| => Hit(PlaceOf(bundle, sorted, i), sorted[i].value))
  }

  lemma TiersAreGrouped<T>(sorted: seq<Raw<T>>, n: nat)
    requires Sorted(sorted) && 0 < n < |sorted| && sorted[n - 1].key.tier != sorted[n].key.tier
    ensures CountOf(sorted, n, sorted[n].key.tier) == 0
  {
    NoneOfTier(sorted, n, sorted[n].key.tier);
  }

  lemma {:induction false} NoneOfTier<T>(hits: seq<Raw<T>>, n: nat, tier: Tier)
    requires n <= |hits| && forall i :: 0 <= i < n ==> hits[i].key.tier != tier
    ensures CountOf(hits, n, tier) == 0
  {
    if n > 0 { NoneOfTier(hits, n - 1, tier); }
  }

  /** Gives each hit its position by counting within its tier. */
  method RankHits<T>(bundle: nat, hits: seq<Raw<T>>) returns (ranked: seq<Hit<T>>)
    ensures ranked == Ranked(bundle, hits)
  {
    var sorted := InKeyOrder(hits);
    KeyOrderSorts(hits);
    ranked := [];
    var tier: Option<Tier> := None;
    var sequence := 0;
    for n := 0 to |sorted|
      invariant ranked == Ranked(bundle, hits)[..n] && |Ranked(bundle, hits)| == |sorted|
      invariant tier.None? <==> n == 0
      invariant n > 0 ==> tier == Some(sorted[n - 1].key.tier) && sequence == CountOf(sorted, n, sorted[n - 1].key.tier)
    {
      var key := sorted[n].key;
      if tier != Some(key.tier) {
        if n > 0 { TiersAreGrouped(sorted, n); }
        tier, sequence := Some(key.tier), 0;
      }
      sequence := sequence + 1;
      ranked := ranked + [Hit(Position(key.tier, bundle, sequence), sorted[n].value)];
    }
  }

  lemma {:induction false} CountGrows<T>(hits: seq<Raw<T>>, i: nat, j: nat, tier: Tier)
    requires i <= j <= |hits|
    ensures CountOf(hits, i, tier) <= CountOf(hits, j, tier)
  {
    if i < j { CountGrows(hits, i, j - 1, tier); }
  }

  /** Which of the first `n` hits are of the tier. */
  function OfTier<T>(hits: seq<Raw<T>>, n: nat, tier: Tier): set<nat>
    requires n <= |hits|
  {
    set i | 0 <= i < n && hits[i].key.tier == tier
  }

  lemma {:induction false} CountIsHowMany<T>(hits: seq<Raw<T>>, n: nat, tier: Tier)
    requires n <= |hits|
    ensures CountOf(hits, n, tier) == |OfTier(hits, n, tier)|
  {
    if n > 0 {
      CountIsHowMany(hits, n - 1, tier);
      assert OfTier(hits, n, tier)
          == OfTier(hits, n - 1, tier) + if hits[n - 1].key.tier == tier then {n - 1} else {};
    }
  }

  /** The positions of one bundle are in the order of its hits, number each tier from one, and
      rank an earlier key first. */
  lemma RankedIsInOrder<T>(bundle: nat, hits: seq<Raw<T>>)
    ensures var ranked, sorted := Ranked(bundle, hits), InKeyOrder(hits);
      && |ranked| == |hits| == |sorted| && Ascending(Places(ranked))
        && Sorted(sorted) && multiset(sorted) == multiset(hits)
      && forall i :: 0 <= i < |ranked| ==>
          ranked[i].value == sorted[i].value && ranked[i].position.tier == sorted[i].key.tier
          && ranked[i].position.bundle == bundle && 1 <= ranked[i].position.sequence <= |hits|
  {
    var ranked, sorted := Ranked(bundle, hits), InKeyOrder(hits);
    KeyOrderSorts(hits);
    KeyOrderHolds(hits);
    assert |sorted| == |multiset(sorted)| == |multiset(hits)| == |hits|;
    forall i, j | 0 <= i < j < |ranked| ensures Before(Places(ranked)[i], Places(ranked)[j]) {
      PlacesInOrder(bundle, sorted, i, j);
    }
    forall i | 0 <= i < |ranked| ensures ranked[i].position.sequence >= 1 {
      assert CountOf(sorted, i + 1, sorted[i].key.tier) >= 1;
    }
  }

  /** The numbers of a tier have no gap: each is how many hits of the tier have come with its own. */
  lemma NumbersHaveNoGap<T>(bundle: nat, hits: seq<Raw<T>>, i: nat)
    requires i < |InKeyOrder(hits)|
    ensures var sorted := InKeyOrder(hits);
      Ranked(bundle, hits)[i].position.sequence == |OfTier(sorted, i + 1, sorted[i].key.tier)|
  {
    var sorted := InKeyOrder(hits);
    CountIsHowMany(sorted, i + 1, sorted[i].key.tier);
  }

  lemma PlacesInOrder<T>(bundle: nat, sorted: seq<Raw<T>>, i: nat, j: nat)
    requires Sorted(sorted) && i < j < |sorted|
    ensures Before(PlaceOf(bundle, sorted, i), PlaceOf(bundle, sorted, j))
  {
    CountGrows(sorted, i + 1, j, sorted[j].key.tier);
    assert !Earlier(sorted[j].key, sorted[i].key);
  }
}
