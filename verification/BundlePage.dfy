/** The page of a search over several bundles: hits are offered in any order, and the page keeps
    the first few after the cursor. */
module BundlePage {
  import opened Basics

  /** The tiers in rank order: a phrase, then all terms. */
  datatype Tier = Phrase | AllTerms {
    function Rank(): nat { if Phrase? then 1 else 2 }
  }

  datatype Position = Position(tier: Tier, bundle: nat, sequence: nat)

  predicate Before(p: Position, q: Position) {
    || p.tier.Rank() < q.tier.Rank()
    || (p.tier == q.tier && p.bundle < q.bundle)
    || (p.tier == q.tier && p.bundle == q.bundle && p.sequence < q.sequence)
  }

  predicate AfterCursor(after: Option<Position>, p: Position) { after.Some? ==> Before(after.value, p) }

  /** Hits in rank order, none twice. */
  ghost predicate Ascending(list: seq<Position>) {
    forall i, j :: 0 <= i < j < |list| ==> Before(list[i], list[j])
  }

  function Elements(list: seq<Position>): set<Position> { set p | p in list }

  /** `list` is the set in rank order. */
  ghost predicate IsRanking(list: seq<Position>, s: set<Position>) {
    Ascending(list) && Elements(list) == s
  }

  /** `kept` is the first `wanted` of the set, or all of it. */
  ghost predicate AreFirst(kept: set<Position>, s: set<Position>, wanted: nat) {
    && kept <= s && |kept| == (if |s| < wanted then |s| else wanted)
    && forall p, q :: p in kept && q in s && q !in kept ==> Before(p, q)
  }

  lemma {:induction false} Size(list: seq<Position>)
    requires Ascending(list)
    ensures |Elements(list)| == |list|
    decreases |list|
  {
    if list != [] {
      var n := |list| - 1;
      Size(list[..n]);
      assert Elements(list) == Elements(list[..n]) + {list[n]};
      assert list[n] !in list[..n];
    }
  }

  lemma LastExists(s: set<Position>) returns (last: Position)
    requires s != {}
    ensures IsLast(last, s)
    decreases s
  {
    var one :| one in s;
    last := one;
    if s != {one} {
      var other := LastExists(s - {one});
      if Before(one, other) { last := other; }
      forall p | p in s && p != last ensures Before(p, last) {
        assert p == one || p in s - {one};
      }
    }
  }

  ghost predicate IsLast(last: Position, s: set<Position>) {
    last in s && forall p :: p in s && p != last ==> Before(p, last)
  }

  lemma RoomForMore(kept: set<Position>, s: set<Position>, wanted: nat, p: Position)
    requires AreFirst(kept, s, wanted) && p !in s && |kept| < wanted
    ensures AreFirst(kept + {p}, s + {p}, wanted)
  {
    SubsetOfOneSize(kept, s);
  }

  lemma PastTheLast(kept: set<Position>, s: set<Position>, wanted: nat, p: Position, last: Position)
    requires AreFirst(kept, s, wanted) && p !in s && |kept| == wanted && IsLast(last, kept) && Before(last, p)
    ensures AreFirst(kept, s + {p}, wanted)
  {
  }

  lemma LastTakenOut(kept: set<Position>, s: set<Position>, wanted: nat, p: Position, last: Position)
    requires AreFirst(kept, s, wanted) && p !in s && |kept| == wanted && IsLast(last, kept + {p})
    ensures AreFirst(kept + {p} - {last}, s + {p}, wanted)
  {
  }

  // The page

  datatype Hit<T> = Hit(position: Position, value: T)

  /** The hits after the cursor. */
  ghost function Eligible(after: Option<Position>, offered: set<Position>): set<Position> {
    set p | p in offered && AfterCursor(after, p)
  }

  /** Holds at most one hit more than a page, whatever the search matches. */
  class Page<T(0)> {
    const after: Option<Position>
    const wanted: nat
    var kept: map<Position, T>
    var total: nat
    /** Every hit offered so far. */
    ghost var offered: map<Position, T>

    constructor (after: Option<Position>, limit: nat)
      ensures Valid() && this.after == after && wanted == limit + 1 && offered == map[] && total == 0
    {
      this.after, wanted, kept, total, offered := after, limit + 1, map[], 0, map[];
    }

    ghost predicate Valid()
      reads this
    {
      && AreFirst(kept.Keys, Eligible(after, offered.Keys), wanted) && wanted > 0
      && (forall p :: p in kept ==> p in offered && kept[p] == offered[p])
      && total == |offered|
    }

    /** Exactly the hits of the list were offered. */
    ghost predicate Holds(offers: seq<Hit<T>>)
      reads this
    {
      && Valid() && offered.Keys == Offered(offers) && total == |offers|
      && forall p :: p in offered ==> Hit(p, offered[p]) in offers
    }

    /** Counts a hit and keeps it if it is among the first few. */
    method Offer(p: Position, hit: T)
      requires Valid() && p !in offered
      modifies this
      ensures Valid() && offered == old(offered)[p := hit] && total == old(total) + 1
    {
      ghost var first, eligible := kept.Keys, Eligible(after, offered.Keys);
      total := total + 1;
      offered := offered[p := hit];
      if after.Some? && !Before(after.value, p) {
        assert Eligible(after, offered.Keys) == eligible;
        return;
      }
      assert Eligible(after, offered.Keys) == eligible + {p};
      if |kept| >= wanted {
        var last := Last(kept.Keys);
        if Before(last, p) {
          PastTheLast(first, eligible, wanted, p, last);
          return;
        }
      }
      Insert(p, hit, eligible);
    }

    /** Puts a hit in and takes the last out again when that is one too many. */
    method Insert(p: Position, hit: T, ghost eligible: set<Position>)
      requires AreFirst(kept.Keys, eligible, wanted) && p !in eligible
      modifies this`kept
      ensures AreFirst(kept.Keys, eligible + {p}, wanted)
      ensures forall q :: q in kept ==>
        (q == p && kept[q] == hit) || (q != p && q in old(kept) && kept[q] == old(kept)[q])
    {
      ghost var first := kept.Keys;
      kept := kept[p := hit];
      assert kept.Keys == first + {p};
      if |kept| > wanted {
        var last := Last(kept.Keys);
        LastTakenOut(first, eligible, wanted, p, last);
        kept := map q | q in kept && q != last :: kept[q];
        assert kept.Keys == first + {p} - {last};
      } else {
        RoomForMore(first, eligible, wanted, p);
      }
    }
  }

  /** The last of a set in rank order. */
  method Last(s: set<Position>) returns (last: Position)
    requires s != {}
    ensures IsLast(last, s)
  {
    ghost var it := LastExists(s);
    last :| last in s && forall p :: p in s && p != last ==> Before(p, last);
  }

  // A page of the whole ranked list

  /** How many hits of the list the cursor has passed. */
  function Passed(full: seq<Position>, after: Option<Position>): (n: nat)
    ensures n <= |full|
  {
    if full == [] || AfterCursor(after, full[0]) then 0 else 1 + Passed(full[1..], after)
  }

  /** The list is the page of the whole ranked list that follows the cursor. */
  ghost predicate IsPage(full: seq<Position>, after: Option<Position>, limit: nat, list: seq<Position>, more: bool) {
    var i := Passed(full, after);
    list == full[i..Min(i + limit, |full|)] && (more <==> i + limit < |full|)
  }

  lemma {:induction false} PassedSplits(full: seq<Position>, after: Option<Position>)
    requires Ascending(full)
    ensures forall k :: 0 <= k < |full| ==> (AfterCursor(after, full[k]) <==> k >= Passed(full, after))
  {
    if full != [] && !AfterCursor(after, full[0]) {
      PassedSplits(full[1..], after);
      assert forall k :: 0 < k < |full| ==> full[k] == full[1..][k - 1];
    }
  }

  /** After the hit at `k` the cursor has passed exactly the hits up to it. */
  lemma {:induction false} PassedAt(full: seq<Position>, k: nat)
    requires Ascending(full) && k < |full|
    ensures Passed(full, Some(full[k])) == k + 1
  {
    PassedSplits(full, Some(full[k]));
    assert !AfterCursor(Some(full[k]), full[k]);
    assert k + 1 < |full| ==> AfterCursor(Some(full[k]), full[k + 1]);
  }

  lemma RankingIsUnique(a: seq<Position>, b: seq<Position>)
    requires Ascending(a) && Ascending(b) && Elements(a) == Elements(b)
    ensures a == b
    decreases |a|
  {
    Size(a);
    Size(b);
    if a != [] {
      var n := |a| - 1;
      assert a[n] in Elements(b) && b[n] in Elements(a);
      assert a[n] == b[n];
      assert Elements(a[..n]) == Elements(a) - {a[n]} && Elements(b[..n]) == Elements(b) - {b[n]};
      RankingIsUnique(a[..n], b[..n]);
      assert a == a[..n] + [a[n]] && b == b[..n] + [b[n]];
    }
  }

  lemma FirstIsUnique(a: set<Position>, b: set<Position>, s: set<Position>, wanted: nat)
    requires AreFirst(a, s, wanted) && AreFirst(b, s, wanted)
    ensures a == b
  {
    if x :| x in a && x !in b {
      assert forall y :: y in b ==> y in a;
      SubsetOfOneSize(b, a);
      assert false;
    }
    SubsetOfOneSize(a, b);
  }

  lemma InPrefix(list: seq<Position>, n: nat, k: nat)
    requires n <= |list| && k < |list|
    ensures k < n ==> list[k] in list[..n]
  {
    if k < n { assert list[..n][k] == list[k]; }
  }

  lemma PrefixIsFirst(list: seq<Position>, wanted: nat)
    requires Ascending(list)
    ensures AreFirst(Elements(list[..Min(wanted, |list|)]), Elements(list), wanted)
  {
    var n := Min(wanted, |list|);
    Size(list[..n]);
    Size(list);
    forall p, q | p in list[..n] && q in list && q !in list[..n] ensures Before(p, q) {
      var m :| 0 <= m < n && list[m] == p;
      var k :| 0 <= k < |list| && list[k] == q;
      InPrefix(list, n, k);
    }
  }

  lemma EligibleIsRest(full: seq<Position>, after: Option<Position>)
    requires Ascending(full)
    ensures Eligible(after, Elements(full)) == Elements(full[Passed(full, after)..])
  {
    var i := Passed(full, after);
    PassedSplits(full, after);
    forall p | p in full && AfterCursor(after, p) ensures p in full[i..] {
      var k :| 0 <= k < |full| && full[k] == p;
      assert full[i..][k - i] == p;
    }
  }

  /** The first few after the cursor, in rank order, are one slice of the whole ranked list. */
  lemma FirstAreSlice(
      full: seq<Position>, after: Option<Position>, wanted: nat, kept: set<Position>, list: seq<Position>)
    requires Ascending(full) && AreFirst(kept, Eligible(after, Elements(full)), wanted) && IsRanking(list, kept)
    ensures var i := Passed(full, after); list == full[i..Min(i + wanted, |full|)]
  {
    var i := Passed(full, after);
    EligibleIsRest(full, after);
    FirstOfRest(full[i..], wanted, kept, list);
    SliceOfRest(full, i, wanted);
  }

  lemma FirstOfRest(rest: seq<Position>, wanted: nat, kept: set<Position>, list: seq<Position>)
    requires Ascending(rest) && AreFirst(kept, Elements(rest), wanted) && IsRanking(list, kept)
    ensures list == rest[..Min(wanted, |rest|)]
  {
    var first := rest[..Min(wanted, |rest|)];
    PrefixIsFirst(rest, wanted);
    FirstIsUnique(kept, Elements(first), Elements(rest), wanted);
    RankingIsUnique(list, first);
  }

  lemma SliceOfRest(full: seq<Position>, i: nat, wanted: nat)
    requires i <= |full|
    ensures full[i..][..Min(wanted, |full[i..]|)] == full[i..Min(i + wanted, |full|)]
  {
  }

  /** The list is the page of the hits' one ranking. */
  ghost predicate IsPageOf(
      offered: set<Position>, after: Option<Position>, limit: nat, list: seq<Position>, more: bool) {
    forall full :: IsRanking(full, offered) ==> IsPage(full, after, limit, list, more)
  }

  lemma FirstMakeAPage(
      offered: set<Position>, after: Option<Position>, limit: nat, kept: set<Position>, places: seq<Position>)
    requires AreFirst(kept, Eligible(after, offered), limit + 1) && IsRanking(places, kept)
    ensures |places| <= limit ==> IsPageOf(offered, after, limit, places, false)
    ensures |places| > limit ==> IsPageOf(offered, after, limit, places[..|places| - 1], true)
  {
    forall full | IsRanking(full, offered)
      ensures |places| <= limit ==> IsPage(full, after, limit, places, false)
      ensures |places| > limit ==> IsPage(full, after, limit, places[..|places| - 1], true)
    {
      FirstAreSlice(full, after, limit + 1, kept, places);
    }
  }

  lemma OneInFront(first: Position, list: seq<Position>)
    requires Ascending(list) && forall q :: q in list ==> Before(first, q)
    ensures Ascending([first] + list) && Elements([first] + list) == {first} + Elements(list)
  {
  }

  /** The set in rank order. */
  method InOrder(s: set<Position>) returns (list: seq<Position>)
    ensures IsRanking(list, s)
  {
    var rest := s;
    list := [];
    while rest != {}
      invariant rest + Elements(list) == s && Ascending(list)
      invariant forall p, q :: p in rest && q in list ==> Before(p, q)
      decreases |rest|
    {
      var last := Last(rest);
      OneInFront(last, list);
      rest, list := rest - {last}, [last] + list;
    }
  }

  function Places<T>(hits: seq<Hit<T>>): (list: seq<Position>)
    ensures |list| == |hits|
  {
    seq(|hits|, i requires 0 <= i < |hits| => hits[i].position)
  }

  function Offered<T>(offers: seq<Hit<T>>): set<Position> { set i | 0 <= i < |offers| :: offers[i].position }

  /** The page's hits: all it kept but one, when it kept one too many. */
  method Finish<T(0)>(page: Page<T>) returns (list: seq<Hit<T>>, more: bool)
    requires page.Valid()
    ensures forall i :: 0 <= i < |list| ==>
      list[i].position in page.offered && page.offered[list[i].position] == list[i].value
    ensures IsPageOf(page.offered.Keys, page.after, page.wanted - 1, Places(list), more)
  {
    var places := InOrder(page.kept.Keys);
    FirstMakeAPage(page.offered.Keys, page.after, page.wanted - 1, page.kept.Keys, places);
    more := |places| >= page.wanted;
    if more { places := places[..|places| - 1]; }
    list := WithValues(places, page.kept);
    assert Places(list) == places;
  }

  function WithValues<T>(places: seq<Position>, kept: map<Position, T>): (list: seq<Hit<T>>)
    requires forall i :: 0 <= i < |places| ==> places[i] in kept
    ensures |list| == |places|
  {
    seq(|places|, i requires 0 <= i < |places| => Hit(places[i], kept[places[i]]))
  }

  ghost predicate Apart<T>(offers: seq<Hit<T>>) {
    forall i, j :: 0 <= i < j < |offers| ==> offers[i].position != offers[j].position
  }

  lemma OneMoreOffered<T>(offers: seq<Hit<T>>, hit: Hit<T>)
    ensures Offered(offers + [hit]) == Offered(offers) + {hit.position}
  {
    var more := offers + [hit];
    assert more[|offers|] == hit;
    forall p | p in Offered(offers) ensures p in Offered(more) {
      var i :| 0 <= i < |offers| && offers[i].position == p;
      assert more[i].position == p;
    }
  }

  /** Offers the hits of a list, those of `earlier` having been offered before. */
  method OfferAll<T(0)>(page: Page<T>, ghost earlier: seq<Hit<T>>, list: seq<Hit<T>>)
    requires page.Holds(earlier) && Apart(earlier + list)
    modifies page
    ensures page.Holds(earlier + list)
  {
    assert earlier + list[..0] == earlier;
    for n := 0 to |list|
      invariant page.Holds(earlier + list[..n])
    {
      NextIsNew(earlier, list, n);
      OfferNext(page, earlier + list[..n], list[n]);
    }
    assert list[..|list|] == list;
  }

  method OfferNext<T(0)>(page: Page<T>, ghost earlier: seq<Hit<T>>, hit: Hit<T>)
    requires page.Holds(earlier) && hit.position !in Offered(earlier)
    modifies page
    ensures page.Holds(earlier + [hit])
  {
    OneMoreOffered(earlier, hit);
    page.Offer(hit.position, hit.value);
  }

  lemma NextIsNew<T>(earlier: seq<Hit<T>>, list: seq<Hit<T>>, n: nat)
    requires Apart(earlier + list) && n < |list|
    ensures earlier + list[..n + 1] == earlier + list[..n] + [list[n]]
    ensures list[n].position !in Offered(earlier + list[..n])
  {
    var all := earlier + list;
    assert all[..|earlier| + n] == earlier + list[..n] && all[|earlier| + n] == list[n];
  }

  /** One page: everything is offered, in whatever order, and the first few after the cursor come
      back. */
  method OnePage<T(0)>(offers: seq<Hit<T>>, after: Option<Position>, limit: nat)
      returns (list: seq<Hit<T>>, more: bool, total: nat)
    requires limit > 0 && Apart(offers)
    ensures total == |offers| && forall i :: 0 <= i < |list| ==> list[i] in offers
    ensures IsPageOf(Offered(offers), after, limit, Places(list), more)
  {
    var page := new Page<T>(after, limit);
    assert [] + offers == offers;
    OfferAll(page, [], offers);
    total := page.total;
    list, more := Finish(page);
  }
}
