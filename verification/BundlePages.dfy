/** Reading a search page after page. */
module BundlePages {
  import opened Basics
  import opened BundlePage
  import opened BundleRank
  import opened CursorKey
  import opened TextParts
  import opened BundleWalk
  import opened BundleSearch

  /** A bundle whose hits of a tier can be counted in thirty-two bits. */
  predicate Countable<T>(found: seq<Found<T>>) {
    forall i :: 0 <= i < |found| && found[i].contents.Readable? ==> |found[i].contents.bundle.hits| < 0x1_0000_0000
  }

  ghost predicate AllCountable<T>(bundles: seq<Bundle<T>>) {
    forall i :: 0 <= i < |bundles| ==> |bundles[i].hits| < 0x1_0000_0000
  }

  lemma {:induction false} SearchedAreCountable<T>(found: seq<Found<T>>, budget: nat)
    requires Countable(found)
    ensures AllCountable(Walk(found, budget).searched)
  {
    if found != [] {
      SearchedAreCountable(found[..|found| - 1], budget);
    }
  }

  lemma {:induction false} OffersAreValid<T>(bundles: seq<Bundle<T>>)
    requires AllCountable(bundles) && |bundles| <= MAX_BUNDLES
    ensures forall i :: 0 <= i < |Offers(bundles)| ==> ValidPosition(Offers(bundles)[i].position)
  {
    if bundles != [] {
      var n := |bundles| - 1;
      OffersAreValid(bundles[..n]);
      RankedIsInOrder(n, bundles[n].hits);
    }
  }

  lemma RankingExists(s: set<Position>) returns (full: seq<Position>)
    ensures IsRanking(full, s)
    decreases s
  {
    if s == {} {
      full := [];
    } else {
      var last := LastExists(s);
      var init := RankingExists(s - {last});
      full := init + [last];
      assert Elements(full) == Elements(init) + {last};
    }
  }

  /** The page after a hit begins with the hit that follows it. */
  lemma NextPageFollows(
      full: seq<Position>, after: Option<Position>, limit: nat, list: seq<Position>, more: bool, cut: nat)
    requires Ascending(full) && IsPage(full, after, limit, list, more) && cut <= |list|
    ensures var i := Passed(full, after);
      && i + cut <= |full| && list[..cut] == full[i..i + cut]
      && (cut > 0 ==> Passed(full, Some(list[cut - 1])) == i + cut)
      && (cut == |list| && !more ==> i + cut == |full|)
      && (list == [] && limit > 0 ==> i == |full|)
  {
    var i := Passed(full, after);
    PageSlice(full, i, limit, list, more, cut);
    if cut > 0 { PassedAt(full, i + cut - 1); }
  }

  lemma PageSlice<T>(full: seq<T>, i: nat, limit: nat, list: seq<T>, more: bool, cut: nat)
    requires i <= |full| && list == full[i..Min(i + limit, |full|)] && (more <==> i + limit < |full|) && cut <= |list|
    ensures i + cut <= |full| && list[..cut] == full[i..i + cut] && (cut > 0 ==> list[cut - 1] == full[i + cut - 1])
    ensures (cut == |list| && !more ==> i + cut == |full|) && (list == [] && limit > 0 ==> i == |full|)
  {
    SliceOfSlice(full, i, Min(i + limit, |full|), cut);
  }

  lemma SliceOfSlice<T>(s: seq<T>, i: nat, j: nat, n: nat)
    requires i <= j <= |s| && n <= j - i
    ensures s[i..j][..n] == s[i..i + n] && (n > 0 ==> s[i..j][n - 1] == s[i + n - 1])
  {
  }

  lemma PlacesJoin<T>(a: seq<Hit<T>>, b: seq<Hit<T>>)
    ensures Places(a + b) == Places(a) + Places(b)
  {
  }

  // A search's own continuations

  /** The cursor is one that a search over the same bundles issued, at that time. */
  ghost predicate IsOwn<T>(input: Input<T>, hash: Hash, cursor: Option<Token>, issued: nat) {
    cursor.Some? ==>
      var scope := ScopeOf(Walk(input.found, input.budget).searched, input.terms, hash);
      scope.Some? && exists p :: ValidPosition(p) && cursor.value == TokenAt(scope.value, p, issued)
  }

  /** The continuation of a search over the same bundles and words is accepted, at its own position,
      exactly until its lifetime is over. */
  lemma OwnCursorIsAccepted(scope: Scope, p: Position, issued: nat, now: nat)
    requires ValidPosition(p)
    ensures CursorPosition(Some(TokenAt(scope, p, issued))) == Some(p)
    ensures Refusal(TokenAt(scope, p, issued), Some(scope), now) == None <==> now < issued + CURSOR_LIFETIME
  {
    KeyIsReadBack(p);
  }

  lemma OwnIsAccepted<T>(input: Input<T>, hash: Hash, cursor: Option<Token>, issued: nat, now: nat)
    requires IsOwn(input, hash, cursor, issued) && now < issued + CURSOR_LIFETIME
    ensures cursor.Some? ==>
      && CursorPosition(cursor).Some?
      && Refusal(cursor.value, ScopeOf(Walk(input.found, input.budget).searched, input.terms, hash), now) == None
  {
    if cursor.Some? {
      var scope := ScopeOf(Walk(input.found, input.budget).searched, input.terms, hash).value;
      var p :| ValidPosition(p) && cursor.value == TokenAt(scope, p, issued);
      OwnCursorIsAccepted(scope, p, issued, now);
    }
  }

  lemma TokensAreOwn<T>(
      input: Input<T>, limit: nat, cursor: Option<Token>, now: nat, hash: Hash, out: Outcome<T>, k: nat)
    requires Returns(input, cursor, limit, now, hash, out) && k < |out.hits| && Countable(input.found)
    ensures IsOwn(input, hash, Some(out.hits[k].continuation), now)
  {
    var searched := Walk(input.found, input.budget).searched;
    WalkIsAccounted(input.found, input.budget);
    SearchedAreCountable(input.found, input.budget);
    OffersAreValid(searched);
    assert out.hits[k].hit in Offers(searched);
    assert ValidPosition(out.hits[k].hit.position);
  }

  // Pages

  /** One page of any size, and the tokens that continue it. A search that is not cancelled
      is not refused while the cursor lives that one over the same bundles issued. */
  method ReadPage<T(0)>(
      input: Input<T>, limit: nat, cursor: Option<Token>, ghost issued: nat, now: nat, hash: Hash, quiet: bool,
      ghost full: seq<Position>)
    returns (failure: Option<Error>, hits: seq<Hit<T>>, more: bool, tokens: seq<Token>)
    requires 1 <= limit <= MAX_LIMIT && Countable(input.found)
    requires IsRanking(full, Offered(Offers(Walk(input.found, input.budget).searched)))
    ensures quiet && IsOwn(input, hash, cursor, issued) && now < issued + CURSOR_LIFETIME ==> failure.None?
    ensures failure.None? ==> IsPage(full, CursorPosition(cursor), limit, Places(hits), more) && |tokens| == |hits|
    ensures failure.None? ==> forall k :: 0 <= k < |hits| ==> CursorPosition(Some(tokens[k])) == Some(hits[k].position)
    ensures failure.None? ==> forall k :: 0 <= k < |hits| ==> IsOwn(input, hash, Some(tokens[k]), now)
    ensures failure.None? ==> forall k :: 0 <= k < |hits| ==>
      hits[k] in Offers(Walk(input.found, input.budget).searched)
  {
    var page := SearchBundles(input, limit, cursor, now, hash, quiet);
    if IsOwn(input, hash, cursor, issued) && now < issued + CURSOR_LIFETIME {
      OwnIsAccepted(input, hash, cursor, issued, now);
    }
    if page.Err? {
      return Some(page.error), [], false, [];
    }
    var out := page.value;
    failure, hits, more := None, HitsOf(out.hits), out.more;
    tokens := seq(|out.hits|, i requires 0 <= i < |out.hits| => out.hits[i].continuation);
    ReturnsAPage(input, limit, cursor, now, hash, out, full);
    forall k | 0 <= k < |hits|
      ensures CursorPosition(Some(tokens[k])) == Some(hits[k].position) && IsOwn(input, hash, Some(tokens[k]), now)
    {
      LastContinues(input, limit, cursor, now, hash, out, k);
      TokensAreOwn(input, limit, cursor, now, hash, out, k);
    }
  }

  /** What was used of a page is the next part of the ranking; if it is not over, `next` stands
      right after it. */
  ghost predicate IsNextPart<T>(
      full: seq<Position>, after: Option<Position>, used: seq<Hit<T>>, over: bool, next: Option<Position>) {
    var i := Passed(full, after);
    && i + |used| <= |full| && Places(used) == full[i..i + |used|]
    && (if over then i + |used| == |full| else |used| > 0 && Passed(full, next) == i + |used|)
  }

  /** When the host asks for its next page: at any time, or, if it is prompt, while the cursor it was
      given lives. */
  method AskAt(issued: nat, prompt: bool) returns (now: nat)
    ensures prompt ==> issued <= now < issued + CURSOR_LIFETIME
  {
    now := *;
    if prompt && !(issued <= now < issued + CURSOR_LIFETIME) {
      now := issued;
    }
  }

  /** A page used up to a hit of the host's choosing. */
  method ReadOne<T(0)>(
      input: Input<T>, cursor: Option<Token>, issued: nat, hash: Hash, prompt: bool, ghost full: seq<Position>)
    returns (failure: Option<Error>, used: seq<Hit<T>>, over: bool, next: Option<Token>, now: nat)
    requires Countable(input.found) && IsRanking(full, Offered(Offers(Walk(input.found, input.budget).searched)))
    ensures prompt && IsOwn(input, hash, cursor, issued) ==> failure.None?
    ensures failure.None? ==> IsNextPart(full, CursorPosition(cursor), used, over, CursorPosition(next))
    ensures failure.None? ==> IsOwn(input, hash, next, now)
    ensures failure.None? ==> forall i :: 0 <= i < |used| ==>
      used[i] in Offers(Walk(input.found, input.budget).searched)
  {
    now := AskAt(issued, prompt);
    var limit, wish := MAX_LIMIT, *;
    if 1 <= wish < MAX_LIMIT { limit := wish; }
    var hits, more, tokens;
    failure, hits, more, tokens := ReadPage(input, limit, cursor, issued, now, hash, prompt, full);
    used, over, next := [], true, None;
    if failure.None? {
      var cut, end := |hits|, *;
      if 1 <= end < |hits| { cut := end; }
      PartIsNext(full, CursorPosition(cursor), limit, hits, more, cut);
      used := hits[..cut];
      assert |used| == cut && forall k :: 0 <= k < cut ==> used[k] == hits[k];
      over := cut == 0 || (cut == |hits| && !more);
      if !over {
        next := Some(tokens[cut - 1]);
      }
    }
  }

  lemma ReturnsAPage<T>(
      input: Input<T>, limit: nat, cursor: Option<Token>, now: nat, hash: Hash, out: Outcome<T>, full: seq<Position>)
    requires Returns(input, cursor, limit, now, hash, out)
    requires IsRanking(full, Offered(Offers(Walk(input.found, input.budget).searched)))
    ensures IsPage(full, CursorPosition(cursor), limit, Places(HitsOf(out.hits)), out.more)
    ensures forall k :: 0 <= k < |out.hits| ==> HitsOf(out.hits)[k] in Offers(Walk(input.found, input.budget).searched)
  {
    forall k | 0 <= k < |out.hits| ensures HitsOf(out.hits)[k] in Offers(Walk(input.found, input.budget).searched) {
      assert HitsOf(out.hits)[k] == out.hits[k].hit;
    }
  }

  lemma PagePart<T>(full: seq<Position>, after: Option<Position>, limit: nat, hits: seq<Hit<T>>, more: bool, cut: nat)
    requires Ascending(full) && IsPage(full, after, limit, Places(hits), more) && cut <= |hits|
    ensures var i := Passed(full, after);
      && i + cut <= |full| && Places(hits[..cut]) == full[i..i + cut]
      && (cut > 0 ==> Passed(full, Some(hits[cut - 1].position)) == i + cut)
      && (cut == |hits| && !more ==> i + cut == |full|)
      && (hits == [] && limit > 0 ==> i == |full|)
  {
    NextPageFollows(full, after, limit, Places(hits), more, cut);
    assert Places(hits[..cut]) == Places(hits)[..cut];
  }

  lemma PartIsNext<T>(full: seq<Position>, after: Option<Position>, limit: nat, hits: seq<Hit<T>>, more: bool, cut: nat)
    requires Ascending(full) && IsPage(full, after, limit, Places(hits), more) && limit > 0
    requires if hits == [] then cut == 0 else 0 < cut <= |hits|
    ensures var over := cut == 0 || (cut == |hits| && !more);
      IsNextPart(full, after, hits[..cut], over, if over then None else Some(hits[cut - 1].position))
  {
    PagePart(full, after, limit, hits, more, cut);
  }

  lemma LastContinues<T>(
      input: Input<T>, limit: nat, cursor: Option<Token>, now: nat, hash: Hash, out: Outcome<T>, k: nat)
    requires Returns(input, cursor, limit, now, hash, out) && k < |out.hits| && Countable(input.found)
    ensures CursorPosition(Some(out.hits[k].continuation)) == Some(HitsOf(out.hits)[k].position)
  {
    var searched := Walk(input.found, input.budget).searched;
    WalkIsAccounted(input.found, input.budget);
    SearchedAreCountable(input.found, input.budget);
    OffersAreValid(searched);
    assert out.hits[k].hit in Offers(searched);
    ContinuesAfter(out, input, k, ScopeOf(searched, input.terms, hash), now);
  }

  /** What was read so far is the beginning of the ranking, and the next page begins right after it. */
  ghost predicate ReadSoFar<T>(full: seq<Position>, all: seq<Hit<T>>, over: bool, cursor: Option<Position>) {
    && |all| <= |full| && Places(all) == full[..|all|]
    && (if over then |all| == |full| else Passed(full, cursor) == |all|)
  }

  lemma ReadFurther<T>(
      full: seq<Position>, all: seq<Hit<T>>, cursor: Option<Position>, used: seq<Hit<T>>, over: bool,
      next: Option<Position>)
    requires ReadSoFar(full, all, false, cursor) && IsNextPart(full, cursor, used, over, next)
    ensures ReadSoFar(full, all + used, over, next) && (over || |used| > 0)
  {
    PlacesJoin(all, used);
    assert full[..|all|] + full[|all|..|all| + |used|] == full[..|all| + |used|];
  }

  /** A host reads pages of any size, may end any page early, and continues each time after the
      last hit it used. When no page is refused it has seen every hit once, in rank order; and none is
      refused to a prompt host, who asks again while its cursor lives and whom nobody cancels. */
  method ReadAll<T(0)>(input: Input<T>, hash: Hash, prompt: bool) returns (result: Result<seq<Hit<T>>>)
    requires Countable(input.found)
    ensures prompt ==> result.Ok?
    ensures result.Ok? ==>
      var offers := Offers(Walk(input.found, input.budget).searched);
      IsRanking(Places(result.value), Offered(offers)) && |result.value| == |offers|
        && forall i :: 0 <= i < |result.value| ==> result.value[i] in offers
  {
    ghost var searched := Walk(input.found, input.budget).searched;
    ghost var full := RankingExists(Offered(Offers(searched)));
    var all: seq<Hit<T>>, cursor: Option<Token>, issued: nat, over := [], None, 0, false;
    while !over
      invariant ReadSoFar(full, all, over, CursorPosition(cursor)) && IsOwn(input, hash, cursor, issued)
      invariant forall i :: 0 <= i < |all| ==> all[i] in Offers(searched)
      decreases !over, |full| - |all|
    {
      var failure, used, done, next, now := ReadOne(input, cursor, issued, hash, prompt, full);
      if failure.Some? {
        return Err(failure.value);
      }
      ReadFurther(full, all, CursorPosition(cursor), used, done, CursorPosition(next));
      all, over, cursor, issued := all + used, done, next, now;
    }
    assert full[..|all|] == full;
    EveryOfferOnce(searched, full);
    result := Ok(all);
  }

  /** A hit's continuation names the hit's own position. */
  lemma ContinuesAfter<T>(out: Outcome<T>, input: Input<T>, k: nat, scope: Option<Scope>, now: nat)
    requires k < |out.hits| && Continued(out.hits, scope, now)
    requires ValidPosition(out.hits[k].hit.position)
    ensures CursorPosition(Some(out.hits[k].continuation)) == Some(out.hits[k].hit.position)
  {
    KeyIsReadBack(out.hits[k].hit.position);
  }

  lemma EveryOfferOnce<T>(bundles: seq<Bundle<T>>, full: seq<Position>)
    requires IsRanking(full, Offered(Offers(bundles)))
    ensures |full| == |Offers(bundles)|
  {
    OffersAreApart(bundles);
    Size(full);
    SizeOfOffered(Offers(bundles));
  }

  lemma {:induction false} SizeOfOffered<T>(offers: seq<Hit<T>>)
    requires Apart(offers)
    ensures |Offered(offers)| == |offers|
    decreases |offers|
  {
    if offers != [] {
      var n := |offers| - 1;
      SizeOfOffered(offers[..n]);
      OneMoreOffered(offers[..n], offers[n]);
      assert offers[n].position !in Offered(offers[..n]);
      assert offers[..n] + [offers[n]] == offers;
    }
  }

  // A cursor that is accepted continues the same search

  ghost predicate CollisionFree(hash: Hash) { forall a, b :: hash(a) == hash(b) ==> a == b }

  /** A manifest names its bundle exactly, so the same manifest holds the same hits for the same words. */
  ghost predicate SameRecords<T>(a: seq<Bundle<T>>, b: seq<Bundle<T>>) {
    forall i, j :: 0 <= i < |a| && 0 <= j < |b| && a[i].identity.manifest == b[j].identity.manifest ==>
      a[i].hits == b[j].hits
  }

  /** Any change to the bundles read, their order or the words refuses the cursor; one that is
      accepted continues the very list it came from. */
  lemma AcceptedContinuesTheSameList<T>(
      a: seq<Bundle<T>>, terms: seq<string>, b: seq<Bundle<T>>, others: seq<string>, hash: Hash, p: Position,
      earlier: nat, now: nat)
    requires CollisionFree(hash) && a != [] && SameRecords(a, b)
    requires Free(Manifests(a), '\n') && Free(terms, '\n') && Free(Manifests(b), '\n') && Free(others, '\n')
    requires Refusal(TokenAt(ScopeOf(a, terms, hash).value, p, earlier), ScopeOf(b, others, hash), now) == None
    ensures Manifests(a) == Manifests(b) && terms == others && Offers(a) == Offers(b)
  {
    MaterialIsInjective(Manifests(a), terms, Manifests(b), others);
    forall i | 0 <= i < |a| ensures a[i].hits == b[i].hits {
      assert Manifests(a)[i] == Manifests(b)[i];
    }
    SameHitsSameOffers(a, b);
  }

  lemma {:induction false} SameHitsSameOffers<T>(a: seq<Bundle<T>>, b: seq<Bundle<T>>)
    requires |a| == |b| && forall i :: 0 <= i < |a| ==> a[i].hits == b[i].hits
    ensures Offers(a) == Offers(b)
  {
    if a != [] {
      SameHitsSameOffers(a[..|a| - 1], b[..|b| - 1]);
    }
  }
}
