/** One literal search over the bundles found, page by page. */
module BundleSearch {
  import opened Basics
  import opened BundlePage
  import opened BundleRank
  import opened CursorKey
  import opened BundleWalk

  const MAX_LIMIT := 100
  const CURSOR_LIFETIME := 24 * 60 * 60 * 1_000_000

  datatype CursorError = InvalidLastItemKey | Expired | WrongSession | WrongGeneration | WrongQuery
  datatype Error = Cursor(error: CursorError) | Cancelled
  datatype Result<T> = Ok(value: T) | Err(error: Error)

  datatype Token = Token(session: nat, generation: nat, digest: nat, key: string, expires: nat)

  datatype Counts = Counts(found: nat, searched: nat, unavailable: nat, notSearched: nat, duplicates: nat,
    incomplete: nat)

  datatype Shown<T> = Shown(hit: Hit<T>, continuation: Token)

  datatype Outcome<T> = Outcome(hits: seq<Shown<T>>, total: nat, more: bool, counts: Counts, sessions: seq<Entry>,
    notSearched: seq<Skipped>)

  /** What a cursor of a search is bound to. */
  datatype Scope = Scope(session: nat, generation: nat, digest: nat)

  type Hash = string -> nat

  function ScopeOf<T>(bundles: seq<Bundle<T>>, terms: seq<string>, hash: Hash): Option<Scope> {
    if bundles == [] then None
    else Some(Scope(bundles[0].identity.session, |bundles|, hash(Material(Manifests(bundles), terms))))
  }

  /** Why a cursor does not continue the search; `None` when it does. */
  function Refusal(token: Token, scope: Option<Scope>, now: nat): Option<CursorError> {
    if scope.None? then Some(WrongSession)
    else if now >= token.expires then Some(Expired)
    else if token.session != scope.value.session then Some(WrongSession)
    else if token.generation != scope.value.generation then Some(WrongGeneration)
    else if token.digest != scope.value.digest then Some(WrongQuery)
    else None
  }

  function Incomplete<T>(bundles: seq<Bundle<T>>): nat {
    if bundles == [] then 0 else Incomplete(bundles[..|bundles| - 1]) + if bundles[|bundles| - 1].complete then 0 else 1
  }

  lemma OneMoreCounted<T>(bundles: seq<Bundle<T>>, b: Bundle<T>)
    ensures Incomplete(bundles + [b]) == Incomplete(bundles) + if b.complete then 0 else 1
    ensures (bundles + [b])[0] == if bundles == [] then b else bundles[0]
  {
    assert (bundles + [b])[..|bundles|] == bundles;
  }

  function IncompleteOnes<T>(bundles: seq<Bundle<T>>): set<nat> {
    set i | 0 <= i < |bundles| && !bundles[i].complete
  }

  lemma {:induction false} IncompleteIsHowMany<T>(bundles: seq<Bundle<T>>)
    ensures Incomplete(bundles) == |IncompleteOnes(bundles)|
    decreases |bundles|
  {
    if bundles != [] {
      var n := |bundles| - 1;
      IncompleteIsHowMany(bundles[..n]);
      assert IncompleteOnes(bundles) == IncompleteOnes(bundles[..n]) + if bundles[n].complete then {} else {n};
    }
  }

  /** What a search keeps beside its page. */
  datatype Progress = Progress(left: nat, digests: seq<string>, firstSession: Option<nat>, counts: Counts,
    sessions: seq<Entry>, notSearched: seq<Skipped>)

  function ProgressOf<T>(w: Walked<T>, found: nat): Progress {
    Progress(w.left, Manifests(w.searched), if w.searched == [] then None else Some(w.searched[0].identity.session),
      Counts(found, |w.searched|, w.unavailable, |w.skipped|, w.duplicates, Incomplete(w.searched)),
      w.entries, w.skipped[..Min(|w.skipped|, MAX_BUNDLES)])
  }

  /** What reading one more bundle adds. */
  function Entered<T>(p: Progress, name: string, b: Bundle<T>): Progress
    requires b.recordBytes <= p.left
  {
    Progress(p.left - b.recordBytes, p.digests + [b.identity.manifest],
      if p.firstSession.None? then Some(b.identity.session) else p.firstSession,
      p.counts.(searched := p.counts.searched + 1, incomplete := p.counts.incomplete + if b.complete then 0 else 1),
      p.sessions + [Searched(name, b.identity, |b.hits|)], p.notSearched)
  }

  lemma EnteredIsProgress<T>(w: Walked<T>, name: string, b: Bundle<T>, found: nat)
    requires b.recordBytes <= w.left
    ensures Entered(ProgressOf(w, found), name, b) ==
      ProgressOf(w.(left := w.left - b.recordBytes, searched := w.searched + [b],
        entries := w.entries + [Searched(name, b.identity, |b.hits|)]), found)
  {
    OneMoreSearched(w.searched, b);
    OneMoreCounted(w.searched, b);
  }

  /** Whether the search was cancelled by now. `quiet` says that it never is. */
  method IsCancelled(quiet: bool) returns (cancelled: bool)
    ensures quiet ==> !cancelled
  {
    if quiet {
      return false;
    }
    cancelled := *;
  }

  /** The state of one search. */
  class Run<T(0)> {
    const page: Page<T>
    var left: nat
    var digests: seq<string>
    var firstSession: Option<nat>
    var counts: Counts
    var sessions: seq<Entry>
    var notSearched: seq<Skipped>

    constructor (after: Option<Position>, limit: nat, budget: nat, found: nat)
      ensures Is(Walked(budget, 0, [], [], 0, [], 0), found) && fresh(page)
      ensures page.after == after && page.wanted == limit + 1
    {
      page := new Page<T>(after, limit);
      left, digests, firstSession, counts, sessions, notSearched :=
        budget, [], None, Counts(found, 0, 0, 0, 0, 0), [], [];
    }

    /** The search has come as far as `w`. */
    ghost predicate Is(w: Walked<T>, found: nat)
      reads this, page
    {
      && page.Holds(Offers(w.searched))
      && Kept() == ProgressOf(w, found)
    }

    method NotSearched(name: string, reason: Reason, ghost w: Walked<T>, ghost found: nat)
      requires Is(w, found)
      modifies this`counts, this`notSearched
      ensures Is(w.(skipped := w.skipped + [Skipped(name, reason)]), found)
    {
      counts := counts.(notSearched := counts.notSearched + 1);
      if |notSearched| < MAX_BUNDLES {
        notSearched := notSearched + [Skipped(name, reason)];
      }
    }

    /** What a cursor of this search is bound to; none when no bundle was read. */
    method CurrentScope(terms: seq<string>, hash: Hash, ghost w: Walked<T>, ghost found: nat)
        returns (scope: Option<Scope>)
      requires Kept() == ProgressOf(w, found)
      ensures scope == ScopeOf(w.searched, terms, hash)
    {
      if firstSession.None? {
        return None;
      }
      var material := SearchMaterial(digests, terms);
      scope := Some(Scope(firstSession.value, |digests|, hash(material)));
    }

    method PayManifest(ghost w: Walked<T>, ghost found: nat)
      requires Is(w, found) && left >= MANIFEST_BYTES
      modifies this`left
      ensures Is(Paid(w), found)
    {
      left := left - MANIFEST_BYTES;
    }

    method CouldNotOpen(name: string, reason: Unreadable, ghost w: Walked<T>, ghost found: nat)
      requires Is(w, found)
      modifies this`counts, this`sessions
      ensures Is(w.(unavailable := w.unavailable + 1, entries := w.entries + [Unavailable(name, reason)]), found)
    {
      counts := counts.(unavailable := counts.unavailable + 1);
      sessions := sessions + [Unavailable(name, reason)];
    }

    /** Offers one bundle's hits to the page; returns how many it has. */
    method OfferHits(rank: nat, b: Bundle<T>, ghost before: seq<Bundle<T>>) returns (count: nat)
      requires page.Holds(Offers(before)) && rank == |before|
      modifies page
      ensures page.Holds(Offers(before + [b])) && count == |b.hits|
    {
      var ranked := RankHits(rank, b.hits);
      OneMoreSearched(before, b);
      OffersAreApart(before + [b]);
      OfferAll(page, Offers(before), ranked);
      count := |b.hits|;
    }

    /** Reads one bundle, unless it was read before or does not fit; true once cancelled. */
    method Search(name: string, b: Bundle<T>, quiet: bool, ghost w: Walked<T>, ghost found: nat)
        returns (cancelled: bool)
      requires Is(w, found)
      modifies this, page
      ensures (quiet ==> !cancelled) && (!cancelled ==> Is(OpenedOne(w, name, b), found))
    {
      if b.identity.manifest in digests {
        counts := counts.(duplicates := counts.duplicates + 1);
        return false;
      }
      if b.recordBytes > left {
        NotSearched(name, ReadBudget, w, found);
        return false;
      }
      cancelled := Read(name, b, quiet, w, found);
    }

    /** Reads a bundle that fits, offers its hits and enters it; true once cancelled. */
    method Read(name: string, b: Bundle<T>, quiet: bool, ghost w: Walked<T>, ghost found: nat)
        returns (cancelled: bool)
      requires Is(w, found) && b.recordBytes <= w.left
      modifies this, page
      ensures quiet ==> !cancelled
      ensures !cancelled ==>
        Is(w.(left := w.left - b.recordBytes, searched := w.searched + [b],
          entries := w.entries + [Searched(name, b.identity, |b.hits|)]), found)
    {
      cancelled := IsCancelled(quiet);
      if cancelled {
        return;
      }
      var rank := |digests|;
      var hits := OfferHits(rank, b, w.searched);
      Enter(name, b, hits);
      EnteredIsProgress(w, name, b, found);
    }

    function Kept(): Progress
      reads this
    {
      Progress(left, digests, firstSession, counts, sessions, notSearched)
    }

    /** Enters a bundle that was read, and what reading it cost. */
    method Enter(name: string, b: Bundle<T>, hits: nat)
      requires b.recordBytes <= left && hits == |b.hits|
      modifies this
      ensures Kept() == Entered(old(Kept()), name, b)
    {
      left := left - b.recordBytes;
      counts := counts.(searched := counts.searched + 1);
      if !b.complete {
        counts := counts.(incomplete := counts.incomplete + 1);
      }
      digests := digests + [b.identity.manifest];
      if firstSession == None {
        firstSession := Some(b.identity.session);
      }
      sessions := sessions + [Searched(name, b.identity, hits)];
    }
  }

  datatype Input<T> = Input(found: seq<Found<T>>, terms: seq<string>, budget: nat)

  /** The cursor position an input token names, if it has one. */
  function CursorPosition(cursor: Option<Token>): Option<Position> {
    if cursor.None? then None else ParsePosition(cursor.value.key)
  }

  function TokenAt(scope: Scope, p: Position, now: nat): Token {
    Token(scope.session, scope.generation, scope.digest, PositionKey(p), now + CURSOR_LIFETIME)
  }

  /** Each hit carries the token that continues the search after it. */
  ghost predicate Continued<T>(shown: seq<Shown<T>>, scope: Option<Scope>, now: nat) {
    forall i :: 0 <= i < |shown| ==>
      scope.Some? && shown[i].continuation == TokenAt(scope.value, shown[i].hit.position, now)
  }

  function HitsOf<T>(shown: seq<Shown<T>>): (hits: seq<Hit<T>>)
    ensures |hits| == |shown|
  {
    seq(|shown|, i requires 0 <= i < |shown| => shown[i].hit)
  }

  /** What a search returns that came as far as `w`. */
  ghost predicate Gives<T>(
      w: Walked<T>, found: nat, terms: seq<string>, cursor: Option<Token>, limit: nat, now: nat, hash: Hash,
      out: Outcome<T>) {
    var offers := Offers(w.searched);
    var scope := ScopeOf(w.searched, terms, hash);
    && IsPageOf(Offered(offers), CursorPosition(cursor), limit, Places(HitsOf(out.hits)), out.more)
    && (forall i :: 0 <= i < |out.hits| ==> out.hits[i].hit in offers)
    && out.total == |offers| && Continued(out.hits, scope, now)
    && out.counts == Counts(found, |w.searched|, w.unavailable, |w.skipped|, w.duplicates, Incomplete(w.searched))
    && out.sessions == w.entries && out.notSearched == w.skipped[..Min(|w.skipped|, MAX_BUNDLES)]
    && (cursor.Some? ==> Refusal(cursor.value, scope, now) == None)
  }

  /** What a search returns, in terms of the bundles found. */
  ghost predicate Returns<T>(
      input: Input<T>, cursor: Option<Token>, limit: nat, now: nat, hash: Hash, out: Outcome<T>) {
    Gives(Walk(input.found, input.budget), |input.found|, input.terms, cursor, limit, now, hash, out)
  }

  /** Runs one search. It ends early only when it is cancelled or the cursor does not continue it. */
  method SearchBundles<T(0)>(
      input: Input<T>, limit: nat, cursor: Option<Token>, now: nat, hash: Hash, quiet: bool)
      returns (result: Result<Outcome<T>>)
    requires 1 <= limit <= MAX_LIMIT
    ensures quiet ==> result.Ok? || result.error.Cursor?
    ensures result.Ok? ==> Returns(input, cursor, limit, now, hash, result.value)
    ensures result.Err? && result.error.Cursor? ==>
      cursor.Some? &&
      if CursorPosition(cursor).None? then result.error.error == InvalidLastItemKey
      else
        Refusal(cursor.value, ScopeOf(Walk(input.found, input.budget).searched, input.terms, hash), now)
          == Some(result.error.error)
  {
    if cursor.Some? && ParsePosition(cursor.value.key).None? {
      return Err(Cursor(InvalidLastItemKey));
    }
    result := SearchFrom(input, limit, cursor, now, hash, quiet);
  }

  /** The search, its cursor's key once parsed. */
  method SearchFrom<T(0)>(input: Input<T>, limit: nat, cursor: Option<Token>, now: nat, hash: Hash, quiet: bool)
      returns (result: Result<Outcome<T>>)
    requires limit > 0 && (cursor.Some? ==> CursorPosition(cursor).Some?)
    ensures result.Ok? ==> Returns(input, cursor, limit, now, hash, result.value)
    ensures quiet ==> result.Ok? || result.error.Cursor?
    ensures result.Err? && result.error.Cursor? ==> cursor.Some?
    ensures result.Err? && result.error.Cursor? ==>
      Refusal(cursor.value, ScopeOf(Walk(input.found, input.budget).searched, input.terms, hash), now) ==
      Some(result.error.error)
  {
    var run := new Run<T>(CursorPosition(cursor), limit, input.budget, |input.found|);
    var cancelled := AdvanceAll(run, input, quiet);
    if cancelled {
      return Err(Cancelled);
    }
    result := Close(run, cursor, input.terms, now, hash, Walk(input.found, input.budget), |input.found|);
  }

  lemma OneFurther<T>(found: seq<Found<T>>, n: nat, budget: nat)
    requires n < |found|
    ensures Walk(found[..n + 1], budget) == Next(Walk(found[..n], budget), n, found[n])
  {
    assert found[..n + 1][..n] == found[..n];
  }

  /** Takes every bundle found, in order; true once cancelled. */
  method AdvanceAll<T(0)>(run: Run<T>, input: Input<T>, quiet: bool) returns (cancelled: bool)
    requires run.Is(Walk(input.found[..0], input.budget), |input.found|)
    modifies run, run.page
    ensures (quiet ==> !cancelled) && (!cancelled ==> run.Is(Walk(input.found, input.budget), |input.found|))
  {
    ghost var w := Walk(input.found[..0], input.budget);
    for n := 0 to |input.found|
      invariant w == Walk(input.found[..n], input.budget) && run.Is(w, |input.found|)
    {
      OneFurther(input.found, n, input.budget);
      cancelled := Advance(run, n, input.found[n], quiet, w, |input.found|);
      if cancelled {
        return;
      }
      w := Next(w, n, input.found[n]);
    }
    assert input.found[..|input.found|] == input.found;
    cancelled := false;
  }

  /** Takes the next bundle found; true once cancelled. */
  method Advance<T(0)>(run: Run<T>, n: nat, f: Found<T>, quiet: bool, ghost w: Walked<T>, ghost found: nat)
      returns (cancelled: bool)
    requires run.Is(w, found)
    modifies run, run.page
    ensures (quiet ==> !cancelled) && (!cancelled ==> run.Is(Next(w, n, f), found))
  {
    if n >= MAX_BUNDLES {
      run.NotSearched(f.name, BundleLimit, w, found);
      return false;
    }
    cancelled := IsCancelled(quiet);
    if cancelled {
      return;
    }
    if run.left < MANIFEST_BYTES {
      run.NotSearched(f.name, ReadBudget, w, found);
      return false;
    }
    run.PayManifest(w, found);
    cancelled := OpenNext(run, n, f, quiet, w, found);
  }

  /** What is left once a manifest is paid for. */
  ghost function Paid<T>(w: Walked<T>): Walked<T>
    requires w.left >= MANIFEST_BYTES
  {
    w.(left := w.left - MANIFEST_BYTES, openings := w.openings + 1)
  }

  /** Opens a bundle within the limit whose manifest is paid for; true once cancelled. */
  method OpenNext<T(0)>(run: Run<T>, n: nat, f: Found<T>, quiet: bool, ghost w: Walked<T>, ghost found: nat)
      returns (cancelled: bool)
    requires n < MAX_BUNDLES && w.left >= MANIFEST_BYTES && run.Is(Paid(w), found)
    modifies run, run.page
    ensures (quiet ==> !cancelled) && (!cancelled ==> run.Is(Next(w, n, f), found))
  {
    match f.contents
    case Readable(b) =>
      cancelled := run.Search(f.name, b, quiet, Paid(w), found);
    case Broken(reason) =>
      run.CouldNotOpen(f.name, reason, Paid(w), found);
      cancelled := false;
  }

  /** Checks the cursor against the search it reached, and makes the page. */
  method Close<T(0)>(
      run: Run<T>, cursor: Option<Token>, terms: seq<string>, now: nat, hash: Hash, ghost w: Walked<T>,
      ghost found: nat)
      returns (result: Result<Outcome<T>>)
    requires run.Is(w, found)
    requires run.page.after == CursorPosition(cursor) && (cursor.Some? ==> CursorPosition(cursor).Some?)
    ensures result.Ok? ==> Gives(w, found, terms, cursor, run.page.wanted - 1, now, hash, result.value)
    ensures result.Err? ==> cursor.Some? && result.error.Cursor?
    ensures result.Err? ==>
      Refusal(cursor.value, ScopeOf(w.searched, terms, hash), now) == Some(result.error.error)
  {
    var scope := run.CurrentScope(terms, hash, w, found);
    if cursor.Some? && Refusal(cursor.value, scope, now).Some? {
      return Err(Cursor(Refusal(cursor.value, scope, now).value));
    }
    var shown, more := Show(run.page, scope, now, w.searched);
    result := Ok(Outcome(shown, run.page.total, more, run.counts, run.sessions, run.notSearched));
  }

  /** The page's hits, each with the token that continues the search after it. */
  method Show<T(0)>(page: Page<T>, scope: Option<Scope>, now: nat, ghost searched: seq<Bundle<T>>)
      returns (shown: seq<Shown<T>>, more: bool)
    requires page.Holds(Offers(searched)) && (scope.None? <==> searched == [])
    ensures IsPageOf(Offered(Offers(searched)), page.after, page.wanted - 1, Places(HitsOf(shown)), more)
    ensures Continued(shown, scope, now) && forall i :: 0 <= i < |shown| ==> shown[i].hit in Offers(searched)
  {
    var hits;
    hits, more := Finish(page);
    shown := [];
    if scope.Some? {
      shown := seq(|hits|, i requires 0 <= i < |hits| => Shown(hits[i], TokenAt(scope.value, hits[i].position, now)));
    }
    NoScopeNoHits(page, searched, hits);
    assert HitsOf(shown) == hits;
  }

  /** Without a scope there is nothing to show, so no hit is dropped for want of one. */
  lemma NoScopeNoHits<T(0)>(page: Page<T>, searched: seq<Bundle<T>>, hits: seq<Hit<T>>)
    requires page.Holds(Offers(searched)) && forall i :: 0 <= i < |hits| ==> hits[i].position in page.offered
    ensures |hits| > 0 ==> searched != []
  {
    if |hits| > 0 {
      assert hits[0].position in page.offered.Keys;
      var i :| 0 <= i < |Offers(searched)| && Offers(searched)[i].position == hits[0].position;
    }
  }
}
