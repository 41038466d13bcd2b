/** One part of a plan: mark what is current, fetch the rest, then stage, smoke and activate it
    unit by unit. */
module InstallPart {
  import opened Basics
  import opened Install
  import opened InstallUnits

  predicate Ascending(list: seq<nat>) {
    forall i, j :: 0 <= i < j < |list| ==> list[i] < list[j]
  }

  /** The entries from `a` up to `b` all name a download in the given state. */
  ghost predicate Are(fate: seq<Option<State>>, list: seq<nat>, a: nat, b: nat, st: State)
    requires a <= b <= |list|
  {
    forall k :: a <= k < b ==> list[k] < |fate| && fate[list[k]] == Some(st)
  }

  ghost predicate AreSpent(fate: seq<Option<State>>, list: seq<nat>)
  {
    forall k :: 0 <= k < |list| ==> list[k] < |fate| && fate[list[k]].Some? && fate[list[k]].value.Spent()
  }

  ghost predicate AreOpen(fate: seq<Option<State>>, list: seq<nat>, a: nat, b: nat)
    requires a <= b <= |list|
  {
    forall k :: a <= k < b ==> list[k] < |fate| && fate[list[k]].Some? && fate[list[k]].value.Open()
  }

  /** Nothing has changed but at the entries of the list. */
  ghost predicate Apart<T(!new)>(before: seq<T>, after: seq<T>, list: seq<nat>) {
    |before| == |after| && forall i {:trigger after[i]} :: 0 <= i < |before| && i !in list ==> after[i] == before[i]
  }

  ghost predicate NoneActivatedFrom(reports: seq<Report>, i: nat) {
    forall j :: i <= j < |reports| ==> !reports[j].outcome.Activated?
  }

  ghost predicate SameOutcomes(before: seq<Report>, after: seq<Report>) {
    |before| == |after| && forall i :: 0 <= i < |before| ==> after[i].outcome == before[i].outcome
  }

  /** The active entries come before the others. */
  ghost predicate ActiveFirst(fate: seq<Option<State>>, list: seq<nat>) {
    forall j, k :: 0 <= j < k < |list| && IsActive(fate, list[k]) ==> IsActive(fate, list[j])
  }

  predicate IsActive(fate: seq<Option<State>>, i: nat) { i < |fate| && fate[i] == Some(Active) }

  /** The entry at `n` moves on; the others stay where they are. */
  lemma OneTurned(before: seq<Option<State>>, after: seq<Option<State>>, unit: seq<nat>, n: nat, was: State, now: State)
    requires Ascending(unit) && n < |unit| && Are(before, unit, n, |unit|, was) && after == before[unit[n] := Some(now)]
    ensures Are(before, unit, 0, n, Active) ==> Are(after, unit, 0, n, Active)
    ensures Are(after, unit, n, n + 1, now) && Are(after, unit, n + 1, |unit|, was) && Apart(before, after, unit)
  {
    assert unit[n] in unit;
  }

  lemma OneReported(before: seq<Report>, after: seq<Report>, unit: seq<nat>, n: nat)
    requires Ascending(unit) && n < |unit| && Apart(before, after, [unit[n]]) && NoneActivatedFrom(before, unit[n])
    ensures Apart(before, after, unit) && (n + 1 < |unit| ==> NoneActivatedFrom(after, unit[n + 1]))
  {
    assert unit[n] in unit;
  }

  /** An activation that stopped at entry `n`. */
  lemma StopsThere(fate: seq<Option<State>>, unit: seq<nat>, n: nat)
    requires n < |unit| && Are(fate, unit, 0, n, Active)
      && Are(fate, unit, n, n + 1, Disposed) && Are(fate, unit, n + 1, |unit|, Thrown)
    ensures AreSpent(fate, unit) && ActiveFirst(fate, unit)
    ensures forall k :: n <= k < |unit| ==> !IsActive(fate, unit[k])
  {
    forall j, k | 0 <= j < k < |unit| && IsActive(fate, unit[k]) ensures IsActive(fate, unit[j]) {
      assert k < n;
    }
  }

  /** Nothing of a unit is active unless the whole unit passed one smoke. */
  ghost predicate PassedTogether(fate: seq<Option<State>>, passes: set<seq<nat>>, units: seq<seq<nat>>) {
    forall u, i :: u in units && i in u && IsActive(fate, i) ==> u in passes
  }

  ghost predicate At(unit: seq<nat>, downloads: seq<nat>, start: nat) {
    start + |unit| <= |downloads| && unit == downloads[start..start + |unit|]
  }

  /** Where each unit begins among the downloads. */
  ghost predicate Cut(units: seq<seq<nat>>, downloads: seq<nat>, cuts: seq<nat>) {
    && |cuts| == |units| + 1 && cuts[0] == 0 && cuts[|units|] == |downloads|
    && (forall j, k :: 0 <= j < k < |cuts| ==> cuts[j] + |units[j]| <= cuts[k])
    && forall k :: 0 <= k < |units| ==> At(units[k], downloads, cuts[k]) && cuts[k + 1] == cuts[k] + |units[k]|
  }

  lemma NextCut(units: seq<seq<nat>>, downloads: seq<nat>, cuts: seq<nat>, k: nat)
    requires Cut(units, downloads, cuts) && k < |units| && [] !in units
    ensures var d, e := cuts[k], cuts[k + 1];
      d < e <= |downloads| && e == d + |units[k]| && units[k] == downloads[d..e]
  {
    assert units[k] in units && At(units[k], downloads, cuts[k]);
  }

  lemma {:induction false} CutsOf(units: seq<seq<nat>>) returns (cuts: seq<nat>)
    ensures Cut(units, Flatten(units), cuts)
    decreases |units|
  {
    if units == [] {
      cuts := [0];
    } else {
      var n := |units| - 1;
      var init := Flatten(units[..n]);
      var earlier := CutsOf(units[..n]);
      cuts := earlier + [|init| + |units[n]|];
      OneMoreCut(units[..n], init, earlier, units[n]);
      assert units[..n] + [units[n]] == units;
    }
  }

  lemma OneMoreCut(units: seq<seq<nat>>, downloads: seq<nat>, cuts: seq<nat>, unit: seq<nat>)
    requires Cut(units, downloads, cuts)
    ensures Cut(units + [unit], downloads + unit, cuts + [|downloads| + |unit|])
  {
    var all, more, n := downloads + unit, cuts + [|downloads| + |unit|], |units|;
    forall k | 0 <= k <= n
      ensures At((units + [unit])[k], all, more[k]) && more[k + 1] == more[k] + |(units + [unit])[k]| {
      if k < n { assert At(units[k], downloads, cuts[k]); }
    }
    forall j, k | 0 <= j < k < |more| ensures more[j] + |(units + [unit])[j]| <= more[k] {
      if j < n { assert At(units[j], downloads, cuts[j]); }
    }
  }

  lemma NoneActiveYet(
      fate: seq<Option<State>>, passes: set<seq<nat>>, units: seq<seq<nat>>, downloads: seq<nat>, cuts: seq<nat>)
    requires Cut(units, downloads, cuts) && Are(fate, downloads, 0, |downloads|, Held)
    ensures PassedTogether(fate, passes, units)
  {
    forall u, i | u in units && i in u ensures !IsActive(fate, i) {
      var m :| 0 <= m < |units| && units[m] == u;
      var x :| 0 <= x < |u| && u[x] == i;
      assert At(units[m], downloads, cuts[m]);
      assert downloads[cuts[m] + x] == i;
    }
  }

  /** Nothing after `e` is active, and of the unit before it nothing unless it passed its smoke. */
  ghost predicate UsedTo(fate: seq<Option<State>>, passes: set<seq<nat>>, downloads: seq<nat>, d: nat, e: nat)
    requires d <= e <= |downloads|
  {
    && ((exists j :: d <= j < e && IsActive(fate, downloads[j])) ==> downloads[d..e] in passes)
    && forall j :: e <= j < |downloads| ==> !IsActive(fate, downloads[j])
  }

  /** Installing the unit at `k` leaves every unit passed together. */
  lemma StillTogether(units: seq<seq<nat>>, downloads: seq<nat>, cuts: seq<nat>, k: nat,
    fate: seq<Option<State>>, passes: set<seq<nat>>, after: seq<Option<State>>, morePasses: set<seq<nat>>)
    requires Cut(units, downloads, cuts) && k < |units|
    requires PassedTogether(fate, passes, units) && passes <= morePasses
    requires Are(fate, downloads, 0, cuts[k], Active)
      && UsedTo(after, morePasses, downloads, cuts[k], cuts[k] + |units[k]|)
    ensures PassedTogether(after, morePasses, units)
  {
    forall u, i | u in units && i in u && IsActive(after, i) ensures u in morePasses {
      var m :| 0 <= m < |units| && units[m] == u;
      var x :| 0 <= x < |u| && u[x] == i;
      assert At(units[m], downloads, cuts[m]);
      assert downloads[cuts[m] + x] == i;
      if m < k {
        assert cuts[m] + |units[m]| <= cuts[k];
        assert IsActive(fate, i);
      }
    }
  }

  lemma SliceOf(downloads: seq<nat>, d: nat, e: nat)
    requires Ascending(downloads) && d <= e <= |downloads|
    ensures Ascending(downloads[d..e])
    ensures forall k :: 0 <= k < |downloads| ==> (downloads[k] in downloads[d..e] <==> d <= k < e)
  {
    var unit := downloads[d..e];
    forall k | 0 <= k < |downloads| ensures downloads[k] in unit <==> d <= k < e {
      if d <= k < e { assert unit[k - d] == downloads[k]; }
    }
  }

  lemma BrokeStays(before: seq<Report>, after: seq<Report>)
    requires SameOutcomes(before, after) && SomeBroke(before)
    ensures SomeBroke(after)
  {
    var i :| 0 <= i < |before| && before[i].outcome.Broke();
    assert after[i].outcome.Broke();
  }

  /** The units before `d` are active, the one up to `e` is spent, and the rest is thrown away. */
  lemma RestThrown(before: seq<Option<State>>, after: seq<Option<State>>, downloads: seq<nat>, d: nat, e: nat)
    requires d <= e <= |downloads| && Ascending(downloads) && Apart(before, after, downloads[e..|downloads|])
    requires Are(before, downloads, 0, d, Active) && Are(after, downloads, e, |downloads|, Thrown)
    requires AreSpent(before, downloads[d..e]) && ActiveFirst(before, downloads[d..e])
    ensures AreSpent(after, downloads) && ActiveFirst(after, downloads)
    ensures forall k :: 0 <= k < e ==> downloads[k] < |before| && after[downloads[k]] == before[downloads[k]]
    ensures forall k :: e <= k < |downloads| ==> !IsActive(after, downloads[k])
  {
    var unit := downloads[d..e];
    SliceOf(downloads, e, |downloads|);
    assert forall k :: d <= k < e ==> downloads[k] == unit[k - d];
    assert forall k :: 0 <= k < e ==> downloads[k] < |before|;
  }

  lemma ApartInMore<T(!new)>(before: seq<T>, after: seq<T>, list: seq<nat>, d: nat, e: nat)
    requires d <= e <= |list| && Apart(before, after, list[d..e])
    ensures Apart(before, after, list)
  {
    assert forall x :: x in list[d..e] ==> x in list;
  }

  lemma NoneAfter(before: seq<Report>, after: seq<Report>, downloads: seq<nat>, d: nat, e: nat)
    requires d < e <= |downloads| && Ascending(downloads) && Apart(before, after, downloads[d..e])
    requires NoneActivatedFrom(before, downloads[d])
    ensures Apart(before, after, downloads) && (e < |downloads| ==> NoneActivatedFrom(after, downloads[e]))
  {
    ApartInMore(before, after, downloads, d, e);
    assert forall k :: 0 <= k < e - d ==> downloads[d..e][k] == downloads[d + k];
    assert e < |downloads| ==> forall i :: i in downloads[d..e] ==> i < downloads[e];
  }

  lemma UnitReady(fate: seq<Option<State>>, downloads: seq<nat>, d: nat, e: nat)
    requires d < e <= |downloads| && Ascending(downloads) && Are(fate, downloads, d, |downloads|, Held)
    ensures var unit := downloads[d..e];
      Ascending(unit) && unit != [] && unit[0] == downloads[d] && Are(fate, unit, 0, |unit|, Held)
  {
  }

  lemma AfterUnit(before: seq<Option<State>>, after: seq<Option<State>>, downloads: seq<nat>, d: nat, e: nat)
    requires d <= e <= |downloads| && Ascending(downloads) && Apart(before, after, downloads[d..e])
    requires Are(before, downloads, 0, d, Active) && Are(before, downloads, d, |downloads|, Held)
    ensures Are(after, downloads, 0, d, Active)
      && Are(after, downloads, e, |downloads|, Held) && Apart(before, after, downloads)
    ensures Are(after, downloads[d..e], 0, e - d, Active) ==> Are(after, downloads, 0, e, Active)
  {
    SliceOf(downloads, d, e);
    ApartInMore(before, after, downloads, d, e);
    var unit := downloads[d..e];
    assert forall k :: d <= k < e ==> downloads[k] == unit[k - d];
  }

  function MarkedReport(a: Action, isPending: bool): Report {
    if isPending then BlockedReport(a) else BlockedReport(a).(outcome := AlreadyCurrent)
  }

  lemma UsedUpTo(fate: seq<Option<State>>, passes: set<seq<nat>>, downloads: seq<nat>, d: nat, e: nat)
    requires d <= e <= |downloads|
    requires (exists k :: 0 <= k < e - d && IsActive(fate, downloads[d..e][k])) ==> downloads[d..e] in passes
    requires forall k :: e <= k < |downloads| ==> !IsActive(fate, downloads[k])
    ensures UsedTo(fate, passes, downloads, d, e)
  {
    if j :| d <= j < e && IsActive(fate, downloads[j]) {
      assert IsActive(fate, downloads[d..e][j - d]);
    }
  }

  // Causes

  lemma CausesStay(
      reports: seq<Report>, more: seq<Report>, faults: set<nat>, refused: set<seq<nat>>, cancelled: bool,
      moreFaults: set<nat>, moreRefused: set<seq<nat>>, stillCancelled: bool)
    requires Caused(reports, faults, refused, cancelled) && SameOutcomes(reports, more)
    requires faults <= moreFaults && refused <= moreRefused && (cancelled ==> stillCancelled)
    ensures Caused(more, moreFaults, moreRefused, stillCancelled)
  {
    forall i: nat | IsBroken(more, i)
      ensures HasCause(more[i].outcome.failure, i, moreFaults, moreRefused, stillCancelled)
    {
      assert IsBroken(reports, i);
    }
  }

  /** One more failure, which has a cause. */
  lemma CauseAdded(
      reports: seq<Report>, more: seq<Report>, n: nat, failure: Failure, stage: Option<Disposal>,
      faults: set<nat>, refused: set<seq<nat>>, cancelled: bool)
    requires n < |reports| && Caused(reports, faults, refused, cancelled)
    requires SameOutcomes(reports[n := reports[n].(outcome := Failed(failure), stage := stage)], more)
    requires HasCause(failure, n, faults, refused, cancelled)
    ensures Caused(more, faults, refused, cancelled)
  {
    forall i: nat | IsBroken(more, i)
      ensures HasCause(more[i].outcome.failure, i, faults, refused, cancelled)
    {
      if i != n { assert IsBroken(reports, i); }
    }
  }

  /** A list that all failed alike, with a cause. */
  lemma CausesAdded(
      reports: seq<Report>, more: seq<Report>, list: seq<nat>, failure: Failure, faults: set<nat>,
      refused: set<seq<nat>>, cancelled: bool)
    requires Caused(reports, faults, refused, cancelled) && Apart(reports, more, list)
    requires forall k :: 0 <= k < |list| ==> list[k] < |more| && more[list[k]].outcome == Failed(failure)
    requires forall i: nat :: i in list ==> HasCause(failure, i, faults, refused, cancelled)
    ensures Caused(more, faults, refused, cancelled)
  {
    forall i: nat | IsBroken(more, i)
      ensures HasCause(more[i].outcome.failure, i, faults, refused, cancelled)
    {
      if i !in list { assert IsBroken(reports, i); }
    }
  }

  lemma GoodNeedsNoCause(
      reports: seq<Report>, i: nat, good: Report, faults: set<nat>, refused: set<seq<nat>>, cancelled: bool)
    requires i < |reports| && good.outcome.Good() && Caused(reports, faults, refused, cancelled)
    ensures Caused(reports[i := good], faults, refused, cancelled)
  {
    var more := reports[i := good];
    forall j: nat | IsBroken(more, j)
      ensures HasCause(more[j].outcome.failure, j, faults, refused, cancelled)
    {
      assert IsBroken(reports, j);
    }
  }

  /** The first fetch that failed is reported, what was fetched before it is discarded, and nothing after
      it was fetched; all but the failed one stay as they were reported. */
  ghost predicate FetchStopped(
      before: seq<Report>, after: seq<Report>, fate: seq<Option<State>>, pending: seq<nat>, f: Fetching) {
    && |before| == |after| == |fate| && f.failure.Some? && f.next < |pending|
    && (forall k :: 0 <= k < |pending| ==> pending[k] < |fate|)
    && after[pending[f.next]].outcome == Failed(f.failure.value) && fate[pending[f.next]] == None
    && forall k :: 0 <= k < |pending| && k != f.next ==>
        fate[pending[k]] == (if k < f.next then Some(Thrown) else None)
        && after[pending[k]].outcome == before[pending[k]].outcome
  }

  // How a unit fails

  /** Discarded for the failure of another, and reported as blocked. */
  ghost predicate IsBlocked(reports: seq<Report>, fate: seq<Option<State>>, i: nat) {
    i < |fate| && i < |reports| && fate[i] == Some(Thrown) && reports[i].outcome == BLOCKED
  }

  /** Entry `n` failed: what comes before it is active, or blocked like all that comes after it. */
  ghost predicate BrokeAt(reports: seq<Report>, fate: seq<Option<State>>, unit: seq<nat>, n: nat) {
    && n < |unit| && unit[n] < |reports| == |fate|
    && reports[unit[n]].outcome.Broke() && !IsActive(fate, unit[n])
    && forall k :: 0 <= k < |unit| && k != n ==>
        IsBlocked(reports, fate, unit[k]) || (k < n && IsActive(fate, unit[k]))
  }

  /** The smoke failed the whole unit. */
  ghost predicate SmokedOut(reports: seq<Report>, fate: seq<Option<State>>, unit: seq<nat>) {
    forall k :: 0 <= k < |unit| ==>
      && unit[k] < |reports| && unit[k] < |fate| && fate[unit[k]] == Some(Thrown)
      && reports[unit[k]].outcome == Failed(SMOKE_FAILED)
  }

  ghost predicate UnitStopped(reports: seq<Report>, fate: seq<Option<State>>, unit: seq<nat>) {
    SmokedOut(reports, fate, unit) || exists n :: BrokeAt(reports, fate, unit, n)
  }

  /** What comes before `d` is active, the unit up to `e` failed, and the rest was never tried. */
  ghost predicate StoppedAt(
      reports: seq<Report>, fate: seq<Option<State>>, downloads: seq<nat>, d: nat, e: nat) {
    && d <= e <= |downloads| && Are(fate, downloads, 0, d, Active) && UnitStopped(reports, fate, downloads[d..e])
    && forall k :: e <= k < |downloads| ==> IsBlocked(reports, fate, downloads[k])
  }

  /** The units before `k` are active, that one failed, and those after it were never tried. */
  ghost predicate StoppedIn(reports: seq<Report>, fate: seq<Option<State>>, units: seq<seq<nat>>, k: nat) {
    && k < |units| && UnitStopped(reports, fate, units[k])
    && (forall j, i :: 0 <= j < k && i in units[j] ==> IsActive(fate, i))
    && forall j, i :: k < j < |units| && i in units[j] ==> IsBlocked(reports, fate, i)
  }

  lemma StopStays(
      reports: seq<Report>, more: seq<Report>, fate: seq<Option<State>>, after: seq<Option<State>>, unit: seq<nat>)
    requires UnitStopped(reports, fate, unit) && SameOutcomes(reports, more) && |after| == |fate|
    requires forall k :: 0 <= k < |unit| ==> unit[k] < |fate| && after[unit[k]] == fate[unit[k]]
    ensures UnitStopped(more, after, unit)
  {
    if !SmokedOut(reports, fate, unit) {
      var n :| BrokeAt(reports, fate, unit, n);
      assert BrokeAt(more, after, unit, n);
    }
  }

  /** Discarding what comes after the failed unit. */
  lemma StopsTheRest(
      was: seq<Report>, reports: seq<Report>, fate: seq<Option<State>>, after: seq<Option<State>>,
      downloads: seq<nat>, d: nat, e: nat)
    requires Ascending(downloads) && d <= e <= |downloads| && SameOutcomes(was, reports) && |fate| == |was|
    requires Apart(fate, after, downloads[e..|downloads|]) && UnitStopped(was, fate, downloads[d..e])
    requires Are(fate, downloads, 0, d, Active) && Are(after, downloads, e, |downloads|, Thrown)
    requires forall k :: 0 <= k < e ==> downloads[k] < |fate|
    requires forall k :: e <= k < |downloads| ==> downloads[k] < |was| && was[downloads[k]].outcome == BLOCKED
    ensures StoppedAt(reports, after, downloads, d, e)
  {
    SliceOf(downloads, e, |downloads|);
    assert forall k :: 0 <= k < e ==> after[downloads[k]] == fate[downloads[k]];
    assert forall k :: 0 <= k < e - d ==> downloads[d..e][k] == downloads[d + k];
    StopStays(was, reports, fate, after, downloads[d..e]);
  }

  lemma StoppedUnits(
      reports: seq<Report>, fate: seq<Option<State>>, units: seq<seq<nat>>, downloads: seq<nat>, cuts: seq<nat>, k: nat)
    requires Cut(units, downloads, cuts) && k < |units| && StoppedAt(reports, fate, downloads, cuts[k], cuts[k + 1])
    ensures StoppedIn(reports, fate, units, k)
  {
    assert At(units[k], downloads, cuts[k]);
    forall j, i | 0 <= j < k && i in units[j] ensures IsActive(fate, i) {
      assert At(units[j], downloads, cuts[j]) && cuts[j] + |units[j]| <= cuts[k];
      var m :| 0 <= m < |units[j]| && units[j][m] == i;
      assert downloads[cuts[j] + m] == i;
    }
    forall j, i | k < j < |units| && i in units[j] ensures IsBlocked(reports, fate, i) {
      assert At(units[j], downloads, cuts[j]) && cuts[k + 1] <= cuts[j];
      var m :| 0 <= m < |units[j]| && units[j][m] == i;
      assert downloads[cuts[j] + m] == i;
    }
  }

  class Part {
    const actions: seq<Action>
    const made: Downloads
    var reports: seq<Report>

    constructor (actions: seq<Action>)
      ensures this.actions == actions && reports == BlockedReports(actions)
      ensures fresh(made) && made.fate == seq(|actions|, i => None) && made.passes == {}
    {
      this.actions, reports := actions, BlockedReports(actions);
      made := new Downloads(|actions|);
    }

    ghost predicate Faithful()
      reads this, made
    {
      Told(actions, reports, made.fate)
    }

    method RecordFailure(index: nat, failure: Failure, stage: Option<Disposal>)
      requires index < |reports|
      modifies this`reports
      ensures reports == old(reports)[index := old(reports)[index].(outcome := Failed(failure), stage := stage)]
    {
      reports := reports[index := reports[index].(outcome := Failed(failure), stage := stage)];
    }

    /** Discards the entries from `a` up to `b`; only their reports' stages change. */
    method DiscardAll(list: seq<nat>, a: nat, b: nat)
      requires Faithful() && Ascending(list) && a <= b <= |list| && AreOpen(made.fate, list, a, b)
      modifies this`reports, made`fate
      ensures Faithful() && Are(made.fate, list, a, b, Thrown)
      ensures Apart(old(made.fate), made.fate, list[a..b])
      ensures SameOutcomes(old(reports), reports) && Apart(old(reports), reports, list[a..b])
    {
      for n := a to b
        invariant Faithful() && Are(made.fate, list, a, n, Thrown) && AreOpen(made.fate, list, n, b)
        invariant Apart(old(made.fate), made.fate, list[a..b])
        invariant SameOutcomes(old(reports), reports) && Apart(old(reports), reports, list[a..b])
      {
        var i := list[n];
        assert i == list[a..b][n - a];
        var disposal := made.Discard(i);
        reports := reports[i := reports[i].(stage := Some(disposal))];
      }
    }

    /** Fails every entry of the list, discarding each. */
    method FailDownloads(list: seq<nat>, failure: Failure)
      requires Faithful() && Ascending(list) && AreOpen(made.fate, list, 0, |list|) && failure.reason != Blocked
      modifies this`reports, made`fate
      ensures Faithful() && Are(made.fate, list, 0, |list|, Thrown) && Apart(old(made.fate), made.fate, list)
      ensures Apart(old(reports), reports, list)
      ensures forall k :: 0 <= k < |list| ==> reports[list[k]].outcome == Failed(failure)
    {
      for n := 0 to |list|
        invariant Faithful() && Are(made.fate, list, 0, n, Thrown) && AreOpen(made.fate, list, n, |list|)
        invariant Apart(old(made.fate), made.fate, list) && Apart(old(reports), reports, list)
        invariant forall k :: 0 <= k < n ==> reports[list[k]].outcome == Failed(failure)
      {
        var disposal := made.Discard(list[n]);
        RecordFailure(list[n], failure, Some(disposal));
      }
    }

    /** Keeps every entry of the list for the next run; each stays blocked. */
    method KeepDownloads(list: seq<nat>)
      requires Faithful() && Ascending(list) && Are(made.fate, list, 0, |list|, Held)
      modifies this`reports, made`fate
      ensures Faithful() && Apart(old(made.fate), made.fate, list) && Apart(old(reports), reports, list)
      ensures forall k :: 0 <= k < |list| ==> made.Is(list[k], Kept) || made.Is(list[k], Unkept)
      ensures SameOutcomes(old(reports), reports)
    {
      for n := 0 to |list|
        invariant Faithful() && Are(made.fate, list, n, |list|, Held)
        invariant Apart(old(made.fate), made.fate, list) && Apart(old(reports), reports, list)
        invariant forall k :: 0 <= k < n ==> made.Is(list[k], Kept) || made.Is(list[k], Unkept)
        invariant SameOutcomes(old(reports), reports)
      {
        var disposal := made.Keep(list[n]);
        if disposal.Some? {
          reports := reports[list[n] := reports[list[n]].(stage := disposal)];
        }
      }
    }

    /** Records the failure of entry `n`, which has ended, and discards the entries still open:
        those from `first` on. */
    method StopAt(unit: seq<nat>, n: nat, first: nat, failure: Failure, stage: Option<Disposal>)
      requires Ascending(unit) && first <= n < |unit|
        && |reports| == |made.fate| == |actions| && failure.reason != Blocked
      requires made.Is(unit[n], Disposed) || (made.Is(unit[n], Thrown) && stage.Some?)
      requires Names(reports[unit[n]], actions[unit[n]])
      requires Told(actions,
        reports[unit[n] := reports[unit[n]].(outcome := Failed(failure), stage := stage)], made.fate)
      requires AreOpen(made.fate, unit, first, n) && AreOpen(made.fate, unit, n + 1, |unit|)
      modifies this`reports, made`fate
      ensures Faithful() && Apart(old(made.fate), made.fate, unit) && Apart(old(reports), reports, unit)
      ensures made.fate[unit[n]] == old(made.fate)[unit[n]] && reports[unit[n]].outcome == Failed(failure)
      ensures Are(made.fate, unit, first, n, Thrown) && Are(made.fate, unit, n + 1, |unit|, Thrown)
      ensures forall k :: 0 <= k < first ==>
        made.fate[unit[k]] == old(made.fate)[unit[k]] && reports[unit[k]] == old(reports)[unit[k]]
      ensures SameOutcomes(
        old(reports)[unit[n] := old(reports)[unit[n]].(outcome := Failed(failure), stage := stage)], reports)
    {
      RecordFailure(unit[n], failure, stage);
      DiscardAll(unit, first, n);
      DiscardAll(unit, n + 1, |unit|);
    }

    /** Stages one download, or discards it once the caller has cancelled. */
    method StageOne(inst: Installer, i: nat) returns (verdict: Verdict)
      requires Faithful() && made.Is(i, Held)
      modifies made`fate, made`faults, inst`cancelled, inst`failed
      ensures (old(inst.cancelled) ==> inst.cancelled) && (verdict.Done? ==> !inst.cancelled)
      ensures old(made.faults) <= made.faults
      ensures verdict.Broke? ==> HasCause(verdict.failure, i, made.faults, made.refused, inst.cancelled)
      ensures verdict.Done? ==> made.fate == old(made.fate)[i := Some(Staged)] && inst.failed == old(inst.failed)
      ensures verdict.Broke? ==>
        inst.failed && verdict.failure.reason != Blocked && Apart(old(made.fate), made.fate, [i])
      ensures verdict.Broke? ==> made.Is(i, Disposed) || (made.Is(i, Thrown) && verdict.stage.Some?)
      ensures inst.cancelled && !old(inst.cancelled) ==> verdict.Broke?
    {
      var cancelled := inst.IsCancelled();
      if cancelled {
        var disposal := made.Discard(i);
        return Verdict.Broke(CANCELLED, Some(disposal));
      }
      verdict := made.Unpack(inst, i);
    }

    /** Activates one candidate and reports it. */
    method ActivateOne(inst: Installer, i: nat, ghost base: seq<Action>) returns (verdict: Verdict)
      requires Faithful() && made.Is(i, Passed) && inst.log == base + Activations(actions, reports)
      requires NoneActivatedFrom(reports, i)
      requires Caused(reports, made.faults, made.refused, inst.cancelled)
      modifies this`reports, made`fate, made`faults, inst`failed, inst`log
      ensures Caused(reports, made.faults, made.refused, inst.cancelled)
      ensures verdict.Broke? ==> i in made.faults
      ensures made.fate == old(made.fate)[i := Some(if verdict.Done? then Active else Disposed)]
      ensures |reports| == |actions|
      ensures inst.failed == (old(inst.failed) || verdict.Broke?) && inst.log == base + Activations(actions, reports)
      ensures verdict.Done? ==> Faithful() && Apart(old(reports), reports, [i])
      ensures verdict.Broke? ==> reports == old(reports) && verdict.failure.reason != Blocked
    {
      ghost var was, faults := reports, made.faults;
      verdict := made.Publish(inst, i, actions[i]);
      CausesStay(was, was, faults, made.refused, inst.cancelled, made.faults, made.refused, inst.cancelled);
      if verdict.Done? {
        reports := reports[i := reports[i].(outcome := Activated, stage := Some(verdict.disposal))];
        GoodNeedsNoCause(was, i, reports[i], made.faults, made.refused, inst.cancelled);
        OneMoreActivation(actions, was, i, reports[i]);
        Regrouped(base, Activations(actions, was), [actions[i]]);
      }
    }

    /** Ends a staging whose entry `n` failed and was disposed of or discarded. */
    method StopStaging(unit: seq<nat>, n: nat, failure: Failure, stage: Option<Disposal>)
      requires Ascending(unit) && n < |unit| && |reports| == |made.fate| == |actions| && failure.reason != Blocked
      requires AreOpen(made.fate, unit, 0, n) && AreOpen(made.fate, unit, n + 1, |unit|)
      requires made.Is(unit[n], Disposed) || (made.Is(unit[n], Thrown) && stage.Some?)
      requires Told(actions, reports, made.fate[unit[n] := Some(Held)])
      modifies this`reports, made`fate
      ensures Faithful() && Apart(old(made.fate), made.fate, unit) && Apart(old(reports), reports, unit)
      ensures AreSpent(made.fate, unit) && BrokeAt(reports, made.fate, unit, n)
      ensures forall k :: 0 <= k < |unit| ==> !IsActive(made.fate, unit[k])
      ensures SameOutcomes(
        old(reports)[unit[n] := old(reports)[unit[n]].(outcome := Failed(failure), stage := stage)], reports)
    {
      StopAt(unit, n, 0, failure, stage);
    }

    /** Stages a unit in order; the first failure discards the rest of it. */
    method StageUnit(inst: Installer, unit: seq<nat>) returns (ok: bool)
      requires Faithful() && Ascending(unit) && Are(made.fate, unit, 0, |unit|, Held)
      requires Caused(reports, made.faults, made.refused, inst.cancelled)
      modifies this`reports, made`fate, made`faults, inst`cancelled, inst`failed
      ensures Caused(reports, made.faults, made.refused, inst.cancelled)
      ensures (old(inst.cancelled) ==> inst.cancelled) && (ok && unit != [] ==> !inst.cancelled)
      ensures Faithful() && Apart(old(made.fate), made.fate, unit) && Apart(old(reports), reports, unit)
      ensures inst.failed == (old(inst.failed) || !ok)
      ensures ok ==> reports == old(reports) && Are(made.fate, unit, 0, |unit|, Staged)
      ensures !ok ==> AreSpent(made.fate, unit) && UnitStopped(reports, made.fate, unit)
      ensures !ok ==> SomeBroke(reports)
      ensures !ok ==> forall k :: 0 <= k < |unit| ==> !IsActive(made.fate, unit[k])
    {
      for n := 0 to |unit|
        invariant Faithful() && Apart(old(made.fate), made.fate, unit)
        invariant reports == old(reports) && inst.failed == old(inst.failed)
        invariant Are(made.fate, unit, 0, n, Staged) && Are(made.fate, unit, n, |unit|, Held)
        invariant (old(inst.cancelled) ==> inst.cancelled) && (n > 0 ==> !inst.cancelled)
        invariant Caused(reports, made.faults, made.refused, inst.cancelled)
      {
        assert forall k :: 0 <= k < |unit| && k != n ==> unit[k] != unit[n];
        assert unit[n] in unit;
        ghost var was, faults, cancelled := reports, made.faults, inst.cancelled;
        var verdict := StageOne(inst, unit[n]);
        CausesStay(was, was, faults, made.refused, cancelled, made.faults, made.refused, inst.cancelled);
        if verdict.Broke? {
          StopStaging(unit, n, verdict.failure, verdict.stage);
          CauseAdded(was, reports, unit[n], verdict.failure, verdict.stage, made.faults, made.refused, inst.cancelled);
          return false;
        }
      }
      ok := true;
    }

    /** Smokes a staged unit; a failure fails every candidate of it. */
    method SmokeUnit(inst: Installer, unit: seq<nat>) returns (ok: bool)
      requires Faithful() && Ascending(unit) && unit != [] && Are(made.fate, unit, 0, |unit|, Staged)
      requires Caused(reports, made.faults, made.refused, inst.cancelled)
      modifies this`reports, made, inst`failed
      ensures Caused(reports, made.faults, made.refused, inst.cancelled)
      ensures Faithful() && Apart(old(made.fate), made.fate, unit) && Apart(old(reports), reports, unit)
      ensures inst.failed == (old(inst.failed) || !ok)
      ensures made.passes == if ok then old(made.passes) + {unit} else old(made.passes)
      ensures ok ==> reports == old(reports) && Are(made.fate, unit, 0, |unit|, Passed)
      ensures !ok ==> Are(made.fate, unit, 0, |unit|, Thrown) && reports[unit[0]].outcome.Broke()
      ensures !ok ==> SmokedOut(reports, made.fate, unit)
    {
      ghost var was, refused := reports, made.refused;
      ok := made.RunSmoke(inst, unit);
      CausesStay(was, was, made.faults, refused, inst.cancelled, made.faults, made.refused, inst.cancelled);
      if !ok {
        FailDownloads(unit, SMOKE_FAILED);
        CausesAdded(was, reports, unit, SMOKE_FAILED, made.faults, made.refused, inst.cancelled);
      }
    }

    /** Ends an activation whose entry `n` failed and was disposed of. */
    method StopActivating(unit: seq<nat>, n: nat, failure: Failure, stage: Option<Disposal>)
      requires Ascending(unit) && n < |unit| && |reports| == |made.fate| == |actions| && failure.reason != Blocked
      requires Are(made.fate, unit, 0, n, Active) && Are(made.fate, unit, n, n + 1, Disposed)
        && Are(made.fate, unit, n + 1, |unit|, Passed)
      requires Told(actions, reports, made.fate[unit[n] := Some(Passed)])
      modifies this`reports, made`fate
      ensures Faithful() && Apart(old(made.fate), made.fate, unit) && Apart(old(reports), reports, unit)
      ensures AreSpent(made.fate, unit) && ActiveFirst(made.fate, unit)
      ensures SomeBroke(reports) && BrokeAt(reports, made.fate, unit, n)
      ensures Activations(actions, reports) == Activations(actions, old(reports))
      ensures SameOutcomes(
        old(reports)[unit[n] := old(reports)[unit[n]].(outcome := Failed(failure), stage := stage)], reports)
    {
      ghost var was := reports;
      StopAt(unit, n, n, failure, stage);
      StopsThere(made.fate, unit, n);
      NothingMoreActive(was, unit, n);
    }

    /** Activates a unit that passed its smoke, in order; the first failure discards the rest. */
    method ActivateUnit(inst: Installer, unit: seq<nat>, ghost base: seq<Action>) returns (ok: bool)
      requires Faithful() && Ascending(unit) && unit != [] && Are(made.fate, unit, 0, |unit|, Passed)
      requires inst.log == base + Activations(actions, reports)
      requires NoneActivatedFrom(reports, unit[0]) && Caused(reports, made.faults, made.refused, inst.cancelled)
      modifies this`reports, made`fate, made`faults, inst`failed, inst`log
      ensures Caused(reports, made.faults, made.refused, inst.cancelled)
      ensures Faithful() && Apart(old(made.fate), made.fate, unit) && Apart(old(reports), reports, unit)
      ensures inst.failed == (old(inst.failed) || !ok) && inst.log == base + Activations(actions, reports)
      ensures AreSpent(made.fate, unit) && ActiveFirst(made.fate, unit)
      ensures ok ==> Are(made.fate, unit, 0, |unit|, Active)
      ensures !ok ==> SomeBroke(reports) && UnitStopped(reports, made.fate, unit)
    {
      for n := 0 to |unit|
        invariant Faithful() && Apart(old(made.fate), made.fate, unit) && Apart(old(reports), reports, unit)
        invariant inst.failed == old(inst.failed) && inst.log == base + Activations(actions, reports)
        invariant Are(made.fate, unit, 0, n, Active) && Are(made.fate, unit, n, |unit|, Passed)
        invariant n < |unit| ==> NoneActivatedFrom(reports, unit[n])
        invariant Caused(reports, made.faults, made.refused, inst.cancelled)
      {
        ok := ActivateAt(inst, unit, n, base);
        if !ok {
          return;
        }
      }
      ok := true;
    }

    /** Activates the entry at `n`; when that fails the entries after it are discarded. */
    method ActivateAt(inst: Installer, unit: seq<nat>, n: nat, ghost base: seq<Action>) returns (ok: bool)
      requires Faithful() && Ascending(unit) && n < |unit|
      requires Are(made.fate, unit, 0, n, Active) && Are(made.fate, unit, n, |unit|, Passed)
      requires inst.log == base + Activations(actions, reports) && NoneActivatedFrom(reports, unit[n])
      requires Caused(reports, made.faults, made.refused, inst.cancelled)
      modifies this`reports, made`fate, made`faults, inst`failed, inst`log
      ensures Caused(reports, made.faults, made.refused, inst.cancelled)
      ensures Faithful() && Apart(old(made.fate), made.fate, unit) && Apart(old(reports), reports, unit)
      ensures inst.failed == (old(inst.failed) || !ok) && inst.log == base + Activations(actions, reports)
      ensures ok ==> Are(made.fate, unit, 0, n + 1, Active) && Are(made.fate, unit, n + 1, |unit|, Passed)
      ensures ok && n + 1 < |unit| ==> NoneActivatedFrom(reports, unit[n + 1])
      ensures !ok ==> SomeBroke(reports) && AreSpent(made.fate, unit) && ActiveFirst(made.fate, unit)
      ensures !ok ==> UnitStopped(reports, made.fate, unit)
    {
      ghost var fate, was := made.fate, reports;
      var verdict := ActivateOne(inst, unit[n], base);
      OneTurned(fate, made.fate, unit, n, Passed, if verdict.Done? then Active else Disposed);
      ok := verdict.Done?;
      if ok {
        OneReported(was, reports, unit, n);
      } else {
        assert made.fate[unit[n] := Some(Passed)] == fate;
        StopActivating(unit, n, verdict.failure, verdict.stage);
        CauseAdded(was, reports, unit[n], verdict.failure, verdict.stage, made.faults, made.refused, inst.cancelled);
      }
    }

    /** Stages, smokes and activates one unit. */
    method InstallUnit(inst: Installer, unit: seq<nat>, ghost base: seq<Action>) returns (ok: bool)
      requires Faithful() && Ascending(unit) && unit != [] && Are(made.fate, unit, 0, |unit|, Held)
      requires inst.log == base + Activations(actions, reports)
      requires NoneActivatedFrom(reports, unit[0])
      requires Caused(reports, made.faults, made.refused, inst.cancelled)
      modifies this`reports, made, inst`cancelled, inst`failed, inst`log
      ensures Caused(reports, made.faults, made.refused, inst.cancelled)
      ensures old(inst.cancelled) ==> inst.cancelled && inst.log == old(inst.log)
      ensures Faithful() && Apart(old(made.fate), made.fate, unit) && Apart(old(reports), reports, unit)
      ensures inst.failed == (old(inst.failed) || !ok) && inst.log == base + Activations(actions, reports)
      ensures AreSpent(made.fate, unit) && ActiveFirst(made.fate, unit) && old(made.passes) <= made.passes
      ensures ok ==> Are(made.fate, unit, 0, |unit|, Active)
      ensures !ok ==> SomeBroke(reports) && UnitStopped(reports, made.fate, unit)
      ensures (exists k :: 0 <= k < |unit| && IsActive(made.fate, unit[k])) ==> unit in made.passes
    {
      ghost var was := reports;
      ok := StageUnit(inst, unit);
      if ok {
        ok := SmokeUnit(inst, unit);
        if ok {
          ok := ActivateUnit(inst, unit, base);
          return;
        }
      }
      NoneActiveHere(was, unit);
    }

    /** After the failure of entry `n` the activations are those made before it. */
    lemma NothingMoreActive(was: seq<Report>, unit: seq<nat>, n: nat)
      requires Faithful() && Apart(was, reports, unit) && n < |unit|
      requires forall k :: 0 <= k < n ==> unit[k] < |was| && reports[unit[k]] == was[unit[k]]
      requires forall k :: n <= k < |unit| ==>
        unit[k] < |was| && !was[unit[k]].outcome.Activated? && !reports[unit[k]].outcome.Activated?
      ensures Activations(actions, was) == Activations(actions, reports)
    {
      SameActivations(actions, was, reports);
    }

    /** A unit that never reached activation leaves the activations as they were. */
    lemma NoneActiveHere(was: seq<Report>, unit: seq<nat>)
      requires Faithful() && Apart(was, reports, unit)
      requires forall k :: 0 <= k < |unit| ==> unit[k] < |was| && !was[unit[k]].outcome.Activated?
      requires forall k :: 0 <= k < |unit| ==> !IsActive(made.fate, unit[k])
      ensures Activations(actions, was) == Activations(actions, reports)
    {
      forall i | 0 <= i < |was| ensures was[i].outcome.Activated? <==> reports[i].outcome.Activated? {
        if i in unit {
          var k :| 0 <= k < |unit| && unit[k] == i;
          assert !IsActive(made.fate, unit[k]);
        }
      }
      SameActivations(actions, was, reports);
    }

    /** Installs the unit at `d..e` of the downloads. */
    method InstallSlice(inst: Installer, downloads: seq<nat>, d: nat, e: nat, ghost base: seq<Action>)
        returns (ok: bool)
      requires Faithful() && Ascending(downloads) && d < e <= |downloads|
      requires Are(made.fate, downloads, 0, d, Active) && Are(made.fate, downloads, d, |downloads|, Held)
      requires inst.log == base + Activations(actions, reports) && NoneActivatedFrom(reports, downloads[d])
      requires Caused(reports, made.faults, made.refused, inst.cancelled)
      modifies this`reports, made, inst`cancelled, inst`failed, inst`log
      ensures Caused(reports, made.faults, made.refused, inst.cancelled)
      ensures old(inst.cancelled) ==> inst.cancelled && inst.log == old(inst.log)
      ensures Faithful() && Apart(old(made.fate), made.fate, downloads) && Apart(old(reports), reports, downloads)
      ensures inst.failed == (old(inst.failed) || !ok) && inst.log == base + Activations(actions, reports)
      ensures old(made.passes) <= made.passes && UsedTo(made.fate, made.passes, downloads, d, e)
      ensures Are(made.fate, downloads, 0, d, Active) && Are(made.fate, downloads, e, |downloads|, Held)
      ensures e < |downloads| ==> NoneActivatedFrom(reports, downloads[e])
      ensures ok ==> Are(made.fate, downloads, 0, e, Active)
      ensures !ok ==>
        SomeBroke(reports) && AreSpent(made.fate, downloads[d..e]) && ActiveFirst(made.fate, downloads[d..e])
      ensures !ok ==> UnitStopped(reports, made.fate, downloads[d..e])
    {
      UnitReady(made.fate, downloads, d, e);
      ghost var was, fate := reports, made.fate;
      ok := InstallUnit(inst, downloads[d..e], base);
      AfterUnit(fate, made.fate, downloads, d, e);
      NoneAfter(was, reports, downloads, d, e);
      UsedUpTo(made.fate, made.passes, downloads, d, e);
    }

    /** Installs the unit at `d..e` of the downloads; a failure discards everything after it. */
    method InstallNext(inst: Installer, downloads: seq<nat>, d: nat, e: nat, ghost base: seq<Action>) returns (ok: bool)
      requires Faithful() && Ascending(downloads) && d < e <= |downloads|
      requires Are(made.fate, downloads, 0, d, Active) && Are(made.fate, downloads, d, |downloads|, Held)
      requires inst.log == base + Activations(actions, reports) && NoneActivatedFrom(reports, downloads[d])
      requires Caused(reports, made.faults, made.refused, inst.cancelled)
      modifies this`reports, made, inst`cancelled, inst`failed, inst`log
      ensures Caused(reports, made.faults, made.refused, inst.cancelled)
      ensures old(inst.cancelled) ==> inst.cancelled && inst.log == old(inst.log)
      ensures Faithful() && Apart(old(made.fate), made.fate, downloads) && Apart(old(reports), reports, downloads)
      ensures inst.failed == (old(inst.failed) || !ok) && inst.log == base + Activations(actions, reports)
      ensures old(made.passes) <= made.passes
      ensures UsedTo(made.fate, made.passes, downloads, d, e)
      ensures ok ==> Are(made.fate, downloads, 0, e, Active) && Are(made.fate, downloads, e, |downloads|, Held)
      ensures ok && e < |downloads| ==> NoneActivatedFrom(reports, downloads[e])
      ensures !ok ==> SomeBroke(reports) && AreSpent(made.fate, downloads) && ActiveFirst(made.fate, downloads)
      ensures !ok ==> StoppedAt(reports, made.fate, downloads, d, e)
    {
      ok := InstallSlice(inst, downloads, d, e, base);
      if !ok {
        ghost var was := reports;
        StopAfter(downloads, d, e);
        CausesStay(was, reports, made.faults, made.refused, inst.cancelled, made.faults, made.refused, inst.cancelled);
      }
    }

    /** Discards what comes after `e`: the units before `d` are active and the one after it failed. */
    method StopAfter(downloads: seq<nat>, d: nat, e: nat)
      requires Faithful() && Ascending(downloads) && d <= e <= |downloads| && SomeBroke(reports)
      requires Are(made.fate, downloads, 0, d, Active) && Are(made.fate, downloads, e, |downloads|, Held)
      requires AreSpent(made.fate, downloads[d..e]) && ActiveFirst(made.fate, downloads[d..e])
      requires UsedTo(made.fate, made.passes, downloads, d, e) && UnitStopped(reports, made.fate, downloads[d..e])
      modifies this`reports, made`fate
      ensures Faithful() && Apart(old(made.fate), made.fate, downloads) && Apart(old(reports), reports, downloads)
      ensures Activations(actions, reports) == Activations(actions, old(reports)) && SomeBroke(reports)
      ensures SameOutcomes(old(reports), reports)
      ensures AreSpent(made.fate, downloads) && ActiveFirst(made.fate, downloads)
      ensures UsedTo(made.fate, made.passes, downloads, d, e) && StoppedAt(reports, made.fate, downloads, d, e)
    {
      ghost var was, fate := reports, made.fate;
      assert forall k :: e <= k < |downloads| ==> downloads[k] < |was| && was[downloads[k]].outcome == BLOCKED;
      SliceOf(downloads, e, |downloads|);
      DiscardAll(downloads, e, |downloads|);
      ApartInMore(was, reports, downloads, e, |downloads|);
      ApartInMore(fate, made.fate, downloads, e, |downloads|);
      SameActivations(actions, was, reports);
      BrokeStays(was, reports);
      RestThrown(fate, made.fate, downloads, d, e);
      StopsTheRest(was, reports, fate, made.fate, downloads, d, e);
    }

    /** Stages, smokes and activates the part's downloads unit by unit; a failed unit stops the
        part, and the downloads of the units after it are discarded. */
    method InstallDownloads(inst: Installer, downloads: seq<nat>, grouping: Grouping, ghost base: seq<Action>)
        returns (ok: bool)
      requires Faithful() && Ascending(downloads) && Are(made.fate, downloads, 0, |downloads|, Held)
      requires inst.log == base + Activations(actions, reports) && NoneActivatedFrom(reports, 0)
      requires Caused(reports, made.faults, made.refused, inst.cancelled)
      modifies this`reports, made, inst`cancelled, inst`failed, inst`log
      ensures Caused(reports, made.faults, made.refused, inst.cancelled)
      ensures old(inst.cancelled) ==> inst.cancelled && inst.log == old(inst.log)
      ensures Faithful() && Apart(old(made.fate), made.fate, downloads) && Apart(old(reports), reports, downloads)
      ensures inst.failed == (old(inst.failed) || !ok) && inst.log == base + Activations(actions, reports)
      ensures AreSpent(made.fate, downloads) && ActiveFirst(made.fate, downloads)
      ensures ok ==> Are(made.fate, downloads, 0, |downloads|, Active)
      ensures !ok ==> SomeBroke(reports)
      ensures !ok ==> exists k :: StoppedIn(reports, made.fate, Units(actions, downloads, grouping), k)
      ensures PassedTogether(made.fate, made.passes, Units(actions, downloads, grouping))
    {
      var units := UnitsOf(actions, downloads, grouping);
      UnitsKeepOrder(actions, downloads, grouping);
      ghost var cuts := CutsOf(units);
      ok := InstallUnits(inst, units, downloads, cuts, base);
    }

    method InstallUnits(
        inst: Installer, units: seq<seq<nat>>, downloads: seq<nat>, ghost cuts: seq<nat>, ghost base: seq<Action>)
        returns (ok: bool)
      requires Faithful() && Ascending(downloads) && Are(made.fate, downloads, 0, |downloads|, Held)
      requires Cut(units, downloads, cuts) && [] !in units
      requires inst.log == base + Activations(actions, reports) && NoneActivatedFrom(reports, 0)
      requires Caused(reports, made.faults, made.refused, inst.cancelled)
      modifies this`reports, made, inst`cancelled, inst`failed, inst`log
      ensures Caused(reports, made.faults, made.refused, inst.cancelled)
      ensures old(inst.cancelled) ==> inst.cancelled && inst.log == old(inst.log)
      ensures Faithful() && Apart(old(made.fate), made.fate, downloads) && Apart(old(reports), reports, downloads)
      ensures inst.failed == (old(inst.failed) || !ok) && inst.log == base + Activations(actions, reports)
      ensures AreSpent(made.fate, downloads) && ActiveFirst(made.fate, downloads)
      ensures ok ==> Are(made.fate, downloads, 0, |downloads|, Active)
      ensures !ok ==> SomeBroke(reports)
      ensures !ok ==> exists k :: StoppedIn(reports, made.fate, units, k)
      ensures PassedTogether(made.fate, made.passes, units)
    {
      var d: nat := 0;
      ok := true;
      NoneActiveYet(made.fate, made.passes, units, downloads, cuts);
      for k := 0 to |units|
        invariant ok && d == cuts[k] <= |downloads|
        invariant old(inst.cancelled) ==> inst.cancelled && inst.log == old(inst.log)
        invariant Caused(reports, made.faults, made.refused, inst.cancelled)
        invariant Faithful() && Apart(old(made.fate), made.fate, downloads) && Apart(old(reports), reports, downloads)
        invariant inst.failed == old(inst.failed) && inst.log == base + Activations(actions, reports)
        invariant Are(made.fate, downloads, 0, d, Active) && Are(made.fate, downloads, d, |downloads|, Held)
        invariant PassedTogether(made.fate, made.passes, units)
        invariant d < |downloads| ==> NoneActivatedFrom(reports, downloads[d])
      {
        ok := InstallAt(inst, units, k, downloads, d, cuts, base);
        if !ok {
          return;
        }
        d := d + |units[k]|;
      }
    }

    /** Installs the unit at `k`, which passes its smoke whole or leaves nothing active. */
    method InstallAt(
        inst: Installer, units: seq<seq<nat>>, k: nat, downloads: seq<nat>, d: nat, ghost cuts: seq<nat>,
        ghost base: seq<Action>)
        returns (ok: bool)
      requires Faithful() && Ascending(downloads) && Cut(units, downloads, cuts)
        && k < |units| && [] !in units && d == cuts[k]
      requires Are(made.fate, downloads, 0, d, Active) && Are(made.fate, downloads, d, |downloads|, Held)
      requires PassedTogether(made.fate, made.passes, units)
      requires inst.log == base + Activations(actions, reports)
        && (d < |downloads| ==> NoneActivatedFrom(reports, downloads[d]))
      requires Caused(reports, made.faults, made.refused, inst.cancelled)
      modifies this`reports, made, inst`cancelled, inst`failed, inst`log
      ensures Caused(reports, made.faults, made.refused, inst.cancelled)
      ensures old(inst.cancelled) ==> inst.cancelled && inst.log == old(inst.log)
      ensures Faithful() && Apart(old(made.fate), made.fate, downloads) && Apart(old(reports), reports, downloads)
      ensures inst.failed == (old(inst.failed) || !ok) && inst.log == base + Activations(actions, reports)
      ensures PassedTogether(made.fate, made.passes, units)
      ensures var e := cuts[k + 1];
        ok ==>
          e <= |downloads| && Are(made.fate, downloads, 0, e, Active) && Are(made.fate, downloads, e, |downloads|, Held)
      ensures var e := cuts[k + 1];
        ok && e < |downloads| ==> NoneActivatedFrom(reports, downloads[e])
      ensures !ok ==> SomeBroke(reports) && AreSpent(made.fate, downloads) && ActiveFirst(made.fate, downloads)
      ensures !ok ==> StoppedIn(reports, made.fate, units, k)
    {
      NextCut(units, downloads, cuts, k);
      ghost var fate, passes := made.fate, made.passes;
      ok := InstallNext(inst, downloads, d, d + |units[k]|, base);
      StillTogether(units, downloads, cuts, k, fate, passes, made.fate, made.passes);
      if !ok { StoppedUnits(reports, made.fate, units, downloads, cuts, k); }
    }

    // Marking and fetching

    ghost predicate Untouched()
      reads this, made
    {
      reports == BlockedReports(actions) && |made.fate| == |actions|
      && forall i :: 0 <= i < |actions| ==> made.fate[i] == None
    }

    /** Marks every current component and returns the others, in plan order. */
    method MarkCurrent(inst: Installer) returns (pending: seq<nat>)
      requires Untouched()
      modifies this`reports
      ensures Faithful() && Marked(inst, pending)
    {
      pending := [];
      for n := 0 to |actions|
        invariant Ascending(pending) && forall k :: 0 <= k < |pending| ==> pending[k] < n
        invariant forall i :: 0 <= i < n ==> (i in pending <==> !inst.IsCurrent(actions[i]))
        invariant |reports| == |actions|
        invariant forall i :: 0 <= i < |actions| ==> reports[i] == MarkedReport(actions[i], i >= n || i in pending)
      {
        if inst.IsCurrent(actions[n]) {
          reports := reports[n := reports[n].(outcome := AlreadyCurrent)];
        } else {
          pending := pending + [n];
        }
      }
    }

    /** The pending actions are those not current, and only the current ones are reported so. */
    ghost predicate Marked(inst: Installer, pending: seq<nat>)
      reads this, inst
    {
      && Ascending(pending) && |reports| == |actions|
      && (forall k :: 0 <= k < |pending| ==> pending[k] < |actions|)
      && (forall i :: 0 <= i < |actions| ==> (i in pending <==> !inst.IsCurrent(actions[i])))
      && forall i :: 0 <= i < |actions| ==> reports[i] == MarkedReport(actions[i], i in pending)
    }

    /** The part's fetches so far: those before `f.next` are held, and nothing else is downloaded. */
    ghost predicate Fetched(pending: seq<nat>, f: Fetching)
      reads this, made
    {
      && |made.fate| == |actions| && f.next <= |pending| && Are(made.fate, pending, 0, f.next, Held)
      && (forall k :: f.next <= k < |pending| ==> pending[k] < |made.fate| && made.fate[pending[k]] == None)
      && (forall i :: 0 <= i < |actions| && i !in pending ==> made.fate[i] == None)
      && (f.failure.Some? ==> f.next < |pending| && f.failure.value.reason != Blocked)
    }

    /** A fetch that failed was tried, or the caller cancelled. */
    ghost predicate FetchCaused(pending: seq<nat>, f: Fetching, cancelled: bool)
      reads made`faults
    {
      f.failure.Some? ==>
        f.next < |pending| && HasCause(f.failure.value, pending[f.next], made.faults, {}, cancelled)
    }

    /** Fetches the next pending component, unless the caller has cancelled. */
    method FetchNext(inst: Installer, pending: seq<nat>, f: Fetching) returns (g: Fetching)
      requires Ascending(pending) && Fetched(pending, f) && !f.Over(pending)
      modifies made`fate, made`faults, inst`cancelled, inst`failed, inst`downloads
      ensures FetchCaused(pending, g, inst.cancelled)
      ensures old(inst.cancelled) ==> inst.cancelled && inst.downloads == old(inst.downloads)
      ensures Fetched(pending, g) && inst.failed == (old(inst.failed) || g.failure.Some?)
      ensures g.next == if g.failure.None? then f.next + 1 else f.next
      ensures old(inst.downloads) <= inst.downloads
    {
      var cancelled := inst.IsCancelled();
      if cancelled {
        return f.(failure := Some(CANCELLED));
      }
      var verdict := made.Fetch(inst, pending[f.next]);
      match verdict
      case Done(_) => g := f.(next := f.next + 1);
      case Broke(failure, stage) => g := f.(failure := Some(failure), stage := stage);
    }

    /** Records the fetches: when one failed, its report, and the downloads before it discarded. */
    method SettleFetch(pending: seq<nat>, f: Fetching) returns (all: bool)
      requires Faithful() && Ascending(pending) && Fetched(pending, f) && f.Over(pending)
      modifies this`reports, made`fate
      ensures Faithful() && all == f.failure.None?
      ensures all ==> reports == old(reports) && made.fate == old(made.fate)
      ensures !all ==> SomeBroke(reports) && FetchStopped(old(reports), reports, made.fate, pending, f)
      ensures forall i :: 0 <= i < |reports| ==>
        (reports[i].outcome.AlreadyCurrent? ==> old(reports)[i].outcome.AlreadyCurrent?)
      ensures forall i :: 0 <= i < |reports| && i !in pending ==> reports[i] == old(reports)[i]
      ensures NoneActivatedFrom(reports, 0)
      ensures !all ==> forall i :: 0 <= i < |made.fate| ==> made.fate[i] == None || made.fate[i] == Some(Thrown)
    {
      all := f.failure.None?;
      if !all {
        RecordFailure(pending[f.next], f.failure.value, f.stage);
        DiscardAll(pending, 0, f.next);
        assert forall k :: 0 <= k < f.next ==> pending[..f.next][k] == pending[k];
        assert reports[pending[f.next]].outcome.Broke();
      }
    }
  }

  /** How far a part's fetches have come, and the failure that stopped them. */
  datatype Fetching = Fetching(next: nat, failure: Option<Failure>, stage: Option<Disposal>) {
    predicate Over(pending: seq<nat>) { failure.Some? || next >= |pending| }
  }
}
