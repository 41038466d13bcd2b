/** A whole run of an accepted plan, and runs after one another. */
module InstallRun {
  import opened Basics
  import opened Install
  import opened InstallUnits
  import opened InstallPart
  import opened PlanParts

  datatype Group = OnlineLinks

  function GroupOf(c: Component): Option<Group> {
    match c
    case JsRuntimeDeno => Some(OnlineLinks)
    case YtDlp => Some(OnlineLinks)
    case _ => Option.None
  }

  /** Every action between the two belongs to the same group. */
  ghost predicate SameRun(actions: seq<Action>, i: nat, j: nat)
    requires i < |actions| && j < |actions|
  {
    forall k :: 0 <= k < |actions| && (i <= k <= j || j <= k <= i) ==>
      GroupOf(actions[k].component) == GroupOf(actions[i].component)
  }

  /** Some action of the same group failed on its own account. */
  ghost predicate GroupBroke(actions: seq<Action>, reports: seq<Report>, i: nat)
    requires i < |actions| == |reports|
  {
    exists j :: 0 <= j < |reports| && SameRun(actions, i, j) && reports[j].outcome.Broke()
  }

  /** A group that is not active has a failure of its own: no group is stopped by another. */
  ghost predicate Isolated(actions: seq<Action>, reports: seq<Report>)
    requires |actions| == |reports|
  {
    forall i {:trigger GroupBroke(actions, reports, i)} :: 0 <= i < |reports| && !reports[i].outcome.Good() ==>
      GroupBroke(actions, reports, i)
  }

  lemma OneMoreGroup(actions: seq<Action>, reports: seq<Report>, more: seq<Action>, moreReports: seq<Report>)
    requires |actions| == |reports| && |more| == |moreReports| && Isolated(actions, reports)
    requires forall k :: 0 <= k < |more| ==> GroupOf(more[k].component) == GroupOf(more[0].component)
    requires AllGood(moreReports) || SomeBroke(moreReports)
    ensures Isolated(actions + more, reports + moreReports)
  {
    var a, r, n := actions + more, reports + moreReports, |actions|;
    forall i | 0 <= i < |r| && !r[i].outcome.Good() ensures GroupBroke(a, r, i) {
      if i < n {
        assert r[i] == reports[i] && GroupBroke(actions, reports, i);
        var j :| 0 <= j < |reports| && SameRun(actions, i, j) && reports[j].outcome.Broke();
        assert r[j] == reports[j] && SameRun(a, i, j);
      } else {
        assert r[i] == moreReports[i - n];
        var j :| 0 <= j < |moreReports| && moreReports[j].outcome.Broke();
        assert r[n + j] == moreReports[j];
        assert SameRun(a, i, n + j) by {
          forall k | 0 <= k < |a| && (i <= k <= n + j || n + j <= k <= i)
            ensures GroupOf(a[k].component) == GroupOf(a[i].component) {
            assert a[k] == more[k - n] && a[i] == more[i - n];
          }
        }
      }
    }
  }

  // What stays selected

  ghost predicate Distinct(actions: seq<Action>) {
    forall i, j :: 0 <= i < j < |actions| ==> actions[i].component != actions[j].component
  }

  /** Everything reported good is selected. */
  ghost predicate GoodIsSelected(actions: seq<Action>, reports: seq<Report>, selected: map<Component, nat>) {
    |reports| == |actions| && forall i :: 0 <= i < |actions| && reports[i].outcome.Good() ==>
      IsSelected(actions[i], selected)
  }

  lemma {:induction false} SelectingMore(before: map<Component, nat>, log: seq<Action>, more: seq<Action>)
    ensures Selecting(before, log + more) == Selecting(Selecting(before, log), more)
    decreases |more|
  {
    if more == [] {
      assert log + more == log;
    } else {
      var n := |more| - 1;
      SelectingMore(before, log, more[..n]);
      assert (log + more)[..|log| + n] == log + more[..n];
    }
  }

  /** Activating other components leaves a selection alone. */
  lemma {:induction false} OthersLeaveIt(a: Action, selected: map<Component, nat>, log: seq<Action>)
    requires forall b :: b in log ==> b.component != a.component
    ensures IsSelected(a, selected) <==> IsSelected(a, Selecting(selected, log))
    decreases |log|
  {
    if log != [] {
      OthersLeaveIt(a, selected, log[..|log| - 1]);
    }
  }

  lemma {:induction false} ActivatedIsSelected(a: Action, selected: map<Component, nat>, log: seq<Action>)
    requires a in log && forall b :: b in log && b.component == a.component ==> b == a
    ensures IsSelected(a, Selecting(selected, log))
    decreases |log|
  {
    var n := |log| - 1;
    if log[n].component != a.component {
      ActivatedIsSelected(a, selected, log[..n]);
    }
  }

  lemma {:induction false} ActivationsAreReported(actions: seq<Action>, reports: seq<Report>)
    requires |actions| == |reports|
    ensures forall a :: a in Activations(actions, reports) ==>
      exists i :: 0 <= i < |actions| && actions[i] == a && reports[i].outcome.Activated?
    ensures forall i :: 0 <= i < |actions| && reports[i].outcome.Activated? ==>
      actions[i] in Activations(actions, reports)
    decreases |actions|
  {
    if actions != [] {
      var n := |actions| - 1;
      ActivationsAreReported(actions[..n], reports[..n]);
      forall a | a in Activations(actions, reports)
        ensures exists i :: 0 <= i < |actions| && actions[i] == a && reports[i].outcome.Activated? {
        if a in Activations(actions[..n], reports[..n]) {
          var i :| 0 <= i < n && actions[..n][i] == a && reports[..n][i].outcome.Activated?;
          assert actions[i] == a && reports[i].outcome.Activated?;
        }
      }
      forall i | 0 <= i < |actions| && reports[i].outcome.Activated?
        ensures actions[i] in Activations(actions, reports) {
        if i < n { assert actions[..n][i] == actions[i] && reports[..n][i] == reports[i]; }
      }
    }
  }

  /** A part that reports a component active or current leaves it selected. */
  lemma PartIsSelected(actions: seq<Action>, reports: seq<Report>, selected: map<Component, nat>)
    requires Distinct(actions) && CurrentAsIn(actions, reports, selected)
    ensures GoodIsSelected(actions, reports, Selecting(selected, Activations(actions, reports)))
  {
    var log := Activations(actions, reports);
    ActivationsAreReported(actions, reports);
    forall i | 0 <= i < |actions| && reports[i].outcome.Good()
      ensures IsSelected(actions[i], Selecting(selected, log)) {
      if reports[i].outcome.Activated? {
        ActivatedIsSelected(actions[i], selected, log);
      } else {
        OthersLeaveIt(actions[i], selected, log);
      }
    }
  }

  /** What was selected before a later part of the plan is selected after it. */
  lemma LaterPartsLeaveIt(
      earlier: seq<Action>, reports: seq<Report>, actions: seq<Action>, more: seq<Report>,
      selected: map<Component, nat>)
    requires Distinct(earlier + actions) && GoodIsSelected(earlier, reports, selected) && |more| == |actions|
    ensures GoodIsSelected(earlier, reports, Selecting(selected, Activations(actions, more)))
  {
    var log := Activations(actions, more);
    ActivationsAreReported(actions, more);
    forall i | 0 <= i < |earlier| && reports[i].outcome.Good()
      ensures IsSelected(earlier[i], Selecting(selected, log)) {
      var all := earlier + actions;
      forall b | b in log ensures b.component != earlier[i].component {
        var j :| 0 <= j < |actions| && actions[j] == b;
        assert all[i] == earlier[i] && all[|earlier| + j] == b;
      }
      OthersLeaveIt(earlier[i], selected, log);
    }
  }

  lemma JoinedSelected(
      a1: seq<Action>, r1: seq<Report>, a2: seq<Action>, r2: seq<Report>, selected: map<Component, nat>)
    requires GoodIsSelected(a1, r1, selected) && GoodIsSelected(a2, r2, selected)
    ensures GoodIsSelected(a1 + a2, r1 + r2, selected)
  {
    var a, r, n := a1 + a2, r1 + r2, |a1|;
    forall i | 0 <= i < |a| && r[i].outcome.Good() ensures IsSelected(a[i], selected) {
      if i < n {
        assert a[i] == a1[i] && r[i] == r1[i];
      } else {
        assert a[i] == a2[i - n] && r[i] == r2[i - n];
      }
    }
  }

  // The optional groups

  /** Installs one optional group as a part of its own. */
  method InstallGroup(inst: Installer, actions: seq<Action>)
    returns (reports: seq<Report>, ghost fate: seq<Option<State>>, ghost end: PartEnd)
    modifies inst
    ensures old(inst.cancelled) ==>
      inst.cancelled && inst.log == old(inst.log) && inst.downloads == old(inst.downloads)
    ensures end.cancelled == inst.cancelled
    ensures Whole(end) && end.grouping == Together
      && end.actions == actions && end.reports == reports && end.fate == fate
    ensures Ended(actions, reports, fate) && CurrentAsIn(actions, reports, old(inst.Selected()))
    ensures inst.log == old(inst.log) + Activations(actions, reports)
    ensures inst.failed == (old(inst.failed) || !AllGood(reports))
    ensures AllGood(reports) || SomeBroke(reports)
    ensures AllSelected(actions, old(inst.Selected())) ==> inst.downloads == old(inst.downloads)
  {
    var part := new Part(actions);
    var pending, f := MarkAndFetchAll(inst, part);
    var ok := Finish(inst, part, pending, f, Together, old(inst.Selected()));
    reports, fate, end := part.reports, part.made.fate, EndOf(part, pending, inst.cancelled, Together);
  }

  predicate AllCurrent(reports: seq<Report>) {
    forall i :: 0 <= i < |reports| ==> reports[i].outcome.AlreadyCurrent?
  }

  /** What several groups' reports say, `first` being selected before any of them. */
  ghost predicate GroupsEnded(
      actions: seq<Action>, reports: seq<Report>, fate: seq<Option<State>>, first: map<Component, nat>) {
    && Told(actions, reports, fate) && AllSettled(fate) && Isolated(actions, reports)
    && (Distinct(actions) ==> GoodIsSelected(actions, reports, Selecting(first, Activations(actions, reports))))
    && (AllSelected(actions, first) ==> AllCurrent(reports))
  }

  lemma AllCurrentActivatesNothing(actions: seq<Action>, reports: seq<Report>)
    requires |actions| == |reports| && AllCurrent(reports)
    ensures Activations(actions, reports) == []
  {
    NothingActivated(actions, reports);
  }

  lemma NextSelected(
      actions: seq<Action>, reports: seq<Report>, more: seq<Action>, moreReports: seq<Report>,
      first: map<Component, nat>)
    requires |reports| == |actions| && Distinct(actions + more)
    requires GoodIsSelected(actions, reports, Selecting(first, Activations(actions, reports)))
    requires CurrentAsIn(more, moreReports, Selecting(first, Activations(actions, reports)))
    ensures GoodIsSelected(actions + more, reports + moreReports,
      Selecting(first, Activations(actions + more, reports + moreReports)))
  {
    var before := Selecting(first, Activations(actions, reports));
    var after := Selecting(before, Activations(more, moreReports));
    assert (actions + more)[|actions|..] == more;
    ActivationsJoin(actions, reports, more, moreReports);
    SelectingMore(first, Activations(actions, reports), Activations(more, moreReports));
    PartIsSelected(more, moreReports, before);
    LaterPartsLeaveIt(actions, reports, more, moreReports, before);
    JoinedSelected(actions, reports, more, moreReports, after);
  }

  lemma NextCurrent(
      actions: seq<Action>, reports: seq<Report>, more: seq<Action>, moreReports: seq<Report>,
      first: map<Component, nat>)
    requires |reports| == |actions| && AllCurrent(reports) && AllSelected(actions + more, first)
    requires CurrentAsIn(more, moreReports, Selecting(first, Activations(actions, reports)))
    ensures AllCurrent(reports + moreReports) && AllSelected(more, Selecting(first, Activations(actions, reports)))
  {
    assert forall i :: 0 <= i < |more| ==> (actions + more)[|actions| + i] == more[i];
    AllCurrentActivatesNothing(actions, reports);
    assert Selecting(first, []) == first;
  }

  lemma StillSelected(
      actions: seq<Action>, reports: seq<Report>, fate: seq<Option<State>>, more: seq<Action>,
      first: map<Component, nat>)
    requires GroupsEnded(actions, reports, fate, first)
    ensures AllSelected(actions + more, first) ==> AllSelected(more, Selecting(first, Activations(actions, reports)))
  {
    if AllSelected(actions + more, first) {
      SelectedPrefix(actions, more, first);
      assert forall i :: 0 <= i < |more| ==> (actions + more)[|actions| + i] == more[i];
      AllCurrentActivatesNothing(actions, reports);
      assert Selecting(first, []) == first;
    }
  }

  lemma NextGroup(
      actions: seq<Action>, reports: seq<Report>, fate: seq<Option<State>>, more: seq<Action>,
      moreReports: seq<Report>, moreFate: seq<Option<State>>, first: map<Component, nat>)
    requires GroupsEnded(actions, reports, fate, first) && Ended(more, moreReports, moreFate)
    requires CurrentAsIn(more, moreReports, Selecting(first, Activations(actions, reports)))
    requires forall k :: 0 <= k < |more| ==> GroupOf(more[k].component) == GroupOf(more[0].component)
    requires AllGood(moreReports) || SomeBroke(moreReports)
    ensures GroupsEnded(actions + more, reports + moreReports, fate + moreFate, first)
  {
    JoinedTold(actions, reports, fate, more, moreReports, moreFate);
    OneMoreGroup(actions, reports, more, moreReports);
    if Distinct(actions + more) {
      DistinctPrefix(actions, more);
      NextSelected(actions, reports, more, moreReports, first);
    }
    if AllSelected(actions + more, first) {
      SelectedPrefix(actions, more, first);
      NextCurrent(actions, reports, more, moreReports, first);
    }
  }

  lemma DistinctPrefix(actions: seq<Action>, more: seq<Action>)
    requires Distinct(actions + more)
    ensures Distinct(actions)
  {
    assert (actions + more)[..|actions|] == actions;
  }

  lemma SelectedPrefix(actions: seq<Action>, more: seq<Action>, selected: map<Component, nat>)
    requires AllSelected(actions + more, selected)
    ensures AllSelected(actions, selected)
  {
    assert forall i :: 0 <= i < |actions| ==> (actions + more)[i] == actions[i];
  }

  // The groups so far

  /** What the parts activated, in order. */
  ghost function LogOf(parts: seq<PartEnd>): seq<Action> {
    if parts == [] then []
    else
      var p := parts[|parts| - 1];
      LogOf(parts[..|parts| - 1]) + if |p.actions| == |p.reports| then Activations(p.actions, p.reports) else []
  }

  ghost predicate OneGroup(actions: seq<Action>) {
    forall k :: 0 <= k < |actions| ==> GroupOf(actions[k].component) == GroupOf(actions[0].component)
  }

  /** Each part is a group that is over, begun with what the ones before it left selected. */
  ghost predicate GroupsDone(parts: seq<PartEnd>, first: map<Component, nat>) {
    parts == []
    || (var n := |parts| - 1;
        GroupsDone(parts[..n], first) && GroupDone(parts[n], Selecting(first, LogOf(parts[..n]))))
  }

  ghost predicate GroupDone(p: PartEnd, selected: map<Component, nat>) {
    && Whole(p) && p.grouping == Together && Ended(p.actions, p.reports, p.fate)
    && CurrentAsIn(p.actions, p.reports, selected) && OneGroup(p.actions)
    && (AllGood(p.reports) || SomeBroke(p.reports))
  }

  lemma NextGroupDone(parts: seq<PartEnd>, p: PartEnd, first: map<Component, nat>)
    requires GroupsDone(parts, first) && GroupDone(p, Selecting(first, LogOf(parts)))
    ensures GroupsDone(parts + [p], first)
    ensures LogOf(parts + [p]) == LogOf(parts) + Activations(p.actions, p.reports)
    ensures ActionsOf(parts + [p]) == ActionsOf(parts) + p.actions
    ensures ReportsOf(parts + [p]) == ReportsOf(parts) + p.reports
  {
    assert (parts + [p])[..|parts|] == parts;
  }

  /** What the groups' reports say together. */
  lemma {:induction false} GroupsAreEnded(parts: seq<PartEnd>, first: map<Component, nat>)
    requires GroupsDone(parts, first)
    ensures GroupsEnded(ActionsOf(parts), ReportsOf(parts), FatesOf(parts), first)
    ensures LogOf(parts) == Activations(ActionsOf(parts), ReportsOf(parts)) && AllWhole(parts, Together)
    decreases |parts|
  {
    if parts != [] {
      var before, p := parts[..|parts| - 1], parts[|parts| - 1];
      GroupsAreEnded(before, first);
      NextGroup(ActionsOf(before), ReportsOf(before), FatesOf(before), p.actions, p.reports, p.fate, first);
      ActivationsJoin(ActionsOf(before), ReportsOf(before), p.actions, p.reports);
    }
  }

  /** Installs one more group after those already over, whatever happened to them. */
  method InstallNextGroup(inst: Installer, group: seq<Action>, ghost parts: seq<PartEnd>, ghost base: seq<Action>)
    returns (more: seq<Report>, ghost end: PartEnd)
    requires GroupsDone(parts, Selecting(inst.before, base)) && inst.log == base + LogOf(parts) && OneGroup(group)
    modifies inst
    ensures old(inst.cancelled) ==>
      inst.cancelled && inst.log == old(inst.log) && inst.downloads == old(inst.downloads)
    ensures GroupsDone(parts + [end], Selecting(inst.before, base)) && inst.log == base + LogOf(parts + [end])
    ensures end.actions == group && end.reports == more && end.cancelled == inst.cancelled
    ensures inst.failed == (old(inst.failed) || !AllGood(more))
    ensures AllSelected(ActionsOf(parts) + group, Selecting(inst.before, base)) ==>
      inst.downloads == old(inst.downloads)
  {
    ghost var first := Selecting(inst.before, base);
    SelectingMore(inst.before, base, LogOf(parts));
    GroupsAreEnded(parts, first);
    StillSelected(ActionsOf(parts), ReportsOf(parts), FatesOf(parts), group, first);
    ghost var fate;
    more, fate, end := InstallGroup(inst, group);
    NextGroupDone(parts, end, first);
    Regrouped(base, LogOf(parts), Activations(group, more));
  }

  /** Installs the optional groups in plan order, whatever happens to each. */
  method InstallGroups(inst: Installer, optional: seq<Action>)
    returns (reports: seq<Report>, ghost fate: seq<Option<State>>, ghost parts: seq<PartEnd>)
    modifies inst
    ensures old(inst.cancelled) ==>
      inst.cancelled && inst.log == old(inst.log) && inst.downloads == old(inst.downloads)
    ensures GroupsEnded(optional, reports, fate, old(inst.Selected()))
      && MadeOf(parts, Together, optional, reports, fate) && CancelledIn(parts, inst.cancelled)
    ensures inst.log == old(inst.log) + Activations(optional, reports)
    ensures inst.failed == (old(inst.failed) || !AllGood(reports))
    ensures AllSelected(optional, old(inst.Selected())) ==> inst.downloads == old(inst.downloads)
  {
    ghost var first := inst.Selected();
    reports, parts := InstallInTurn(inst, optional);
    GroupsAreEnded(parts, first);
    fate := FatesOf(parts);
  }

  /** The groups one after the other. */
  method InstallInTurn(inst: Installer, optional: seq<Action>) returns (reports: seq<Report>, ghost parts: seq<PartEnd>)
    modifies inst
    ensures old(inst.cancelled) ==>
      inst.cancelled && inst.log == old(inst.log) && inst.downloads == old(inst.downloads)
    ensures ActionsOf(parts) == optional && ReportsOf(parts) == reports && CancelledIn(parts, inst.cancelled)
    ensures GroupsDone(parts, old(inst.Selected())) && inst.log == old(inst.log) + LogOf(parts)
    ensures inst.failed == (old(inst.failed) || !AllGood(reports))
    ensures AllSelected(optional, old(inst.Selected())) ==> inst.downloads == old(inst.downloads)
  {
    var start := 0;
    reports, parts := [], [];
    ghost var first, base := inst.Selected(), inst.log;
    while start < |optional|
      invariant start <= |optional| && ActionsOf(parts) == optional[..start] && ReportsOf(parts) == reports
      invariant GroupsDone(parts, first) && inst.log == base + LogOf(parts) && CancelledIn(parts, inst.cancelled)
      invariant inst.failed == (old(inst.failed) || !AllGood(reports))
      invariant AllSelected(optional, first) ==> inst.downloads == old(inst.downloads)
      invariant old(inst.cancelled) ==>
          inst.cancelled && inst.log == old(inst.log) && inst.downloads == old(inst.downloads)
    {
      var more, end, last := InstallGroupFrom(inst, optional, start, parts, base);
      OneMoreReported(parts, last);
      reports, parts, start := reports + more, parts + [last], end;
    }
    assert optional[..start] == optional;
  }

  /** Installs the group that begins at `start`. */
  method InstallGroupFrom(
      inst: Installer, optional: seq<Action>, start: nat, ghost parts: seq<PartEnd>, ghost base: seq<Action>)
    returns (more: seq<Report>, end: nat, ghost last: PartEnd)
    requires start < |optional| && ActionsOf(parts) == optional[..start]
    requires GroupsDone(parts, Selecting(inst.before, base)) && inst.log == base + LogOf(parts)
    modifies inst
    ensures old(inst.cancelled) ==>
      inst.cancelled && inst.log == old(inst.log) && inst.downloads == old(inst.downloads)
    ensures start < end <= |optional| && ActionsOf(parts + [last]) == optional[..end] && last.reports == more
    ensures last.cancelled == inst.cancelled
    ensures GroupsDone(parts + [last], Selecting(inst.before, base)) && inst.log == base + LogOf(parts + [last])
    ensures inst.failed == (old(inst.failed) || !AllGood(more))
    ensures AllSelected(optional, Selecting(inst.before, base)) ==> inst.downloads == old(inst.downloads)
  {
    end := GroupEnd(optional, start);
    var group := optional[start..end];
    NextSlice(optional, start, end);
    SplitSelected(optional, end, Selecting(inst.before, base));
    more, last := InstallNextGroup(inst, group, parts, base);
    OneMoreReported(parts, last);
  }

  lemma OneMoreReported(parts: seq<PartEnd>, p: PartEnd)
    ensures ActionsOf(parts + [p]) == ActionsOf(parts) + p.actions
    ensures ReportsOf(parts + [p]) == ReportsOf(parts) + p.reports
    ensures AllGood(ReportsOf(parts + [p])) <==> AllGood(ReportsOf(parts)) && AllGood(p.reports)
  {
    assert (parts + [p])[..|parts|] == parts;
    JoinedOutcomes(ReportsOf(parts), p.reports);
  }

  /** Where the group that begins at `start` ends. */
  method GroupEnd(optional: seq<Action>, start: nat) returns (end: nat)
    requires start < |optional|
    ensures start < end <= |optional| && OneGroup(optional[start..end])
    ensures end < |optional| ==> GroupOf(optional[end].component) != GroupOf(optional[start].component)
  {
    end := start + 1;
    while end < |optional| && GroupOf(optional[end].component) == GroupOf(optional[start].component)
      invariant start < end <= |optional|
      invariant forall k :: start <= k < end ==> GroupOf(optional[k].component) == GroupOf(optional[start].component)
    {
      end := end + 1;
    }
  }

  // The plan

  /** Report `n` is the first that broke, with this failure. */
  ghost predicate BreaksFirst(reports: seq<Report>, n: nat, failure: Failure) {
    && n < |reports| && reports[n].outcome == Failed(failure) && failure.reason != Blocked
    && forall i :: 0 <= i < n ==> !reports[i].outcome.Broke()
  }

  /** The failure the run reports: the first core failure that is not a blocking one. */
  function FirstFailure(reports: seq<Report>): (failure: Option<Failure>)
    ensures failure.Some? <==> SomeBroke(reports)
    ensures failure.Some? ==> exists n: nat :: BreaksFirst(reports, n, failure.value)
  {
    if reports == [] then Option.None
    else if reports[0].outcome.Broke() then
      assert BreaksFirst(reports, 0, reports[0].outcome.failure);
      Some(reports[0].outcome.failure)
    else
      var later := FirstFailure(reports[1..]);
      BreaksLater(reports, later);
      later
  }

  lemma BreaksLater(reports: seq<Report>, later: Option<Failure>)
    requires reports != [] && !reports[0].outcome.Broke() && (later.Some? <==> SomeBroke(reports[1..]))
    requires later.Some? ==> exists n: nat :: BreaksFirst(reports[1..], n, later.value)
    ensures later.Some? <==> SomeBroke(reports)
    ensures later.Some? ==> exists n: nat :: BreaksFirst(reports, n, later.value)
  {
    assert forall i :: 0 < i < |reports| ==> reports[i] == reports[1..][i - 1];
    if later.Some? {
      var n: nat :| BreaksFirst(reports[1..], n, later.value);
      assert BreaksFirst(reports, n + 1, later.value);
    }
  }

  datatype Result = Result(core: seq<Report>, optional: seq<Report>)

  /** What became of every download of a run: of the core's parts and of the optional groups. */
  datatype Downloaded = Downloaded(
    core: seq<Option<State>>, coreParts: seq<PartEnd>, tools: bool, cancelled: bool, optional: seq<Option<State>>,
    groups: seq<PartEnd>)

  /** What a finished run says. No download is left open and every report tells what became of its
      own. Each part, of the core and of the optional groups if they were reached, is whole: nothing
      of it was activated before everything it needed was downloaded and its whole unit had passed
      one smoke. Optional groups are reached only once the core is complete, and fail on their own:
      what is said of the core does not depend on them. */
  ghost predicate RunEnded(core: seq<Action>, optional: seq<Action>, result: Result, d: Downloaded) {
    && CoreEnded(core, result.core, d.core, d.coreParts, d.tools, d.cancelled)
    && Told(optional, result.optional, d.optional) && AllSettled(d.optional)
    && (if AllGood(result.core)
        then Isolated(optional, result.optional) && MadeOf(d.groups, Together, optional, result.optional, d.optional)
        else result.optional == BlockedReports(optional))
  }

  lemma {:induction false} OnlyMoreKeys(selected: map<Component, nat>, log: seq<Action>)
    ensures selected.Keys <= Selecting(selected, log).Keys
  {
  }

  lemma StillBlocked(core: seq<Action>, reports: seq<Report>, optional: seq<Action>, first: map<Component, nat>)
    requires CurrentAsIn(core, reports, first) && !AllGood(reports)
    ensures Activations(core + optional, reports + BlockedReports(optional)) == Activations(core, reports)
    ensures Told(optional, BlockedReports(optional), seq(|optional|, i => Option.None))
    ensures !AllSelected(core + optional, first)
    ensures Distinct(core + optional) ==>
      GoodIsSelected(core + optional, reports + BlockedReports(optional), Selecting(first, Activations(core, reports)))
  {
    var all, rest := core + optional, BlockedReports(optional);
    NothingActivated(optional, rest);
    ActivationsJoin(core, reports, optional, rest);
    var i :| 0 <= i < |reports| && !reports[i].outcome.Good();
    assert all[i] == core[i];
    if Distinct(all) {
      DistinctPrefix(core, optional);
      PartIsSelected(core, reports, first);
      JoinedSelected(core, reports, optional, rest, Selecting(first, Activations(core, reports)));
    }
  }

  lemma BothEnded(
      core: seq<Action>, reports: seq<Report>, optional: seq<Action>, others: seq<Report>,
      more: seq<Option<State>>, first: map<Component, nat>)
    requires CurrentAsIn(core, reports, first)
    requires GroupsEnded(optional, others, more, Selecting(first, Activations(core, reports)))
    ensures Activations(core + optional, reports + others) == Activations(core, reports) + Activations(optional, others)
    ensures AllSelected(core + optional, first) ==> AllCurrent(reports + others)
    ensures Distinct(core + optional) ==>
      GoodIsSelected(core + optional, reports + others,
        Selecting(first, Activations(core + optional, reports + others)))
  {
    var all, between := core + optional, Selecting(first, Activations(core, reports));
    ActivationsJoin(core, reports, optional, others);
    SelectingMore(first, Activations(core, reports), Activations(optional, others));
    CoreStaysCurrent(core, reports, optional, first);
    assert forall i :: 0 <= i < |reports| ==> (reports + others)[i] == reports[i];
    if Distinct(all) {
      DistinctPrefix(core, optional);
      assert all[|core|..] == optional;
      PartIsSelected(core, reports, first);
      LaterPartsLeaveIt(core, reports, optional, others, between);
      JoinedSelected(core, reports, optional, others, Selecting(between, Activations(optional, others)));
    }
  }

  /** When everything was selected before, the core activates nothing. */
  lemma CoreStaysCurrent(core: seq<Action>, reports: seq<Report>, optional: seq<Action>, first: map<Component, nat>)
    requires CurrentAsIn(core, reports, first)
    ensures AllSelected(core + optional, first) ==>
      AllCurrent(reports) && AllSelected(core, first)
        && AllSelected(optional, Selecting(first, Activations(core, reports)))
  {
    if AllSelected(core + optional, first) {
      SelectedPrefix(core, optional, first);
      assert forall i :: 0 <= i < |optional| ==> (core + optional)[|core| + i] == optional[i];
      AllCurrentActivatesNothing(core, reports);
      assert Selecting(first, []) == first;
    }
  }

  /** Whatever one plan's core came to, it could have come to beside any other optional list: two runs
      whose cores are both complete, or both not, may swap their cores. */
  lemma OptionalLeavesTheCore(
      core: seq<Action>, one: seq<Action>, r: Result, d: Downloaded, other: seq<Action>, q: Result, e: Downloaded)
    requires RunEnded(core, one, r, d) && RunEnded(core, other, q, e) && (AllGood(r.core) <==> AllGood(q.core))
    ensures RunEnded(core, other, Result(r.core, q.optional), d.(optional := e.optional, groups := e.groups))
  {
  }

  /** A plan whose core is not complete ends with its optional groups blocked. */
  lemma StoppedPlanEnds(
      core: seq<Action>, reports: seq<Report>, fate: seq<Option<State>>, parts: seq<PartEnd>, tools: bool,
      cancelled: bool, optional: seq<Action>)
    requires CoreEnded(core, reports, fate, parts, tools, cancelled) && !AllGood(reports)
    ensures var nothing := seq(|optional|, i => Option.None);
      RunEnded(core, optional, Result(reports, BlockedReports(optional)),
        Downloaded(fate, parts, tools, cancelled, nothing, []))
  {
  }

  /** A plan whose core is complete ends with its optional groups, each ended by itself. */
  lemma CompletePlanEnds(
      core: seq<Action>, reports: seq<Report>, fate: seq<Option<State>>, parts: seq<PartEnd>, tools: bool,
      cancelled: bool, optional: seq<Action>, others: seq<Report>, more: seq<Option<State>>, groups: seq<PartEnd>,
      selected: map<Component, nat>)
    requires CoreEnded(core, reports, fate, parts, tools, cancelled) && AllGood(reports)
    requires GroupsEnded(optional, others, more, selected) && MadeOf(groups, Together, optional, others, more)
    ensures RunEnded(core, optional, Result(reports, others),
      Downloaded(fate, parts, tools, cancelled, more, groups))
  {
  }

  /** What the plan left selected, from what was selected before. */
  ghost predicate PlanSelects(
      core: seq<Action>, optional: seq<Action>, result: Result, first: map<Component, nat>,
      after: map<Component, nat>) {
    && first.Keys <= after.Keys
    && (Distinct(core + optional) ==> GoodIsSelected(core + optional, result.core + result.optional, after))
    && (AllSelected(core + optional, first) ==> AllCurrent(result.core + result.optional))
  }

  lemma StoppedPlanSelects(
      core: seq<Action>, reports: seq<Report>, optional: seq<Action>, before: map<Component, nat>, base: seq<Action>)
    requires CurrentAsIn(core, reports, Selecting(before, base)) && !AllGood(reports)
    ensures var first, result := Selecting(before, base), Result(reports, BlockedReports(optional));
      var log := base + Activations(core + optional, result.core + result.optional);
      && log == base + Activations(core, reports) && PlanSelects(core, optional, result, first, Selecting(before, log))
      && !AllSelected(core + optional, first)
  {
    var first := Selecting(before, base);
    StillBlocked(core, reports, optional, first);
    SelectingMore(before, base, Activations(core, reports));
    OnlyMoreKeys(first, Activations(core, reports));
  }

  lemma CompletePlanSelects(
      core: seq<Action>, reports: seq<Report>, optional: seq<Action>, others: seq<Report>, more: seq<Option<State>>,
      before: map<Component, nat>, base: seq<Action>)
    requires CurrentAsIn(core, reports, Selecting(before, base))
    requires GroupsEnded(optional, others, more, Selecting(before, base + Activations(core, reports)))
    ensures var first, result := Selecting(before, base), Result(reports, others);
      var log := base + Activations(core + optional, result.core + result.optional);
      && log == base + Activations(core, reports) + Activations(optional, others)
      && PlanSelects(core, optional, result, first, Selecting(before, log))
      && (AllSelected(core + optional, first) ==>
          AllSelected(core, first) && AllSelected(optional, Selecting(before, base + Activations(core, reports))))
  {
    var first, all := Selecting(before, base), Activations(core + optional, reports + others);
    SelectingMore(before, base, Activations(core, reports));
    BothEnded(core, reports, optional, others, more, first);
    Regrouped(base, Activations(core, reports), Activations(optional, others));
    SelectingMore(before, base, all);
    OnlyMoreKeys(first, all);
    CoreStaysCurrent(core, reports, optional, first);
  }

  /** Installs an accepted plan: the core, and only once it is complete the optional groups. */
  method InstallPlan(inst: Installer, core: seq<Action>, optional: seq<Action>)
    returns (result: Result, ghost d: Downloaded)
    modifies inst
    ensures old(inst.cancelled) ==>
      inst.cancelled && inst.log == old(inst.log) && inst.downloads == old(inst.downloads)
    ensures RunEnded(core, optional, result, d) && CancelledIn(d.coreParts + d.groups, inst.cancelled)
    ensures inst.log == old(inst.log) + Activations(core + optional, result.core + result.optional)
    ensures PlanSelects(core, optional, result, old(inst.Selected()), inst.Selected())
    ensures inst.failed == (old(inst.failed) || !AllGood(result.core) || !AllGood(result.optional))
    ensures FirstFailure(result.core) == Option.None <==> AllGood(result.core)
    ensures AllSelected(core + optional, old(inst.Selected())) ==> inst.downloads == old(inst.downloads)
  {
    ghost var base := inst.log;
    var reports, ok;
    ghost var fate, parts;
    reports, ok, fate, parts := InstallCore(inst, core);
    ghost var tools, cancelled := inst.tools, inst.cancelled;
    if !ok {
      StoppedPlanSelects(core, reports, optional, inst.before, base);
      StoppedPlanEnds(core, reports, fate, parts, tools, cancelled, optional);
      result := Result(reports, BlockedReports(optional));
      d := Downloaded(fate, parts, tools, cancelled, seq(|optional|, i => Option.None), []);
      return;
    }
    var others, more, groups := InstallOptional(inst, core, reports, optional, base);
    CompletePlanEnds(core, reports, fate, parts, tools, cancelled, optional, others, more, groups,
      Selecting(inst.before, base + Activations(core, reports)));
    result, d := Result(reports, others), Downloaded(fate, parts, tools, cancelled, more, groups);
  }

  /** The optional groups of a plan whose core is complete. */
  method InstallOptional(
      inst: Installer, ghost core: seq<Action>, ghost reports: seq<Report>, optional: seq<Action>,
      ghost base: seq<Action>)
    returns (others: seq<Report>, ghost more: seq<Option<State>>, ghost groups: seq<PartEnd>)
    requires CurrentAsIn(core, reports, Selecting(inst.before, base))
    requires inst.log == base + Activations(core, reports)
    modifies inst
    ensures old(inst.cancelled) ==>
      inst.cancelled && inst.log == old(inst.log) && inst.downloads == old(inst.downloads)
    ensures GroupsEnded(optional, others, more, Selecting(inst.before, base + Activations(core, reports)))
    ensures MadeOf(groups, Together, optional, others, more) && CancelledIn(groups, inst.cancelled)
    ensures inst.log == base + Activations(core + optional, reports + others)
    ensures PlanSelects(core, optional, Result(reports, others), Selecting(inst.before, base), inst.Selected())
    ensures inst.failed == (old(inst.failed) || !AllGood(others))
    ensures AllSelected(core + optional, Selecting(inst.before, base)) ==>
      AllSelected(core, Selecting(inst.before, base)) && inst.downloads == old(inst.downloads)
  {
    others, more, groups := InstallGroups(inst, optional);
    CompletePlanSelects(core, reports, optional, others, more, inst.before, base);
  }

  /** A run after one that left everything active fetches nothing and finds everything current;
      `tried` is how many downloads had been tried when the first run ended. */
  method InstallTwice(inst: Installer, core: seq<Action>, optional: seq<Action>)
      returns (once: Result, again: Result, ghost tried: nat)
    requires Distinct(core + optional)
    modifies inst
    ensures !inst.failed ==> AllGood(once.core + once.optional)
    ensures AllGood(once.core + once.optional) ==>
      AllCurrent(again.core + again.optional) && inst.downloads == tried && inst.failed == old(inst.failed)
  {
    ghost var d;
    once, d := InstallPlan(inst, core, optional);
    tried := inst.downloads;
    JoinedOutcomes(once.core, once.optional);
    again, d := InstallPlan(inst, core, optional);
    JoinedOutcomes(again.core, again.optional);
  }
}
