/** A whole plan: the core's two parts fetched side by side, then the optional groups, each a part
    of its own. */
module PlanParts {
  import opened Basics
  import opened Install
  import opened InstallUnits
  import opened InstallPart

  /** In one part nothing is activated unless everything it needed was downloaded. */
  ghost predicate WholeFirst(reports: seq<Report>, fate: seq<Option<State>>)
    requires |reports| == |fate|
  {
    forall i, j :: 0 <= i < |fate| && 0 <= j < |fate| && IsActive(fate, i) ==>
      fate[j].Some? || reports[j].outcome.AlreadyCurrent?
  }

  /** A part's reports once it is over. */
  ghost predicate Ended(actions: seq<Action>, reports: seq<Report>, fate: seq<Option<State>>) {
    Told(actions, reports, fate) && AllSettled(fate)
  }

  /** The actions reported current are the ones that were. */
  ghost predicate CurrentAsIn(actions: seq<Action>, reports: seq<Report>, selected: map<Component, nat>) {
    |reports| == |actions| && forall i :: 0 <= i < |actions| ==>
      (reports[i].outcome.AlreadyCurrent? <==> IsSelected(actions[i], selected))
  }

  ghost predicate AllSettled(fate: seq<Option<State>>) {
    forall i :: 0 <= i < |fate| && fate[i].Some? ==> !fate[i].value.Open()
  }

  // One part once it is over

  /** A part, the downloads it needed, the smokes that passed over them, what failed, and whether the
      caller was seen to have cancelled by then. */
  datatype PartEnd = PartEnd(
    actions: seq<Action>, reports: seq<Report>, fate: seq<Option<State>>, pending: seq<nat>, passes: set<seq<nat>>,
    faults: set<nat>, refused: set<seq<nat>>, cancelled: bool, grouping: Grouping)

  /** A part activates nothing before everything it needed is downloaded, and nothing of a unit
      unless the whole unit passed one smoke; and no failure in its reports is without a cause. */
  ghost predicate Whole(p: PartEnd) {
    && |p.reports| == |p.fate| == |p.actions| && WholeFirst(p.reports, p.fate)
    && Caused(p.reports, p.faults, p.refused, p.cancelled)
    && NeedsThePending(p.reports, p.pending)
    && PassedTogether(p.fate, p.passes, Units(p.actions, p.pending, p.grouping))
  }

  /** No part was seen as cancelled but in a run that was. */
  ghost predicate CancelledIn(parts: seq<PartEnd>, cancelled: bool) {
    forall p :: p in parts && p.cancelled ==> cancelled
  }

  /** The downloads a part needed: of every action that was not current, in plan order. */
  ghost predicate NeedsThePending(reports: seq<Report>, pending: seq<nat>) {
    && Ascending(pending) && (forall k :: 0 <= k < |pending| ==> pending[k] < |reports|)
    && forall i :: 0 <= i < |reports| ==> (i in pending <==> !reports[i].outcome.AlreadyCurrent?)
  }

  function ActionsOf(parts: seq<PartEnd>): seq<Action> {
    if parts == [] then [] else ActionsOf(parts[..|parts| - 1]) + parts[|parts| - 1].actions
  }

  function ReportsOf(parts: seq<PartEnd>): seq<Report> {
    if parts == [] then [] else ReportsOf(parts[..|parts| - 1]) + parts[|parts| - 1].reports
  }

  function FatesOf(parts: seq<PartEnd>): seq<Option<State>> {
    if parts == [] then [] else FatesOf(parts[..|parts| - 1]) + parts[|parts| - 1].fate
  }

  /** The parts, each whole, make up the plan's actions and their reports. */
  ghost predicate MadeOf(
    parts: seq<PartEnd>, grouping: Grouping, actions: seq<Action>, reports: seq<Report>, fate: seq<Option<State>>)
  {
    && ActionsOf(parts) == actions && ReportsOf(parts) == reports && FatesOf(parts) == fate
    && AllWhole(parts, grouping)
  }

  ghost predicate AllWhole(parts: seq<PartEnd>, grouping: Grouping) {
    parts == []
    || (AllWhole(parts[..|parts| - 1], grouping)
      && Whole(parts[|parts| - 1]) && parts[|parts| - 1].grouping == grouping)
  }

  lemma {:induction false} EachIsWhole(parts: seq<PartEnd>, grouping: Grouping, p: PartEnd)
    requires AllWhole(parts, grouping) && p in parts
    ensures Whole(p) && p.grouping == grouping
    decreases |parts|
  {
    if p != parts[|parts| - 1] { EachIsWhole(parts[..|parts| - 1], grouping, p); }
  }

  lemma OneMorePart(
    parts: seq<PartEnd>, grouping: Grouping, actions: seq<Action>, reports: seq<Report>, fate: seq<Option<State>>,
    p: PartEnd)
    requires MadeOf(parts, grouping, actions, reports, fate) && Whole(p) && p.grouping == grouping
    ensures MadeOf(parts + [p], grouping, actions + p.actions, reports + p.reports, fate + p.fate)
  {
    assert (parts + [p])[..|parts|] == parts;
  }

  /** Whatever a whole part reports activated passed a smoke with its whole unit, after everything
      the part needed was downloaded. */
  lemma ActivatedIsWhole(p: PartEnd, i: nat) returns (unit: seq<nat>)
    requires Whole(p) && Told(p.actions, p.reports, p.fate) && i < |p.reports| && p.reports[i].outcome.Activated?
    ensures unit in Units(p.actions, p.pending, p.grouping) && i in unit && unit in p.passes
    ensures forall j :: 0 <= j < |p.reports| ==> p.fate[j].Some? || p.reports[j].outcome.AlreadyCurrent?
  {
    assert IsActive(p.fate, i) by { assert Tells(p.reports[i], p.fate[i]); }
    UnitsKeepOrder(p.actions, p.pending, p.grouping);
    unit := UnitOf(Units(p.actions, p.pending, p.grouping), i);
  }

  /** Whatever a whole part reports as failed, other than blocked, had a step of its own fail or its
      unit's smoke, or the caller was seen to have cancelled. */
  lemma FailedForACause(p: PartEnd, i: nat)
    requires Whole(p) && i < |p.reports| && p.reports[i].outcome.Broke()
    ensures
      || i in p.faults
      || (p.reports[i].outcome == Failed(CANCELLED) && p.cancelled)
      || (p.reports[i].outcome == Failed(SMOKE_FAILED) && exists unit :: unit in p.refused && i in unit)
  {
    assert IsBroken(p.reports, i);
  }

  lemma {:induction false} UnitOf(units: seq<seq<nat>>, i: nat) returns (unit: seq<nat>)
    requires i in Flatten(units)
    ensures unit in units && i in unit
    decreases |units|
  {
    var last := units[|units| - 1];
    if i in last { unit := last; } else { unit := UnitOf(units[..|units| - 1], i); }
  }

  const START := Fetching(0, Option.None, Option.None)

  method FetchAll(inst: Installer, part: Part, pending: seq<nat>) returns (f: Fetching)
    requires Ascending(pending) && part.Fetched(pending, START)
    modifies part.made`fate, part.made`faults, inst`cancelled, inst`failed, inst`downloads
    ensures part.FetchCaused(pending, f, inst.cancelled)
    ensures old(inst.cancelled) ==> inst.cancelled && inst.downloads == old(inst.downloads)
    ensures part.Fetched(pending, f) && f.Over(pending) && inst.failed == (old(inst.failed) || f.failure.Some?)
    ensures pending == [] ==> inst.downloads == old(inst.downloads)
  {
    f := START;
    while !f.Over(pending)
      invariant part.Fetched(pending, f) && inst.failed == (old(inst.failed) || f.failure.Some?)
      invariant part.FetchCaused(pending, f, inst.cancelled)
      invariant pending == [] ==> inst.downloads == old(inst.downloads)
      invariant old(inst.cancelled) ==> inst.cancelled && inst.downloads == old(inst.downloads)
      decreases |pending| - f.next, f.failure.None?
    {
      f := part.FetchNext(inst, pending, f);
    }
  }

  /** Marks a part and fetches what it needs. */
  method MarkAndFetchAll(inst: Installer, part: Part) returns (pending: seq<nat>, f: Fetching)
    requires part.Untouched()
    modifies inst`cancelled, inst`failed, inst`downloads, part`reports, part.made`fate, part.made`faults
    ensures part.FetchCaused(pending, f, inst.cancelled)
    ensures old(inst.cancelled) ==> inst.cancelled && inst.downloads == old(inst.downloads)
    ensures Ascending(pending) && Waiting(part.actions, part.reports, pending, inst.Selected())
    ensures part.Fetched(pending, f) && f.Over(pending) && inst.failed == (old(inst.failed) || f.failure.Some?)
    ensures AllSelected(part.actions, inst.Selected()) ==> inst.downloads == old(inst.downloads)
  {
    pending := Mark(inst, part);
    f := FetchAll(inst, part, pending);
  }

  /** Fetches for two parts side by side: whenever both have something left, either may go on. */
  method FetchBoth(inst: Installer, one: Part, ones: seq<nat>, two: Part, twos: seq<nat>)
      returns (f: Fetching, g: Fetching)
    requires one != two && one.made != two.made
    requires Ascending(ones) && one.Fetched(ones, START) && Ascending(twos) && two.Fetched(twos, START)
    modifies one.made`fate, one.made`faults, two.made`fate, two.made`faults
    modifies inst`cancelled, inst`failed, inst`downloads
    ensures one.FetchCaused(ones, f, inst.cancelled) && two.FetchCaused(twos, g, inst.cancelled)
    ensures old(inst.cancelled) ==> inst.cancelled && inst.downloads == old(inst.downloads)
    ensures one.Fetched(ones, f) && f.Over(ones) && two.Fetched(twos, g) && g.Over(twos)
    ensures inst.failed == (old(inst.failed) || f.failure.Some? || g.failure.Some?)
    ensures ones == [] && twos == [] ==> inst.downloads == old(inst.downloads)
  {
    f, g := START, START;
    while !f.Over(ones) || !g.Over(twos)
      invariant one.Fetched(ones, f) && two.Fetched(twos, g)
      invariant one.FetchCaused(ones, f, inst.cancelled) && two.FetchCaused(twos, g, inst.cancelled)
      invariant inst.failed == (old(inst.failed) || f.failure.Some? || g.failure.Some?)
      invariant ones == [] && twos == [] ==> inst.downloads == old(inst.downloads)
      invariant old(inst.cancelled) ==> inst.cancelled && inst.downloads == old(inst.downloads)
      decreases |ones| - f.next + |twos| - g.next, f.failure.None?, g.failure.None?
    {
      var first := *;
      if !f.Over(ones) && (first || g.Over(twos)) {
        f := one.FetchNext(inst, ones, f);
      } else {
        g := two.FetchNext(inst, twos, g);
      }
    }
  }

  /** The reports of a part before its downloads are used: current ones marked, the rest blocked. */
  ghost predicate Waiting(
      actions: seq<Action>, reports: seq<Report>, pending: seq<nat>, selected: map<Component, nat>) {
    && |reports| == |actions| && (forall k :: 0 <= k < |pending| ==> pending[k] < |actions|)
    && (forall i :: 0 <= i < |actions| ==> (i in pending <==> !IsSelected(actions[i], selected)))
    && forall i :: 0 <= i < |actions| ==> reports[i] == MarkedReport(actions[i], i in pending)
  }

  /** A part is over: its reports tell what became of its downloads, and of what they depended on. */
  ghost predicate Over(
    actions: seq<Action>, reports: seq<Report>, fate: seq<Option<State>>, pending: seq<nat>,
    selected: map<Component, nat>)
  {
    && Ended(actions, reports, fate) && CurrentAsIn(actions, reports, selected)
    && WholeFirst(reports, fate) && NeedsThePending(reports, pending)
  }

  lemma WhenInstalled(
      actions: seq<Action>, before: seq<Report>, after: seq<Report>, fate: seq<Option<State>>, pending: seq<nat>,
      selected: map<Component, nat>, ok: bool)
    requires Ascending(pending) && Waiting(actions, before, pending, selected)
      && Told(actions, after, fate) && Apart(before, after, pending)
    requires AreSpent(fate, pending) && forall i :: 0 <= i < |fate| && i !in pending ==> fate[i] == Option.None
    requires if ok then Are(fate, pending, 0, |pending|, Active) else SomeBroke(after)
    ensures Over(actions, after, fate, pending, selected) && (ok <==> AllGood(after))
    ensures NoneKept(fate)
  {
  }

  lemma WhenNotUsed(
      actions: seq<Action>, before: seq<Report>, after: seq<Report>, fate: seq<Option<State>>, pending: seq<nat>,
      selected: map<Component, nat>)
    requires Ascending(pending) && Waiting(actions, before, pending, selected)
      && Told(actions, after, fate) && Apart(before, after, pending) && pending != []
    requires forall k :: 0 <= k < |pending| ==>
      pending[k] < |fate| && fate[pending[k]].Some? && fate[pending[k]].value in {Kept, Unkept, Thrown}
    requires forall i :: 0 <= i < |fate| && i !in pending ==> fate[i] == Option.None
    ensures Over(actions, after, fate, pending, selected) && !AllGood(after) && NoneActive(fate)
    ensures Activations(actions, after) == [] && IsComplete(after, fate)
  {
    assert fate[pending[0]].Some?;
    NothingActivated(actions, after);
  }

  lemma WhenNotFetched(
      actions: seq<Action>, before: seq<Report>, after: seq<Report>, fate: seq<Option<State>>, pending: seq<nat>,
      selected: map<Component, nat>)
    requires Ascending(pending) && Waiting(actions, before, pending, selected) && Told(actions, after, fate)
    requires forall i :: 0 <= i < |after| ==> (after[i].outcome.AlreadyCurrent? ==> before[i].outcome.AlreadyCurrent?)
    requires forall i :: 0 <= i < |after| && i !in pending ==> after[i] == before[i]
    requires forall i :: 0 <= i < |fate| ==> fate[i] == Option.None || fate[i] == Some(Thrown)
    ensures Over(actions, after, fate, pending, selected) && NoneKept(fate) && NoneActive(fate)
  {
  }

  lemma NotAllIsThere(
      before: seq<Report>, after: seq<Report>, fate: seq<Option<State>>, pending: seq<nat>, f: Fetching)
    requires FetchStopped(before, after, fate, pending, f)
    ensures !IsComplete(after, fate)
  {
    assert fate[pending[f.next]] == Option.None && !after[pending[f.next]].outcome.AlreadyCurrent?;
  }

  /** A speech part that used nothing, for what it needed was not all there. */
  lemma UnusedSpeech(
      reports: seq<Report>, fate: seq<Option<State>>, video: bool, tools: bool, cancelled: bool,
      passes: set<seq<nat>>, units: seq<seq<nat>>)
    requires |reports| == |fate| && NoneActive(fate) && NoneKept(fate) && !IsComplete(reports, fate)
    ensures SpeechRule(reports, fate, video, tools, cancelled) && PassedTogether(fate, passes, units)
  {
  }

  /** A speech part that needed nothing. */
  lemma IdleSpeech(
      actions: seq<Action>, reports: seq<Report>, fate: seq<Option<State>>, pending: seq<nat>,
      selected: map<Component, nat>, video: bool, tools: bool, cancelled: bool, passes: set<seq<nat>>,
      units: seq<seq<nat>>)
    requires Ascending(pending) && Waiting(actions, reports, pending, selected) && |pending| == 0
    requires |fate| == |actions| && forall i :: 0 <= i < |fate| && i !in pending ==> fate[i] == Option.None
    ensures Over(actions, reports, fate, pending, selected) && AllGood(reports)
    ensures SpeechRule(reports, fate, video, tools, cancelled) && PassedTogether(fate, passes, units)
  {
    WhenNothingPending(actions, reports, fate, pending, selected);
  }

  lemma WaitingIsTold(part: Part, pending: seq<nat>, f: Fetching, selected: map<Component, nat>)
    requires Waiting(part.actions, part.reports, pending, selected) && part.Fetched(pending, f)
    ensures part.Faithful()
  {
    forall i | 0 <= i < |part.reports| ensures Tells(part.reports[i], part.made.fate[i]) {
      if i in pending {
        var k :| 0 <= k < |pending| && pending[k] == i;
        assert k < f.next || f.next <= k;
      }
    }
  }

  /** Marks a part, which nothing has been downloaded for. */
  method Mark(inst: Installer, part: Part) returns (pending: seq<nat>)
    requires part.Untouched()
    modifies part`reports
    ensures Ascending(pending) && Waiting(part.actions, part.reports, pending, inst.Selected())
      && part.Fetched(pending, START)
    ensures AllSelected(part.actions, inst.Selected()) ==> pending == []
  {
    pending := part.MarkCurrent(inst);
    assert pending != [] ==> pending[0] in pending && !IsSelected(part.actions[pending[0]], inst.Selected());
  }

  lemma WaitingIsCaused(
      actions: seq<Action>, reports: seq<Report>, pending: seq<nat>, selected: map<Component, nat>,
      faults: set<nat>, refused: set<seq<nat>>, cancelled: bool)
    requires Waiting(actions, reports, pending, selected)
    ensures Caused(reports, faults, refused, cancelled)
  {
  }

  /** The one fetch that failed has a cause, and nothing else failed. */
  lemma FetchIsCaused(
      before: seq<Report>, after: seq<Report>, pending: seq<nat>, f: Fetching, faults: set<nat>,
      refused: set<seq<nat>>, cancelled: bool)
    requires f.failure.Some? && f.next < |pending| && Caused(before, faults, refused, cancelled)
    requires HasCause(f.failure.value, pending[f.next], faults, refused, cancelled) && |before| == |after|
    requires forall k :: 0 <= k < |pending| ==>
      pending[k] < |after| && after[pending[k]].outcome ==
        if k == f.next then Failed(f.failure.value) else before[pending[k]].outcome
    requires forall i :: 0 <= i < |after| && i !in pending ==> after[i] == before[i]
    ensures Caused(after, faults, refused, cancelled)
  {
    forall i: nat | IsBroken(after, i) ensures HasCause(after[i].outcome.failure, i, faults, refused, cancelled) {
      if i in pending {
        var k :| 0 <= k < |pending| && pending[k] == i;
        if k != f.next { assert IsBroken(before, i); }
      } else {
        assert IsBroken(before, i);
      }
    }
  }

  /** Settles a part's fetches: unless all succeeded, the part is over. */
  method Settle(
      part: Part, pending: seq<nat>, f: Fetching, ghost selected: map<Component, nat>, ghost cancelled: bool)
      returns (all: bool)
    requires Ascending(pending) && Waiting(part.actions, part.reports, pending, selected)
    requires part.Fetched(pending, f) && f.Over(pending) && part.FetchCaused(pending, f, cancelled)
    modifies part`reports, part.made`fate
    ensures Caused(part.reports, part.made.faults, part.made.refused, cancelled)
    ensures all == f.failure.None? && part.Faithful() && NoneActivatedFrom(part.reports, 0)
    ensures Activations(part.actions, part.reports) == []
    ensures all ==> part.reports == old(part.reports) && part.made.fate == old(part.made.fate)
    ensures !all ==> FetchStopped(old(part.reports), part.reports, part.made.fate, pending, f)
    ensures !all ==> Over(part.actions, part.reports, part.made.fate, pending, selected)
    ensures !all ==> SomeBroke(part.reports) && NoneKept(part.made.fate) && NoneActive(part.made.fate)
    ensures !all ==> !IsComplete(part.reports, part.made.fate)
  {
    ghost var before := part.reports;
    WaitingIsTold(part, pending, f, selected);
    all := part.SettleFetch(pending, f);
    NothingActivated(part.actions, part.reports);
    WaitingIsCaused(part.actions, before, pending, selected, part.made.faults, part.made.refused, cancelled);
    if !all {
      FetchIsCaused(before, part.reports, pending, f, part.made.faults, part.made.refused, cancelled);
      WhenNotFetched(part.actions, before, part.reports, part.made.fate, pending, selected);
      NotAllIsThere(before, part.reports, part.made.fate, pending, f);
    }
  }

  /** Settles a part's fetches and installs what they brought. */
  method Finish(
      inst: Installer, part: Part, pending: seq<nat>, f: Fetching, grouping: Grouping,
      ghost selected: map<Component, nat>)
      returns (ok: bool)
    requires Ascending(pending) && Waiting(part.actions, part.reports, pending, selected)
    requires part.Fetched(pending, f) && f.Over(pending) && (f.failure.Some? ==> inst.failed)
    requires part.FetchCaused(pending, f, inst.cancelled)
    modifies part`reports, part.made, inst`cancelled, inst`failed, inst`log
    ensures Caused(part.reports, part.made.faults, part.made.refused, inst.cancelled)
    ensures old(inst.cancelled) ==> inst.cancelled && inst.log == old(inst.log)
    ensures Over(part.actions, part.reports, part.made.fate, pending, selected)
    ensures inst.log == old(inst.log) + Activations(part.actions, part.reports)
    ensures inst.failed == (old(inst.failed) || !ok) && (f.failure.Some? ==> !ok)
    ensures (ok <==> AllGood(part.reports)) && (!ok ==> SomeBroke(part.reports)) && NoneKept(part.made.fate)
    ensures PassedTogether(part.made.fate, part.made.passes, Units(part.actions, pending, grouping))
  {
    ghost var before := part.reports;
    var all := Settle(part, pending, f, selected, inst.cancelled);
    if !all {
      return false;
    }
    ok := part.InstallDownloads(inst, pending, grouping, inst.log);
    WhenInstalled(part.actions, before, part.reports, part.made.fate, pending, selected, ok);
  }

  ghost predicate NoneKept(fate: seq<Option<State>>) {
    forall i :: 0 <= i < |fate| ==> fate[i] != Some(Kept) && fate[i] != Some(Unkept)
  }

  ghost predicate NoneActive(fate: seq<Option<State>>) {
    forall i :: 0 <= i < |fate| ==> !IsActive(fate, i)
  }

  predicate IsSpeech(c: Component) { c == WhisperCli || c == WhisperModel }

  /** Where the speech part begins. */
  function SpeechFrom(core: seq<Action>): (n: nat)
    ensures n <= |core| && (n < |core| ==> IsSpeech(core[n].component))
    ensures forall i :: 0 <= i < n ==> !IsSpeech(core[i].component)
  {
    if core == [] || IsSpeech(core[0].component) then 0 else 1 + SpeechFrom(core[1..])
  }

  /** Every download was kept for the next run, or was to be and could not; none of them failed. */
  ghost predicate AllSetAside(reports: seq<Report>, fate: seq<Option<State>>)
    requires |reports| == |fate|
  {
    forall i :: 0 <= i < |fate| && fate[i].Some? ==> fate[i].value in {Kept, Unkept} && reports[i].outcome == BLOCKED
  }

  /** Every download was discarded because the caller cancelled. */
  ghost predicate AllGivenUp(reports: seq<Report>, fate: seq<Option<State>>)
    requires |reports| == |fate|
  {
    forall i :: 0 <= i < |fate| && fate[i].Some? ==> fate[i].value == Thrown && reports[i].outcome == Failed(CANCELLED)
  }

  /** Everything the part needs is there: downloaded, or current before. */
  ghost predicate IsComplete(reports: seq<Report>, fate: seq<Option<State>>)
    requires |reports| == |fate|
  {
    forall i :: 0 <= i < |fate| ==> fate[i].Some? || reports[i].outcome.AlreadyCurrent?
  }

  /** Keeps what speech has downloaded for the next run, or fails it once the caller cancelled. */
  method PutAside(inst: Installer, speech: Part, pending: seq<nat>, ghost selected: map<Component, nat>)
    requires speech.Faithful() && Ascending(pending) && Waiting(speech.actions, speech.reports, pending, selected)
    requires Are(speech.made.fate, pending, 0, |pending|, Held) && pending != [] && inst.failed
    requires forall i :: 0 <= i < |speech.made.fate| && i !in pending ==> speech.made.fate[i] == Option.None
    modifies speech`reports, speech.made`fate, inst`cancelled, inst`failed
    ensures Caused(speech.reports, speech.made.faults, speech.made.refused, inst.cancelled)
    ensures old(inst.cancelled) ==> inst.cancelled
    ensures Over(speech.actions, speech.reports, speech.made.fate, pending, selected)
    ensures Activations(speech.actions, speech.reports) == [] && inst.failed && !AllGood(speech.reports)
    ensures IsComplete(speech.reports, speech.made.fate)
    ensures NoneActive(speech.made.fate)
    ensures if inst.cancelled then AllGivenUp(speech.reports, speech.made.fate)
      else AllSetAside(speech.reports, speech.made.fate)
  {
    ghost var before := speech.reports;
    var cancelled := inst.IsCancelled();
    WaitingIsCaused(speech.actions, before, pending, selected, speech.made.faults, speech.made.refused, cancelled);
    if cancelled {
      speech.FailDownloads(pending, CANCELLED);
      CausesAdded(before, speech.reports, pending, CANCELLED, speech.made.faults, speech.made.refused, cancelled);
    } else {
      speech.KeepDownloads(pending);
      CausesStay(before, speech.reports, speech.made.faults, speech.made.refused, cancelled,
        speech.made.faults, speech.made.refused, cancelled);
    }
    WhenNotUsed(speech.actions, before, speech.reports, speech.made.fate, pending, selected);
  }

  /** The speech part once its downloads are complete and the video part is over: when video
      failed and no working video tools are selected, they are put aside. */
  method UseSpeech(inst: Installer, speech: Part, pending: seq<nat>, video: bool, ghost selected: map<Component, nat>)
      returns (ok: bool)
    requires speech.Faithful() && Ascending(pending) && Waiting(speech.actions, speech.reports, pending, selected)
    requires Are(speech.made.fate, pending, 0, |pending|, Held) && (!video ==> inst.failed) && pending != []
    requires forall i :: 0 <= i < |speech.made.fate| && i !in pending ==> speech.made.fate[i] == Option.None
    modifies speech`reports, speech.made, inst`cancelled, inst`failed, inst`log, inst`tools
    ensures Caused(speech.reports, speech.made.faults, speech.made.refused, inst.cancelled)
    ensures old(inst.cancelled) ==> inst.cancelled && inst.log == old(inst.log)
    ensures Over(speech.actions, speech.reports, speech.made.fate, pending, selected)
    ensures inst.log == old(inst.log) + Activations(speech.actions, speech.reports)
    ensures inst.failed == (old(inst.failed) || !ok)
    ensures ok <==> video && AllGood(speech.reports)
    ensures video && !ok ==> SomeBroke(speech.reports)
    ensures SpeechRule(speech.reports, speech.made.fate, video, inst.tools, inst.cancelled)
    ensures PassedTogether(speech.made.fate, speech.made.passes, Units(speech.actions, pending, Core))
  {
    ghost var before := speech.reports;
    WaitingIsCaused(
      speech.actions, before, pending, selected, speech.made.faults, speech.made.refused, inst.cancelled);
    if !video {
      var tools := inst.HasMediaTools();
      if !tools {
        PutAside(inst, speech, pending, selected);
        return false;
      }
    }
    NothingActivated(speech.actions, speech.reports);
    ok := speech.InstallDownloads(inst, pending, Core, inst.log);
    WhenInstalled(speech.actions, before, speech.reports, speech.made.fate, pending, selected, ok);
    ok := ok && video;
  }

  /** Speech is activated only beside video that works. When there is none, and all that speech needs
      was downloaded, every download is kept for the next run, or given up if the caller cancelled; in
      no other case is one kept. */
  ghost predicate SpeechRule(
      reports: seq<Report>, fate: seq<Option<State>>, video: bool, tools: bool, cancelled: bool)
    requires |reports| == |fate|
  {
    && (NoneActive(fate) || video || tools)
    && if video || tools || !IsComplete(reports, fate) then NoneKept(fate)
       else if cancelled then AllGivenUp(reports, fate)
       else AllSetAside(reports, fate)
  }

  lemma WhenNothingPending(
      actions: seq<Action>, reports: seq<Report>, fate: seq<Option<State>>, pending: seq<nat>,
      selected: map<Component, nat>)
    requires Ascending(pending) && Waiting(actions, reports, pending, selected) && |pending| == 0
    requires |fate| == |actions| && forall i :: 0 <= i < |fate| && i !in pending ==> fate[i] == Option.None
    ensures Over(actions, reports, fate, pending, selected) && AllGood(reports)
    ensures NoneActive(fate) && forall i :: 0 <= i < |fate| ==> fate[i] == Option.None
  {
  }

  method FinishSpeech(
      inst: Installer, speech: Part, pending: seq<nat>, g: Fetching, video: bool, ghost selected: map<Component, nat>)
      returns (ok: bool)
    requires Ascending(pending) && Waiting(speech.actions, speech.reports, pending, selected)
    requires speech.Fetched(pending, g) && g.Over(pending)
      && (g.failure.Some? ==> inst.failed) && (!video ==> inst.failed)
    requires speech.FetchCaused(pending, g, inst.cancelled)
    modifies speech`reports, speech.made, inst`cancelled, inst`failed, inst`log, inst`tools
    ensures Caused(speech.reports, speech.made.faults, speech.made.refused, inst.cancelled)
    ensures old(inst.cancelled) ==> inst.cancelled && inst.log == old(inst.log)
    ensures Over(speech.actions, speech.reports, speech.made.fate, pending, selected)
    ensures inst.log == old(inst.log) + Activations(speech.actions, speech.reports)
    ensures inst.failed == (old(inst.failed) || !ok) && (g.failure.Some? ==> !ok)
    ensures ok <==> video && AllGood(speech.reports)
    ensures video && !ok ==> SomeBroke(speech.reports)
    ensures SpeechRule(speech.reports, speech.made.fate, video, inst.tools, inst.cancelled)
    ensures PassedTogether(speech.made.fate, speech.made.passes, Units(speech.actions, pending, Core))
  {
    ghost var before := speech.reports;
    var all := Settle(speech, pending, g, selected, inst.cancelled);
    ghost var units := Units(speech.actions, pending, Core);
    if !all {
      UnusedSpeech(
        speech.reports, speech.made.fate, video, inst.tools, inst.cancelled, speech.made.passes, units);
      return false;
    }
    if |pending| == 0 {
      IdleSpeech(speech.actions, before, speech.made.fate, pending, selected, video, inst.tools, inst.cancelled,
        speech.made.passes, units);
      return video;
    }
    ok := UseSpeech(inst, speech, pending, video, selected);
  }

  lemma JoinedTold(
      a1: seq<Action>, r1: seq<Report>, f1: seq<Option<State>>, a2: seq<Action>, r2: seq<Report>,
      f2: seq<Option<State>>)
    requires Told(a1, r1, f1) && AllSettled(f1) && Told(a2, r2, f2) && AllSettled(f2)
    ensures Told(a1 + a2, r1 + r2, f1 + f2) && AllSettled(f1 + f2)
  {
    var a, r, f, n := a1 + a2, r1 + r2, f1 + f2, |r1|;
    forall i | 0 <= i < |r| ensures Names(r[i], a[i]) && Tells(r[i], f[i]) {
      if i < n {
        assert r[i] == r1[i] && a[i] == a1[i] && f[i] == f1[i];
      } else {
        assert r[i] == r2[i - n] && a[i] == a2[i - n] && f[i] == f2[i - n];
      }
    }
  }

  lemma JoinedOutcomes(r1: seq<Report>, r2: seq<Report>)
    ensures AllGood(r1 + r2) <==> AllGood(r1) && AllGood(r2)
    ensures SomeBroke(r1) || SomeBroke(r2) ==> SomeBroke(r1 + r2)
  {
    assert forall i :: 0 <= i < |r1| ==> (r1 + r2)[i] == r1[i];
    assert forall i :: 0 <= i < |r2| ==> (r1 + r2)[|r1| + i] == r2[i];
  }

  lemma JoinedCurrent(a1: seq<Action>, r1: seq<Report>, a2: seq<Action>, r2: seq<Report>, selected: map<Component, nat>)
    requires CurrentAsIn(a1, r1, selected) && CurrentAsIn(a2, r2, selected)
    ensures CurrentAsIn(a1 + a2, r1 + r2, selected)
  {
    var a, r, n := a1 + a2, r1 + r2, |r1|;
    forall i | 0 <= i < |a| ensures r[i].outcome.AlreadyCurrent? <==> IsSelected(a[i], selected) {
      if i < n {
        assert r[i] == r1[i] && a[i] == a1[i];
      } else {
        assert r[i] == r2[i - n] && a[i] == a2[i - n];
      }
    }
  }

  ghost predicate AllSelected(actions: seq<Action>, selected: map<Component, nat>) {
    forall i :: 0 <= i < |actions| ==> IsSelected(actions[i], selected)
  }

  /** What holds between the core's two parts once both are over. */
  ghost predicate PartsAgree(reports: seq<Report>, fate: seq<Option<State>>, split: nat, tools: bool, cancelled: bool)
    requires split <= |fate| == |reports|
  {
    && NoneKept(fate[..split])
    && SpeechRule(reports[split..], fate[split..], AllGood(reports[..split]), tools, cancelled)
  }

  /** What a finished core says, of itself alone: there is no optional list here, whose groups come
      after it. No download is left open and every report tells what became of its own; each part is
      whole; the parts agree. */
  ghost predicate CoreEnded(
      core: seq<Action>, reports: seq<Report>, fate: seq<Option<State>>, parts: seq<PartEnd>, tools: bool,
      cancelled: bool) {
    && Told(core, reports, fate) && AllSettled(fate) && MadeOf(parts, Core, core, reports, fate)
    && (AllGood(reports) || SomeBroke(reports))
    && PartsAgree(reports, fate, SpeechFrom(core), tools, cancelled)
  }

  /** Marks both parts and fetches what they need side by side. */
  method MarkAndFetch(inst: Installer, video: Part, speech: Part)
      returns (ones: seq<nat>, f: Fetching, twos: seq<nat>, g: Fetching)
    requires video != speech && video.made != speech.made && video.Untouched() && speech.Untouched()
    modifies inst`cancelled, inst`failed, inst`downloads, video`reports, video.made`fate, video.made`faults,
      speech`reports, speech.made`fate, speech.made`faults
    ensures video.FetchCaused(ones, f, inst.cancelled) && speech.FetchCaused(twos, g, inst.cancelled)
    ensures old(inst.cancelled) ==> inst.cancelled && inst.downloads == old(inst.downloads)
    ensures Ascending(ones) && Waiting(video.actions, video.reports, ones, inst.Selected())
      && video.Fetched(ones, f) && f.Over(ones)
    ensures Ascending(twos) && Waiting(speech.actions, speech.reports, twos, inst.Selected())
      && speech.Fetched(twos, g) && g.Over(twos)
    ensures inst.failed == (old(inst.failed) || f.failure.Some? || g.failure.Some?)
    ensures AllSelected(video.actions, inst.Selected()) && AllSelected(speech.actions, inst.Selected()) ==>
      inst.downloads == old(inst.downloads)
  {
    ones := Mark(inst, video);
    twos := Mark(inst, speech);
    f, g := FetchBoth(inst, video, ones, speech, twos);
  }

  /** Marks both parts, fetches for both, and installs the video part. */
  method InstallVideo(inst: Installer, video: Part, speech: Part)
    returns (first: bool, ghost ones: seq<nat>, twos: seq<nat>, g: Fetching)
    requires video != speech && video.made != speech.made && video.Untouched() && speech.Untouched()
    modifies inst, video`reports, video.made, speech`reports, speech.made`fate, speech.made`faults
    ensures Caused(video.reports, video.made.faults, video.made.refused, inst.cancelled)
    ensures speech.FetchCaused(twos, g, inst.cancelled)
    ensures old(inst.cancelled) ==>
      inst.cancelled && inst.log == old(inst.log) && inst.downloads == old(inst.downloads)
    ensures Over(video.actions, video.reports, video.made.fate, ones, old(inst.Selected()))
    ensures PassedTogether(video.made.fate, video.made.passes, Units(video.actions, ones, Core))
    ensures Ascending(twos) && Waiting(speech.actions, speech.reports, twos, old(inst.Selected()))
    ensures speech.Fetched(twos, g) && g.Over(twos) && (g.failure.Some? || !first ==> inst.failed)
    ensures inst.log == old(inst.log) + Activations(video.actions, video.reports)
    ensures inst.failed == (old(inst.failed) || g.failure.Some? || !first)
    ensures (first <==> AllGood(video.reports)) && (!first ==> SomeBroke(video.reports)) && NoneKept(video.made.fate)
    ensures AllSelected(video.actions, old(inst.Selected())) && AllSelected(speech.actions, old(inst.Selected())) ==>
      inst.downloads == old(inst.downloads)
  {
    ghost var selected := inst.Selected();
    var pending, f;
    pending, f, twos, g := MarkAndFetch(inst, video, speech);
    ones := pending;
    first := Finish(inst, video, pending, f, Core, selected);
  }

  /** Installs the core's video and speech parts. */
  method InstallParts(inst: Installer, video: Part, speech: Part)
    returns (first: bool, ok: bool, ghost ones: seq<nat>, ghost twos: seq<nat>)
    requires video != speech && video.made != speech.made && video.Untouched() && speech.Untouched()
    modifies inst, video`reports, video.made, speech`reports, speech.made
    ensures Caused(video.reports, video.made.faults, video.made.refused, inst.cancelled)
    ensures Caused(speech.reports, speech.made.faults, speech.made.refused, inst.cancelled)
    ensures old(inst.cancelled) ==>
      inst.cancelled && inst.log == old(inst.log) && inst.downloads == old(inst.downloads)
    ensures Over(video.actions, video.reports, video.made.fate, ones, old(inst.Selected()))
    ensures PassedTogether(video.made.fate, video.made.passes, Units(video.actions, ones, Core))
    ensures Over(speech.actions, speech.reports, speech.made.fate, twos, old(inst.Selected()))
    ensures PassedTogether(speech.made.fate, speech.made.passes, Units(speech.actions, twos, Core))
    ensures inst.log
      == old(inst.log) + (Activations(video.actions, video.reports) + Activations(speech.actions, speech.reports))
    ensures inst.failed == (old(inst.failed) || !ok)
    ensures (first <==> AllGood(video.reports)) && (ok <==> first && AllGood(speech.reports))
    ensures !ok ==> SomeBroke(video.reports) || SomeBroke(speech.reports)
    ensures NoneKept(video.made.fate) && SpeechRule(speech.reports, speech.made.fate, first, inst.tools, inst.cancelled)
    ensures AllSelected(video.actions, old(inst.Selected())) && AllSelected(speech.actions, old(inst.Selected())) ==>
      inst.downloads == old(inst.downloads)
  {
    ghost var selected := inst.Selected();
    var pending, g;
    first, ones, pending, g := InstallVideo(inst, video, speech);
    twos := pending;
    ghost var done := Activations(video.actions, video.reports);
    ghost var cancelled := inst.cancelled;
    ok := FinishSpeech(inst, speech, pending, g, first, selected);
    CausesStay(video.reports, video.reports, video.made.faults, video.made.refused, cancelled,
      video.made.faults, video.made.refused, inst.cancelled);
    Regrouped(old(inst.log), done, Activations(speech.actions, speech.reports));
  }

  ghost function EndOf(part: Part, pending: seq<nat>, cancelled: bool, grouping: Grouping): PartEnd
    reads part, part.made
  {
    PartEnd(part.actions, part.reports, part.made.fate, pending, part.made.passes, part.made.faults,
      part.made.refused, cancelled, grouping)
  }

  lemma TwoParts(a: PartEnd, b: PartEnd) returns (parts: seq<PartEnd>)
    requires Whole(a) && Whole(b) && a.grouping == b.grouping == Core && a.cancelled == b.cancelled
    ensures CancelledIn(parts, a.cancelled)
    ensures MadeOf(parts, Core, a.actions + b.actions, a.reports + b.reports, a.fate + b.fate)
  {
    assert [] + a.actions == a.actions && [] + a.reports == a.reports && [] + a.fate == a.fate;
    OneMorePart([], Core, [], [], [], a);
    assert [] + [a] == [a];
    OneMorePart([a], Core, a.actions, a.reports, a.fate, b);
    parts := [a] + [b];
  }

  /** Installs the core's video and speech parts; true when every core component is active. */
  method InstallCore(inst: Installer, core: seq<Action>)
    returns (reports: seq<Report>, ok: bool, ghost fate: seq<Option<State>>, ghost parts: seq<PartEnd>)
    modifies inst
    ensures old(inst.cancelled) ==>
      inst.cancelled && inst.log == old(inst.log) && inst.downloads == old(inst.downloads)
    ensures Told(core, reports, fate) && AllSettled(fate) && CurrentAsIn(core, reports, old(inst.Selected()))
    ensures inst.log == old(inst.log) + Activations(core, reports)
    ensures inst.failed == (old(inst.failed) || !ok)
    ensures ok <==> AllGood(reports)
    ensures !ok ==> SomeBroke(reports)
    ensures PartsAgree(reports, fate, SpeechFrom(core), inst.tools, inst.cancelled)
    ensures MadeOf(parts, Core, core, reports, fate) && CancelledIn(parts, inst.cancelled)
    ensures AllSelected(core, old(inst.Selected())) ==> inst.downloads == old(inst.downloads)
  {
    var split := SpeechFrom(core);
    SplitSelected(core, split, inst.Selected());
    var video := new Part(core[..split]);
    var speech := new Part(core[split..]);
    var first;
    ghost var ones, twos;
    first, ok, ones, twos := InstallParts(inst, video, speech);
    reports := video.reports + speech.reports;
    fate := video.made.fate + speech.made.fate;
    ghost var a, b := EndOf(video, ones, inst.cancelled, Core), EndOf(speech, twos, inst.cancelled, Core);
    parts := CoreIsMade(core, a, b, reports, fate, old(inst.Selected()), inst.tools, inst.cancelled);
  }

  lemma SplitSelected(actions: seq<Action>, n: nat, selected: map<Component, nat>)
    requires n <= |actions|
    ensures AllSelected(actions, selected) ==>
      AllSelected(actions[..n], selected) && AllSelected(actions[n..], selected)
  {
  }

  lemma JoinedAgree(
      r1: seq<Report>, f1: seq<Option<State>>, r2: seq<Report>, f2: seq<Option<State>>, tools: bool, cancelled: bool)
    requires |r1| == |f1| && |r2| == |f2|
    requires NoneKept(f1) && SpeechRule(r2, f2, AllGood(r1), tools, cancelled)
    ensures PartsAgree(r1 + r2, f1 + f2, |r1|, tools, cancelled)
  {
    assert (r1 + r2)[..|r1|] == r1 && (r1 + r2)[|r1|..] == r2;
    assert (f1 + f2)[..|r1|] == f1 && (f1 + f2)[|r1|..] == f2;
  }

  /** Two parts side by side, each over and told. */
  lemma JoinedEnds(a: PartEnd, b: PartEnd, selected: map<Component, nat>)
    requires Over(a.actions, a.reports, a.fate, a.pending, selected)
    requires Over(b.actions, b.reports, b.fate, b.pending, selected)
    ensures var actions, reports, fate := a.actions + b.actions, a.reports + b.reports, a.fate + b.fate;
      && Told(actions, reports, fate) && AllSettled(fate) && CurrentAsIn(actions, reports, selected)
      && Activations(actions, reports) == Activations(a.actions, a.reports) + Activations(b.actions, b.reports)
      && (AllGood(reports) <==> AllGood(a.reports) && AllGood(b.reports))
      && (SomeBroke(a.reports) || SomeBroke(b.reports) ==> SomeBroke(reports))
  {
    JoinedOutcomes(a.reports, b.reports);
    ActivationsJoin(a.actions, a.reports, b.actions, b.reports);
    JoinedTold(a.actions, a.reports, a.fate, b.actions, b.reports, b.fate);
    JoinedCurrent(a.actions, a.reports, b.actions, b.reports, selected);
  }

  /** The core's two parts, one after the other. */
  lemma CoreIsMade(
    core: seq<Action>, a: PartEnd, b: PartEnd, reports: seq<Report>, fate: seq<Option<State>>,
    selected: map<Component, nat>, tools: bool, cancelled: bool)
    returns (parts: seq<PartEnd>)
    requires a.grouping == b.grouping == Core && a.cancelled == b.cancelled == cancelled
    requires PassedTogether(a.fate, a.passes, Units(a.actions, a.pending, Core))
    requires PassedTogether(b.fate, b.passes, Units(b.actions, b.pending, Core))
    requires a.actions == core[..SpeechFrom(core)] && b.actions == core[SpeechFrom(core)..]
    requires Over(a.actions, a.reports, a.fate, a.pending, selected)
    requires Over(b.actions, b.reports, b.fate, b.pending, selected)
    requires Caused(a.reports, a.faults, a.refused, a.cancelled) && Caused(b.reports, b.faults, b.refused, b.cancelled)
    requires NoneKept(a.fate) && SpeechRule(b.reports, b.fate, AllGood(a.reports), tools, cancelled)
    requires reports == a.reports + b.reports && fate == a.fate + b.fate
    ensures
      && Told(core, reports, fate) && AllSettled(fate) && CurrentAsIn(core, reports, selected)
      && PartsAgree(reports, fate, SpeechFrom(core), tools, cancelled) && MadeOf(parts, Core, core, reports, fate)
      && Activations(core, reports) == Activations(a.actions, a.reports) + Activations(b.actions, b.reports)
      && (AllGood(reports) <==> AllGood(a.reports) && AllGood(b.reports))
      && (SomeBroke(a.reports) || SomeBroke(b.reports) ==> SomeBroke(reports))
      && CancelledIn(parts, cancelled)
  {
    parts := TwoParts(a, b);
    assert core[..SpeechFrom(core)] + core[SpeechFrom(core)..] == core;
    JoinedEnds(a, b, selected);
    JoinedAgree(a.reports, a.fate, b.reports, b.fate, tools, cancelled);
  }
}
