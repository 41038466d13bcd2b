/** The managed-install transaction: what the installer can do to a part's downloads. Each action of
    a part is downloaded at most once, so a download is named by its action's index. A download is
    open until exactly one call ends it: activation, keeping, discarding, or the step that failed
    and disposed of it. The steps' preconditions let nothing use a download twice; the contracts of
    the part say that none is left open. */
module Install {
  import opened Basics

  datatype Component = MediaTools | WhisperCli | WhisperModel | JsRuntimeDeno | YtDlp
  datatype Action = Action(component: Component, version: nat)

  datatype Step = Download | Import | Stage | Smoke | Activate
  datatype Reason = Blocked | Cancelled | Artifact | Storage | SmokeFailed
  datatype Failure = Failure(step: Option<Step>, reason: Reason)
  datatype Outcome = Activated | AlreadyCurrent | Failed(failure: Failure) {
    predicate Good() { Activated? || AlreadyCurrent? }
    /** A failure of its own, not one it was blocked by. */
    predicate Broke() { Failed? && failure.reason != Blocked }
  }
  datatype Disposal = Discarded | Retained
  datatype Report = Report(component: Component, version: nat, outcome: Outcome, stage: Option<Disposal>)

  const BLOCKED := Failed(Failure(None, Blocked))
  const CANCELLED := Failure(None, Cancelled)

  /** Where a download is; it ends in one of the last five. One is `Unkept` when it was to be kept and
      could not be. */
  datatype State = Held | Staged | Passed | Active | Kept | Unkept | Thrown | Disposed {
    predicate Open() { Held? || Staged? || Passed? }
    predicate Spent() { Active? || Thrown? || Disposed? }
  }

  // Reports

  function BlockedReport(a: Action): Report { Report(a.component, a.version, BLOCKED, None) }

  function BlockedReports(actions: seq<Action>): (reports: seq<Report>)
    ensures |reports| == |actions|
  {
    seq(|actions|, i requires 0 <= i < |actions| => BlockedReport(actions[i]))
  }

  predicate AllGood(reports: seq<Report>) {
    forall i :: 0 <= i < |reports| ==> reports[i].outcome.Good()
  }

  predicate SomeBroke(reports: seq<Report>) {
    exists i :: 0 <= i < |reports| && reports[i].outcome.Broke()
  }

  /** What a report says when its download is in the given state; `None` when there was none. */
  predicate Tells(r: Report, s: Option<State>) {
    match s
    case None => !r.outcome.Activated?
    case Some(st) =>
      match st
      case Active => r.outcome.Activated? && r.stage.Some?
      case Thrown => r.outcome.Failed? && r.stage.Some?
      case Disposed => r.outcome.Broke()
      case Unkept => r.outcome == BLOCKED && r.stage.Some?
      case _ => r.outcome == BLOCKED && r.stage.None?
  }

  predicate Names(r: Report, a: Action) { r.component == a.component && r.version == a.version }

  /** Every report names its action and tells what became of its download. */
  ghost predicate Told(actions: seq<Action>, reports: seq<Report>, fate: seq<Option<State>>) {
    && |reports| == |fate| == |actions|
    && forall i :: 0 <= i < |reports| ==> Names(reports[i], actions[i]) && Tells(reports[i], fate[i])
  }

  // What the machine has selected

  function Selecting(before: map<Component, nat>, log: seq<Action>): (after: map<Component, nat>)
    ensures before.Keys <= after.Keys
  {
    if log == [] then before
    else
      var last := log[|log| - 1];
      Selecting(before, log[..|log| - 1])[last.component := last.version]
  }

  predicate IsSelected(a: Action, selected: map<Component, nat>) {
    a.component in selected && selected[a.component] == a.version
  }

  /** The actions reported activated, in plan order. */
  function Activations(actions: seq<Action>, reports: seq<Report>): (done: seq<Action>)
    requires |actions| == |reports|
    decreases |reports|
  {
    if reports == [] then []
    else
      var n := |reports| - 1;
      Activations(actions[..n], reports[..n]) + (if reports[n].outcome.Activated? then [actions[n]] else [])
  }

  lemma {:induction false} SameActivations(actions: seq<Action>, before: seq<Report>, after: seq<Report>)
    requires |actions| == |before| == |after|
    requires forall i :: 0 <= i < |before| ==> (before[i].outcome.Activated? <==> after[i].outcome.Activated?)
    ensures Activations(actions, before) == Activations(actions, after)
    decreases |actions|
  {
    if before != [] {
      var n := |before| - 1;
      SameActivations(actions[..n], before[..n], after[..n]);
    }
  }

  lemma {:induction false} OneMoreActivation(actions: seq<Action>, before: seq<Report>, i: nat, r: Report)
    requires |actions| == |before| && i < |before| && r.outcome.Activated?
    requires forall j :: i <= j < |before| ==> !before[j].outcome.Activated?
    ensures Activations(actions, before[i := r]) == Activations(actions, before) + [actions[i]]
    decreases |actions|
  {
    var n := |before| - 1;
    var after := before[i := r];
    if i == n {
      assert after[..n] == before[..n];
    } else {
      OneMoreActivation(actions[..n], before[..n], i, r);
      assert after[..n] == before[..n][i := r];
    }
  }

  lemma {:induction false} NothingActivated(actions: seq<Action>, reports: seq<Report>)
    requires |actions| == |reports|
    requires forall i :: 0 <= i < |reports| ==> !reports[i].outcome.Activated?
    ensures Activations(actions, reports) == []
    decreases |actions|
  {
    if reports != [] {
      NothingActivated(actions[..|actions| - 1], reports[..|actions| - 1]);
    }
  }

  lemma {:induction false} ActivationsJoin(a1: seq<Action>, r1: seq<Report>, a2: seq<Action>, r2: seq<Report>)
    requires |a1| == |r1| && |a2| == |r2|
    ensures Activations(a1 + a2, r1 + r2) == Activations(a1, r1) + Activations(a2, r2)
    decreases |a2|
  {
    if r2 == [] {
      assert a1 + a2 == a1 && r1 + r2 == r1;
    } else {
      var n := |r2| - 1;
      ActivationsJoin(a1, r1, a2[..n], r2[..n]);
      assert (a1 + a2)[..|a1| + n] == a1 + a2[..n] && (r1 + r2)[..|a1| + n] == r1 + r2[..n];
    }
  }

  // What the transaction cannot see into

  datatype Verdict = Done(disposal: Disposal) | Broke(failure: Failure, stage: Option<Disposal>)

  /** Any step may fail at any time, and the caller may cancel at any time; cancelling stays. */
  class Installer {
    const before: map<Component, nat>
    /** What has been activated, in order. */
    var log: seq<Action>
    var cancelled: bool
    /** Whether the video tools were found working when last asked for. */
    var tools: bool
    /** Whether any step failed, or the caller was seen to have cancelled. */
    var failed: bool
    /** How many downloads were tried. */
    var downloads: nat

    constructor (selected: map<Component, nat>)
      ensures before == selected && log == [] && !failed && downloads == 0
    {
      before, log, downloads := selected, [], 0;
      cancelled, tools, failed := false, false, false;
    }

    function Selected(): map<Component, nat>
      reads this`log
    {
      Selecting(before, log)
    }

    predicate IsCurrent(a: Action)
      reads this`log
    {
      IsSelected(a, Selected())
    }

    method IsCancelled() returns (yes: bool)
      modifies this`cancelled, this`failed
      ensures old(cancelled) ==> yes
      ensures cancelled == yes && failed == (old(failed) || yes)
    {
      var now := *;
      cancelled := cancelled || now;
      yes := cancelled;
      failed := failed || yes;
    }

    method HasMediaTools() returns (has: bool)
      modifies this`tools
      ensures tools == has
    {
      tools := *;
      has := tools;
    }
  }

  // Why a component failed

  const SMOKE_FAILED := Failure(Some(Smoke), SmokeFailed)

  /** A step of its own failed, or a smoke that it was in, or the caller cancelled. */
  ghost predicate HasCause(failure: Failure, i: nat, faults: set<nat>, refused: set<seq<nat>>, cancelled: bool) {
    || i in faults
    || (failure == CANCELLED && cancelled)
    || (failure == SMOKE_FAILED && exists unit :: unit in refused && i in unit)
  }

  ghost predicate IsBroken(reports: seq<Report>, i: nat) { i < |reports| && reports[i].outcome.Broke() }

  /** No component is reported as failed, other than blocked, without a cause. */
  ghost predicate Caused(reports: seq<Report>, faults: set<nat>, refused: set<seq<nat>>, cancelled: bool) {
    forall i: nat :: IsBroken(reports, i) ==>
      HasCause(reports[i].outcome.failure, i, faults, refused, cancelled)
  }

  /** The downloads made for one part, by action; the smokes that passed over them; and what failed:
      the actions that had a step fail, and the units that a smoke refused. */
  class Downloads {
    var fate: seq<Option<State>>
    var passes: set<seq<nat>>
    var faults: set<nat>
    var refused: set<seq<nat>>

    constructor (actions: nat)
      ensures fate == seq(actions, i => None) && passes == {} && faults == {} && refused == {}
    {
      fate, passes, faults, refused := seq(actions, i => None), {}, {}, {};
    }

    ghost predicate Is(i: nat, st: State)
      reads this`fate
    {
      i < |fate| && fate[i] == Some(st)
    }

    method Fetch(inst: Installer, i: nat) returns (verdict: Verdict)
      requires i < |fate| && fate[i] == None
      modifies this`fate, this`faults, inst`failed, inst`downloads
      ensures faults == if verdict.Broke? then old(faults) + {i} else old(faults)
      ensures fate == if verdict.Done? then old(fate)[i := Some(Held)] else old(fate)
      ensures inst.failed == (old(inst.failed) || verdict.Broke?) && inst.downloads == old(inst.downloads) + 1
      ensures verdict.Broke? ==> verdict.failure.reason != Blocked
    {
      inst.downloads := inst.downloads + 1;
      if * {
        fate := fate[i := Some(Held)];
        return Done(Discarded);
      }
      inst.failed, faults := true, faults + {i};
      var stage := *;
      return Verdict.Broke(Failure(Some(Download), Artifact), stage);
    }

    /** Unpacks a download; a failure disposes of it. */
    method Unpack(inst: Installer, i: nat) returns (verdict: Verdict)
      requires Is(i, Held)
      modifies this`fate, this`faults, inst`failed
      ensures faults == if verdict.Broke? then old(faults) + {i} else old(faults)
      ensures fate == old(fate)[i := Some(if verdict.Done? then Staged else Disposed)]
      ensures inst.failed == (old(inst.failed) || verdict.Broke?)
      ensures verdict.Broke? ==> verdict.failure.reason != Blocked
    {
      if * {
        fate := fate[i := Some(Staged)];
        return Done(Discarded);
      }
      fate, faults, inst.failed := fate[i := Some(Disposed)], faults + {i}, true;
      var stage := *;
      return Verdict.Broke(Failure(Some(Stage), Artifact), stage);
    }

    /** Smokes candidates together; they pass together or not at all. */
    method RunSmoke(inst: Installer, unit: seq<nat>) returns (ok: bool)
      requires forall k :: 0 <= k < |unit| ==> Is(unit[k], Staged)
      modifies this`fate, this`passes, this`refused, inst`failed
      ensures refused == if ok then old(refused) else old(refused) + {unit}
      ensures inst.failed == (old(inst.failed) || !ok) && |fate| == |old(fate)|
      ensures passes == if ok then old(passes) + {unit} else old(passes)
      ensures forall i :: 0 <= i < |fate| ==> fate[i] == if ok && i in unit then Some(Passed) else old(fate)[i]
    {
      ok := *;
      if ok {
        fate := seq(|fate|, i requires 0 <= i < |fate| reads this`fate => if i in unit then Some(Passed) else fate[i]);
        passes := passes + {unit};
      } else {
        refused := refused + {unit};
      }
      inst.failed := inst.failed || !ok;
    }

    /** Publishes and selects a candidate that passed its smoke; a failure disposes of it. */
    method Publish(inst: Installer, i: nat, a: Action) returns (verdict: Verdict)
      requires Is(i, Passed)
      modifies this`fate, this`faults, inst`failed, inst`log
      ensures faults == if verdict.Broke? then old(faults) + {i} else old(faults)
      ensures fate == old(fate)[i := Some(if verdict.Done? then Active else Disposed)]
      ensures inst.failed == (old(inst.failed) || verdict.Broke?)
      ensures inst.log == if verdict.Done? then old(inst.log) + [a] else old(inst.log)
      ensures verdict.Broke? ==> verdict.failure.reason != Blocked
    {
      if * {
        fate, inst.log := fate[i := Some(Active)], inst.log + [a];
        return Done(Discarded);
      }
      fate, faults, inst.failed := fate[i := Some(Disposed)], faults + {i}, true;
      var disposal := *;
      return Verdict.Broke(Failure(Some(Activate), Storage), Some(disposal));
    }

    method Discard(i: nat) returns (disposal: Disposal)
      requires i < |fate| && fate[i].Some? && fate[i].value.Open()
      modifies this`fate
      ensures fate == old(fate)[i := Some(Thrown)]
    {
      fate := fate[i := Some(Thrown)];
      disposal := *;
    }

    /** Keeps a download for the next run; one that cannot be kept is discarded. */
    method Keep(i: nat) returns (disposal: Option<Disposal>)
      requires Is(i, Held)
      modifies this`fate
      ensures fate == old(fate)[i := Some(if disposal.None? then Kept else Unkept)]
    {
      disposal := *;
      fate := fate[i := Some(if disposal.None? then Kept else Unkept)];
    }
  }
}
