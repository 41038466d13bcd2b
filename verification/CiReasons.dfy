/** Why the gate runs what it runs: every part of a selection, told from the changed paths. */
module CiReasons {
  import opened Basics
  import opened CiLanes
  import opened CiSelection

  // What holds a path

  ghost predicate HeldBy(packages: seq<Package>, path: string, k: nat) {
    k < |packages| && packages[k].directory <= path
  }

  /** Package `k` holds the path in its own folder: no longer folder holds it, and of equal ones `k` comes first. */
  ghost predicate Owns(packages: seq<Package>, path: string, k: nat) {
    && HeldBy(packages, path, k)
    && forall j: nat :: HeldBy(packages, path, j) ==>
        |packages[j].directory| < |packages[k].directory|
        || (|packages[j].directory| == |packages[k].directory| && k <= j)
  }

  ghost predicate IsOwned(s: Setting, path: string) { exists k: nat :: HeldBy(s.packages, path, k) }

  ghost predicate Covers(s: Setting, path: string, i: nat) {
    i < |s.rules.shared| && s.rules.shared[i].prefix <= path
  }

  /** A build-wide file, or a manifest or build script of a package. */
  ghost predicate IsWide(s: Setting, path: string) {
    s.rules.buildWide(path) || (IsOwned(s, path) && s.rules.manifest(path))
  }

  /** Neither in a package nor a fuzz target, not a shared input and not a document. */
  ghost predicate NoRuleCovers(s: Setting, path: string) {
    !IsOwned(s, path) && !s.rules.fuzz(path) && !s.rules.document(path) && forall i: nat :: !Covers(s, path, i)
  }

  // What a path asks for, unless it is build-wide

  ghost predicate AsksFuzz(s: Setting, path: string) {
    s.rules.fuzz(path) || exists i: nat :: Covers(s, path, i) && s.rules.shared[i].fuzz
  }

  ghost predicate AsksNpm(s: Setting, path: string) {
    exists i: nat :: Covers(s, path, i) && s.rules.shared[i].npm
  }

  ghost predicate AsksPlatform(s: Setting, path: string) {
    s.rules.platform(path) || exists i: nat :: Covers(s, path, i) && s.rules.shared[i].platform
  }

  /** The path's own package, or one that a shared input names. */
  ghost predicate Touches(s: Setting, path: string, name: string) {
    || (exists k: nat :: Owns(s.packages, path, k) && s.packages[k].name == name)
    || exists i: nat :: Covers(s, path, i) && name in s.rules.shared[i].packages
  }

  /** Some changed path that is not build-wide touches the package. */
  ghost predicate IsTouched(s: Setting, changed: seq<string>, name: string) {
    exists p :: p in changed && !IsWide(s, p) && Touches(s, p, name)
  }

  // The owner

  lemma {:induction false} OwnerIsLongest(packages: seq<Package>, path: string)
    ensures match Owner(packages, path)
      case None => forall k: nat :: !HeldBy(packages, path, k)
      case Some(p) => exists k: nat :: Owns(packages, path, k) && packages[k] == p
  {
    if packages != [] {
      var n := |packages| - 1;
      var init, last := packages[..n], packages[n];
      OwnerIsLongest(init, path);
      assert forall k: nat :: HeldBy(packages, path, k) <==>
        HeldBy(init, path, k) || (k == n && last.directory <= path);
      var earlier := Owner(init, path);
      if Owner(packages, path) == Some(last) && (earlier.None? || |last.directory| > |earlier.value.directory|) {
        assert Owns(packages, path, n);
      } else if earlier.Some? {
        var k: nat :| Owns(init, path, k) && init[k] == earlier.value;
        assert Owns(packages, path, k);
      }
    }
  }

  lemma OneOwner(packages: seq<Package>, path: string, k: nat)
    requires Owns(packages, path, k)
    ensures Owner(packages, path) == Some(packages[k])
  {
    OwnerIsLongest(packages, path);
    assert HeldBy(packages, path, k);
    var j: nat :| Owns(packages, path, j) && Some(packages[j]) == Owner(packages, path);
    assert HeldBy(packages, path, j);
    assert j == k;
  }

  // One path

  lemma OneIsOwned(s: Setting, path: string)
    ensures Owner(s.packages, path).Some? <==> IsOwned(s, path)
    ensures WholeBuild(s.rules, s.packages, path) <==> IsWide(s, path)
  {
    OwnerIsLongest(s.packages, path);
  }

  lemma OneIsCovered(s: Setting, path: string)
    ensures IsShared(s.rules, path) <==> exists i: nat :: Covers(s, path, i)
  {
    if i: nat :| Covers(s, path, i) { assert s.rules.shared[i].prefix <= path; }
    if IsShared(s.rules, path) {
      var i :| 0 <= i < |s.rules.shared| && s.rules.shared[i].prefix <= path;
      assert Covers(s, path, i);
    }
  }

  lemma OneAsksForAll(s: Setting, path: string)
    ensures AsksForAll(s.rules, s.packages, path) <==> IsWide(s, path) || NoRuleCovers(s, path)
  {
    OneIsOwned(s, path);
    OneIsCovered(s, path);
  }

  lemma OneAsks(s: Setting, path: string)
    ensures FuzzBy(s.rules, s.packages, path) <==> !IsWide(s, path) && AsksFuzz(s, path)
    ensures NpmBy(s.rules, s.packages, path) <==> !IsWide(s, path) && AsksNpm(s, path)
    ensures PlatformBy(s.rules, s.packages, path) <==> !IsWide(s, path) && AsksPlatform(s, path)
    ensures WorkerBy(s.rules, s.packages, path) <==> !IsWide(s, path) && s.rules.worker(path)
  {
    OneIsOwned(s, path);
    assert forall i: nat :: Covers(s, path, i) <==> i < |s.rules.shared| && s.rules.shared[i].prefix <= path;
  }

  lemma OneTouches(s: Setting, path: string, name: string)
    ensures name in TouchedBy(s.rules, s.packages, path) <==> !IsWide(s, path) && Touches(s, path, name)
  {
    OneIsOwned(s, path);
    assert forall i: nat :: Covers(s, path, i) <==> i < |s.rules.shared| && s.rules.shared[i].prefix <= path;
    if k: nat :| Owns(s.packages, path, k) { OneOwner(s.packages, path, k); }
    OwnerIsLongest(s.packages, path);
  }

  // Every part of a selection

  /** The lane, the checks and the packages of a selection, each told from the changed paths. */
  ghost predicate SelectionTells(s: Setting, changed: seq<string>, sel: Selection) {
    && (sel.lane.Full? <==>
        s.force || s.labelled || changed == []
        || exists p :: p in changed && (IsWide(s, p) || NoRuleCovers(s, p)))
    && (sel.lane.Docs? <==> !sel.lane.Full? && sel.packages == {} && !sel.fuzz && !sel.npm)
    && (sel.fuzz <==>
        (exists p :: p in changed && !IsWide(s, p) && AsksFuzz(s, p))
        || exists name :: name in sel.packages && name in s.fuzzDeps)
    && (sel.npm <==> exists p :: p in changed && !IsWide(s, p) && AsksNpm(s, p))
    && (sel.platform <==> exists p :: p in changed && !IsWide(s, p) && AsksPlatform(s, p))
    && (sel.worker <==> exists p :: p in changed && !IsWide(s, p) && s.rules.worker(p))
    && (sel.codeql <==> s.force || changed == [] || exists p :: p in changed && s.rules.rust(p))
    && (sel.upgrade <==> s.labelled)
  }

  /** A package is selected exactly when it, or one it depends on through any number of others, is
      touched by a changed path. */
  ghost predicate PackagesTell(s: Setting, changed: seq<string>, sel: Selection) {
    forall name :: name in sel.packages <==> IsReached(s, changed, name)
  }

  ghost predicate IsReached(s: Setting, changed: seq<string>, name: string) {
    exists chain :: chain != [] && IsChain(s.packages, chain) && IsTouched(s, changed, chain[0])
      && chain[|chain| - 1] == name
  }

  lemma TouchedTells(s: Setting, changed: seq<string>, name: string)
    ensures name in Touched(s, changed) <==> IsTouched(s, changed, name)
  {
    forall p ensures name in TouchedBy(s.rules, s.packages, p) <==> !IsWide(s, p) && Touches(s, p, name) {
      OneTouches(s, p, name);
    }
  }

  lemma SelectedPackages(s: Setting, changed: seq<string>, sel: Selection)
    requires Selects(s, changed, sel)
    ensures PackagesTell(s, changed, sel)
  {
    forall name ensures name in sel.packages <==> IsReached(s, changed, name) {
      AffectedIsAffected(s.packages, Touched(s, changed), name);
      forall n ensures n in Touched(s, changed) <==> IsTouched(s, changed, n) { TouchedTells(s, changed, n); }
    }
  }

  lemma {:induction false} AllFor(s: Setting, changed: seq<string>)
    ensures FlagsOf(s, changed).all <==> exists p :: p in changed && (IsWide(s, p) || NoRuleCovers(s, p))
    decreases |changed|
  {
    if changed != [] {
      AllFor(s, changed[..|changed| - 1]);
      OneAsksForAll(s, changed[|changed| - 1]);
    }
  }

  lemma {:induction false} FuzzFor(s: Setting, changed: seq<string>)
    ensures FlagsOf(s, changed).fuzz <==> exists p :: p in changed && !IsWide(s, p) && AsksFuzz(s, p)
    decreases |changed|
  {
    if changed != [] {
      FuzzFor(s, changed[..|changed| - 1]);
      OneAsks(s, changed[|changed| - 1]);
    }
  }

  lemma {:induction false} NpmFor(s: Setting, changed: seq<string>)
    ensures FlagsOf(s, changed).npm <==> exists p :: p in changed && !IsWide(s, p) && AsksNpm(s, p)
    decreases |changed|
  {
    if changed != [] {
      NpmFor(s, changed[..|changed| - 1]);
      OneAsks(s, changed[|changed| - 1]);
    }
  }

  lemma {:induction false} PlatformFor(s: Setting, changed: seq<string>)
    ensures FlagsOf(s, changed).platform <==> exists p :: p in changed && !IsWide(s, p) && AsksPlatform(s, p)
    decreases |changed|
  {
    if changed != [] {
      PlatformFor(s, changed[..|changed| - 1]);
      OneAsks(s, changed[|changed| - 1]);
    }
  }

  lemma {:induction false} WorkerFor(s: Setting, changed: seq<string>)
    ensures FlagsOf(s, changed).worker <==> exists p :: p in changed && !IsWide(s, p) && s.rules.worker(p)
    decreases |changed|
  {
    if changed != [] {
      WorkerFor(s, changed[..|changed| - 1]);
      OneAsks(s, changed[|changed| - 1]);
    }
  }

  lemma {:induction false} RustFor(s: Setting, changed: seq<string>)
    ensures FlagsOf(s, changed).rust <==> exists p :: p in changed && s.rules.rust(p)
    decreases |changed|
  {
    if changed != [] {
      RustFor(s, changed[..|changed| - 1]);
    }
  }

  lemma MeetTells(a: set<string>, b: set<string>)
    ensures a * b != {} <==> exists name :: name in a && name in b
  {
    if name :| name in a && name in b { assert name in a * b; }
    if a * b != {} { var name :| name in a * b; }
  }

  /** What is selected follows from the changed paths alone, each part exactly. */
  lemma SelectedForAReason(s: Setting, changed: seq<string>, sel: Selection)
    requires Selects(s, changed, sel)
    ensures SelectionTells(s, changed, sel) && PackagesTell(s, changed, sel)
  {
    AllFor(s, changed);
    FuzzFor(s, changed);
    NpmFor(s, changed);
    PlatformFor(s, changed);
    WorkerFor(s, changed);
    RustFor(s, changed);
    MeetTells(sel.packages, s.fuzzDeps);
    SelectedPackages(s, changed, sel);
  }

  // What reaches the workflow

  /** One build-wide path, or one that no rule covers, runs everything. */
  lemma UncoveredRunsEverything(s: Setting, changed: seq<string>, sel: Selection, path: string)
    requires Selects(s, changed, sel) && path in changed && (IsWide(s, path) || NoRuleCovers(s, path))
    ensures var o := OutputsOf(sel, s.packages);
      && o.lane == Full && o.names == Names(s.packages) && o.systems == AllSystems
      && o.platform && o.fuzz && o.npm && o.worker
  {
    AllFor(s, changed);
  }

  /** Whatever any other path asks for is run, and the members it touches are checked. */
  lemma WhatIsAskedIsRun(s: Setting, changed: seq<string>, sel: Selection, path: string)
    requires Selects(s, changed, sel) && path in changed && !IsWide(s, path)
    ensures var o := OutputsOf(sel, s.packages);
      && (AsksFuzz(s, path) ==> o.fuzz && o.lane != Docs) && (AsksNpm(s, path) ==> o.npm && o.lane != Docs)
      && (AsksPlatform(s, path) ==> o.platform && o.systems == AllSystems) && (s.rules.worker(path) ==> o.worker)
      && (forall name :: name in Names(s.packages) && Touches(s, path, name) ==>
          name in o.names && o.quality && o.lane != Docs)
  {
    SelectedForAReason(s, changed, sel);
    forall name | name in Names(s.packages) && Touches(s, path, name) ensures name in sel.packages {
      assert IsTouched(s, changed, name);
      TouchedTells(s, changed, name);
      TouchedIsAffected(s.packages, Touched(s, changed), name);
    }
  }
}
