/** What the gate runs for a list of changed paths. */
module CiSelection {
  import opened Basics
  import opened CiLanes

  /** Files outside a package's folder that its tests read. */
  datatype Shared = Shared(prefix: string, packages: set<string>, fuzz: bool, npm: bool, platform: bool)

  /** The rules that classify a path by itself, and the shared inputs. */
  datatype Rules = Rules(buildWide: string -> bool, manifest: string -> bool, fuzz: string -> bool, shared: seq<Shared>,
    platform: string -> bool, worker: string -> bool, document: string -> bool, rust: string -> bool)

  datatype Lane = Docs | Crates | Full
  /** Ubuntu alone, or Windows and macOS too. */
  datatype Systems = Ubuntu | AllSystems

  datatype Selection = Selection(lane: Lane, packages: set<string>, platform: bool, fuzz: bool, npm: bool,
    worker: bool, codeql: bool, upgrade: bool)

  /** What the workflow reads. */
  datatype Outputs = Outputs(lane: Lane, quality: bool, names: set<string>, systems: Systems, platform: bool,
    fuzz: bool, npm: bool, worker: bool, codeql: bool, upgrade: bool)

  predicate InFolder(path: string, directory: string) { directory <= path }

  /** The package whose folder is the longest that holds the path, the first of equals. */
  function Owner(packages: seq<Package>, path: string): (owner: Option<Package>)
    ensures owner.Some? ==> owner.value in packages && InFolder(path, owner.value.directory)
  {
    if packages == [] then None
    else
      var earlier := Owner(packages[..|packages| - 1], path);
      var last := packages[|packages| - 1];
      if InFolder(path, last.directory) && (earlier.None? || |last.directory| > |earlier.value.directory|)
        then Some(last) else earlier
  }

  // What one path asks for

  predicate WholeBuild(rules: Rules, packages: seq<Package>, path: string) {
    rules.buildWide(path) || (Owner(packages, path).Some? && rules.manifest(path))
  }

  predicate IsShared(rules: Rules, path: string) {
    exists i :: 0 <= i < |rules.shared| && rules.shared[i].prefix <= path
  }

  predicate Known(rules: Rules, packages: seq<Package>, path: string) {
    Owner(packages, path).Some? || rules.fuzz(path) || IsShared(rules, path) || rules.document(path)
  }

  predicate AsksForAll(rules: Rules, packages: seq<Package>, path: string) {
    WholeBuild(rules, packages, path) || !Known(rules, packages, path)
  }

  function TouchedBy(rules: Rules, packages: seq<Package>, path: string): set<string> {
    if WholeBuild(rules, packages, path) then {}
    else
      (if Owner(packages, path).Some? then {Owner(packages, path).value.name} else {})
      + set i, n | 0 <= i < |rules.shared| && rules.shared[i].prefix <= path && n in rules.shared[i].packages :: n
  }

  predicate FuzzBy(rules: Rules, packages: seq<Package>, path: string) {
    !WholeBuild(rules, packages, path)
    && (rules.fuzz(path)
      || exists i :: 0 <= i < |rules.shared| && rules.shared[i].prefix <= path && rules.shared[i].fuzz)
  }

  predicate NpmBy(rules: Rules, packages: seq<Package>, path: string) {
    !WholeBuild(rules, packages, path)
    && exists i :: 0 <= i < |rules.shared| && rules.shared[i].prefix <= path && rules.shared[i].npm
  }

  predicate PlatformBy(rules: Rules, packages: seq<Package>, path: string) {
    !WholeBuild(rules, packages, path)
    && (rules.platform(path)
      || exists i :: 0 <= i < |rules.shared| && rules.shared[i].prefix <= path && rules.shared[i].platform)
  }

  predicate WorkerBy(rules: Rules, packages: seq<Package>, path: string) {
    !WholeBuild(rules, packages, path) && rules.worker(path)
  }

  // The selection

  datatype Setting = Setting(rules: Rules, packages: seq<Package>, fuzzDeps: set<string>, labelled: bool, force: bool)

  function Touched(s: Setting, changed: seq<string>): set<string> {
    set p, n | p in changed && n in TouchedBy(s.rules, s.packages, p) :: n
  }

  /** What some of the paths ask for. */
  datatype Flags = Flags(all: bool, fuzz: bool, npm: bool, platform: bool, worker: bool, rust: bool) {
    function Or(f: Flags): Flags {
      Flags(all || f.all, fuzz || f.fuzz, npm || f.npm, platform || f.platform, worker || f.worker, rust || f.rust)
    }
  }

  const NONE := Flags(false, false, false, false, false, false)

  function FlagsBy(s: Setting, path: string): Flags {
    Flags(AsksForAll(s.rules, s.packages, path), FuzzBy(s.rules, s.packages, path), NpmBy(s.rules, s.packages, path),
      PlatformBy(s.rules, s.packages, path), WorkerBy(s.rules, s.packages, path), s.rules.rust(path))
  }

  function FlagsOf(s: Setting, changed: seq<string>): Flags {
    if changed == [] then NONE else FlagsOf(s, changed[..|changed| - 1]).Or(FlagsBy(s, changed[|changed| - 1]))
  }

  /** The selection that the flags and the affected packages make; `empty` says the change lists
      no files. */
  function SelectionFrom(s: Setting, empty: bool, f: Flags, packages: set<string>): Selection {
    var fuzz := f.fuzz || packages * s.fuzzDeps != {};
    var lane :=
      if s.force || s.labelled || empty || f.all then Full
      else if packages != {} || fuzz || f.npm then Crates
      else Docs;
    Selection(lane, packages, f.platform, fuzz, f.npm, f.worker, s.force || empty || f.rust, s.labelled)
  }

  ghost predicate Selects(s: Setting, changed: seq<string>, sel: Selection) {
    sel == SelectionFrom(s, changed == [], FlagsOf(s, changed), AffectedOf(s.packages, Touched(s, changed)))
  }

  function OutputsOf(sel: Selection, packages: seq<Package>): Outputs {
    var full := sel.lane.Full?;
    var names := if full then Names(packages) else sel.packages;
    Outputs(sel.lane, names != {}, names, if full || sel.platform then AllSystems else Ubuntu,
      full || sel.platform, full || sel.fuzz, full || sel.npm, full || sel.worker, sel.codeql, sel.upgrade)
  }

  // Joining

  function Later(a: Lane, b: Lane): Lane {
    if a.Full? || b.Full? then Full else if a.Crates? || b.Crates? then Crates else Docs
  }

  function Join(a: Outputs, b: Outputs): Outputs {
    Outputs(Later(a.lane, b.lane), a.quality || b.quality, a.names + b.names,
      if a.systems.AllSystems? then a.systems else b.systems, a.platform || b.platform,
      a.fuzz || b.fuzz, a.npm || b.npm, a.worker || b.worker, a.codeql || b.codeql, a.upgrade || b.upgrade)
  }

  /** Every package the shared inputs name is a member of the workspace. */
  ghost predicate SharedAreMembers(s: Setting) {
    forall i :: 0 <= i < |s.rules.shared| ==> s.rules.shared[i].packages <= Names(s.packages)
  }

  lemma AffectedByEither(packages: seq<Package>, a: set<string>, b: set<string>)
    ensures AffectedOf(packages, a + b) == AffectedOf(packages, a) + AffectedOf(packages, b)
  {
    forall n ensures n in AffectedOf(packages, a + b) <==>
      n in AffectedOf(packages, a) || n in AffectedOf(packages, b) {
      AffectedIsAffected(packages, a, n);
      AffectedIsAffected(packages, b, n);
      AffectedIsAffected(packages, a + b, n);
      if Affected(packages, a + b, n) {
        var chain :| chain != [] && IsChain(packages, chain) && chain[0] in a + b && chain[|chain| - 1] == n;
        assert chain[0] in a || chain[0] in b;
      }
    }
  }

  lemma TouchedJoins(s: Setting, a: seq<string>, b: seq<string>)
    ensures Touched(s, a + b) == Touched(s, a) + Touched(s, b)
  {
  }

  lemma PackagesJoin(s: Setting, a: seq<string>, b: seq<string>, x: Selection, y: Selection, z: Selection)
    requires Selects(s, a, x) && Selects(s, b, y) && Selects(s, a + b, z)
    ensures z.packages == x.packages + y.packages
  {
    TouchedJoins(s, a, b);
    AffectedByEither(s.packages, Touched(s, a), Touched(s, b));
  }

  lemma {:induction false} FlagsOfEither(s: Setting, a: seq<string>, b: seq<string>)
    ensures FlagsOf(s, a + b) == FlagsOf(s, a).Or(FlagsOf(s, b))
    decreases |b|
  {
    if b == [] {
      assert a + b == a;
    } else {
      FlagsOfEither(s, a, b[..|b| - 1]);
      assert (a + b)[..|a + b| - 1] == a + b[..|b| - 1];
    }
  }

  /** Flags depend only on which paths there are. */
  lemma {:induction false} FlagsWithin(s: Setting, a: seq<string>, b: seq<string>)
    requires forall p :: p in a ==> p in b
    ensures FlagsOf(s, b).Or(FlagsOf(s, a)) == FlagsOf(s, b)
    decreases |a|
  {
    if a != [] {
      FlagsWithin(s, a[..|a| - 1], b);
      OneWithin(s, a[|a| - 1], b);
    }
  }

  lemma {:induction false} OneWithin(s: Setting, path: string, b: seq<string>)
    requires path in b
    ensures FlagsOf(s, b).Or(FlagsBy(s, path)) == FlagsOf(s, b)
    decreases |b|
  {
    if b[|b| - 1] != path { OneWithin(s, path, b[..|b| - 1]); }
  }

  lemma FlagsJoin(s: Setting, a: seq<string>, b: seq<string>, x: Selection, y: Selection, z: Selection)
    requires a != [] && b != [] && Selects(s, a, x) && Selects(s, b, y) && Selects(s, a + b, z)
    ensures z.fuzz == (x.fuzz || y.fuzz) && z.npm == (x.npm || y.npm) && z.platform == (x.platform || y.platform)
    ensures z.worker == (x.worker || y.worker)
      && z.codeql == (x.codeql || y.codeql) && z.upgrade == (x.upgrade || y.upgrade)
    ensures z.lane == Later(x.lane, y.lane)
  {
    PackagesJoin(s, a, b, x, y, z);
    FlagsOfEither(s, a, b);
    assert a + b != [];
    BothSelect(s, FlagsOf(s, a), FlagsOf(s, b), x.packages, y.packages);
  }

  lemma BothSelect(s: Setting, f: Flags, g: Flags, p: set<string>, q: set<string>)
    ensures var x, y := SelectionFrom(s, false, f, p), SelectionFrom(s, false, g, q);
      var z := SelectionFrom(s, false, f.Or(g), p + q);
      && z.fuzz == (x.fuzz || y.fuzz) && z.npm == (x.npm || y.npm) && z.platform == (x.platform || y.platform)
      && z.worker == (x.worker || y.worker) && z.codeql == (x.codeql || y.codeql)
      && z.upgrade == (x.upgrade || y.upgrade) && z.lane == Later(x.lane, y.lane)
  {
    EitherMeets(p, q, s.fuzzDeps);
  }

  lemma EitherMeets(p: set<string>, q: set<string>, d: set<string>)
    ensures (p + q) * d == {} <==> p * d == {} && q * d == {}
    ensures p + q == {} <==> p == {} && q == {}
  {
    assert (p + q) * d == p * d + q * d;
    assert p <= p + q && q <= p + q && p * d <= (p + q) * d && q * d <= (p + q) * d;
  }

  /** The change runs everything, whatever its packages: then only members of the workspace run. */
  predicate RunsAll(s: Setting, changed: seq<string>) {
    s.force || s.labelled || changed == [] || FlagsOf(s, changed).all
  }

  /** What the shared inputs that hold a path name is a member of the workspace. */
  ghost predicate NamesMembers(s: Setting, path: string) {
    WholeBuild(s.rules, s.packages, path)
    || forall i :: 0 <= i < |s.rules.shared| && s.rules.shared[i].prefix <= path ==>
        s.rules.shared[i].packages <= Names(s.packages)
  }

  /** Nothing that the first change runs is left out for being run beside the second. */
  ghost predicate LosesNothing(s: Setting, changed: seq<string>, beside: seq<string>) {
    RunsAll(s, beside) && !RunsAll(s, changed) ==> forall p :: p in changed ==> NamesMembers(s, p)
  }

  lemma TouchedByMembers(s: Setting, path: string)
    ensures TouchedBy(s.rules, s.packages, path) <= Names(s.packages) <==> NamesMembers(s, path)
  {
    if !WholeBuild(s.rules, s.packages, path) {
      var owner := Owner(s.packages, path);
      if owner.Some? {
        var k :| 0 <= k < |s.packages| && s.packages[k] == owner.value;
        assert owner.value.name in Names(s.packages);
      }
      if TouchedBy(s.rules, s.packages, path) <= Names(s.packages) {
        forall i, n | 0 <= i < |s.rules.shared| && s.rules.shared[i].prefix <= path && n in s.rules.shared[i].packages
          ensures n in Names(s.packages)
        {
          assert n in TouchedBy(s.rules, s.packages, path);
        }
      }
    }
  }

  /** What is selected are members exactly when the shared inputs that hold the paths name members. */
  lemma SelectedAreMembers(s: Setting, changed: seq<string>, sel: Selection)
    requires Selects(s, changed, sel)
    ensures sel.packages <= Names(s.packages) <==> forall p :: p in changed ==> NamesMembers(s, p)
  {
    var touched := Touched(s, changed);
    forall p | p in changed ensures TouchedBy(s.rules, s.packages, p) <= touched {
    }
    forall p ensures TouchedBy(s.rules, s.packages, p) <= Names(s.packages) <==> NamesMembers(s, p) {
      TouchedByMembers(s, p);
    }
    forall n | n in touched ensures n in sel.packages {
      TouchedIsAffected(s.packages, touched, n);
      AffectedIsAffected(s.packages, touched, n);
    }
  }

  lemma RunsAllIsFull(s: Setting, changed: seq<string>, sel: Selection)
    requires Selects(s, changed, sel)
    ensures sel.lane.Full? <==> RunsAll(s, changed)
  {
  }

  /** The package names join exactly when no selection beside a full one names a stray package. */
  lemma SelectionsJoin(packages: seq<Package>, x: Selection, y: Selection, z: Selection)
    requires z.packages == x.packages + y.packages
    requires z.fuzz == (x.fuzz || y.fuzz) && z.npm == (x.npm || y.npm) && z.platform == (x.platform || y.platform)
    requires z.worker == (x.worker || y.worker)
      && z.codeql == (x.codeql || y.codeql) && z.upgrade == (x.upgrade || y.upgrade)
    requires z.lane == Later(x.lane, y.lane)
    ensures OutputsOf(z, packages) == Join(OutputsOf(x, packages), OutputsOf(y, packages)) <==>
      && (y.lane.Full? && !x.lane.Full? ==> x.packages <= Names(packages))
      && (x.lane.Full? && !y.lane.Full? ==> y.packages <= Names(packages))
  {
    var a, b, c := OutputsOf(x, packages), OutputsOf(y, packages), OutputsOf(z, packages);
    if x.lane.Full? || y.lane.Full? {
      assert c.names == Names(packages);
      assert a.names + b.names == Names(packages) <==> a.names <= Names(packages) && b.names <= Names(packages);
    } else {
      assert c.names == a.names + b.names;
    }
  }

  /** Two changes together run exactly what either of them runs if and only if neither of them names
      a stray package beside one that runs everything. */
  lemma OutputsJoinExactly(s: Setting, a: seq<string>, b: seq<string>, x: Selection, y: Selection, z: Selection)
    requires a != [] && b != [] && Selects(s, a, x) && Selects(s, b, y) && Selects(s, a + b, z)
    ensures OutputsOf(z, s.packages) == Join(OutputsOf(x, s.packages), OutputsOf(y, s.packages))
      <==> LosesNothing(s, a, b) && LosesNothing(s, b, a)
  {
    PackagesJoin(s, a, b, x, y, z);
    FlagsJoin(s, a, b, x, y, z);
    SelectedAreMembers(s, a, x);
    SelectedAreMembers(s, b, y);
    RunsAllIsFull(s, a, x);
    RunsAllIsFull(s, b, y);
    SelectionsJoin(s.packages, x, y, z);
  }

  lemma MembersLoseNothing(s: Setting, changed: seq<string>, beside: seq<string>)
    requires SharedAreMembers(s)
    ensures LosesNothing(s, changed, beside)
  {
  }

  /** With a table of members only, two changes together always run what either of them runs. */
  lemma OutputsJoin(s: Setting, a: seq<string>, b: seq<string>, x: Selection, y: Selection, z: Selection)
    requires a != [] && b != [] && SharedAreMembers(s)
    requires Selects(s, a, x) && Selects(s, b, y) && Selects(s, a + b, z)
    ensures OutputsOf(z, s.packages) == Join(OutputsOf(x, s.packages), OutputsOf(y, s.packages))
  {
    MembersLoseNothing(s, a, b);
    MembersLoseNothing(s, b, a);
    OutputsJoinExactly(s, a, b, x, y, z);
  }

  /** A change lists no path less for being reordered or repeated: only the set of paths matters. */
  lemma SameSetSameSelection(s: Setting, a: seq<string>, b: seq<string>, x: Selection, y: Selection)
    requires (forall p :: p in a <==> p in b) && Selects(s, a, x) && Selects(s, b, y)
    ensures x == y
  {
    assert a == [] <==> b == [] by {
      if a != [] { assert a[0] in b; }
      if b != [] { assert b[0] in a; }
    }
    assert Touched(s, a) == Touched(s, b);
    FlagsWithin(s, a, b);
    FlagsWithin(s, b, a);
  }

  /** Everything `a` runs is run by `b`. */
  predicate RunsWithin(a: Outputs, b: Outputs) {
    && (a.lane == b.lane || b.lane.Full? || a.lane.Docs?) && (a.quality ==> b.quality)
      && a.names <= b.names && (a.systems == b.systems || b.systems.AllSystems?)
    && (a.platform ==> b.platform) && (a.fuzz ==> b.fuzz) && (a.npm ==> b.npm) && (a.worker ==> b.worker)
    && (a.codeql ==> b.codeql) && (a.upgrade ==> b.upgrade)
  }

  /** More changed paths run no less if and only if the fewer do not name a stray package while the
      more run everything. */
  lemma NoLessExactly(s: Setting, a: seq<string>, b: seq<string>, x: Selection, y: Selection)
    requires a != [] && (forall p :: p in a ==> p in b) && Selects(s, a, x) && Selects(s, b, y)
    ensures RunsWithin(OutputsOf(x, s.packages), OutputsOf(y, s.packages)) <==> LosesNothing(s, a, b)
  {
    var z := Selected(s, a + b);
    SameSetSameSelection(s, a + b, b, z, y);
    assert a[0] in b;
    PackagesJoin(s, a, b, x, y, z);
    FlagsJoin(s, a, b, x, y, z);
    SelectedAreMembers(s, a, x);
    RunsAllIsFull(s, a, x);
    RunsAllIsFull(s, b, y);
  }

  /** With a table of members only, more changed paths never run less. */
  lemma MorePathsSelectNoLess(s: Setting, a: seq<string>, b: seq<string>, x: Selection, y: Selection)
    requires a != [] && SharedAreMembers(s) && (forall p :: p in a ==> p in b)
    requires Selects(s, a, x) && Selects(s, b, y)
    ensures RunsWithin(OutputsOf(x, s.packages), OutputsOf(y, s.packages))
  {
    MembersLoseNothing(s, a, b);
    NoLessExactly(s, a, b, x, y);
  }

  /** The selection there is. */
  ghost function Selected(s: Setting, changed: seq<string>): (sel: Selection)
    ensures Selects(s, changed, sel)
  {
    SelectionFrom(s, changed == [], FlagsOf(s, changed), AffectedOf(s.packages, Touched(s, changed)))
  }

  // The loop over the changed paths

  method Select(s: Setting, changed: seq<string>) returns (sel: Selection)
    ensures Selects(s, changed, sel)
  {
    var touched, flags := Sweep(s, changed);
    var packages := Dependents(s.packages, touched);
    if packages * s.fuzzDeps != {} {
      flags := flags.(fuzz := true);
    }
    var lane := if s.force || s.labelled || changed == [] || flags.all then Full else Docs;
    if lane != Full && (packages != {} || flags.fuzz || flags.npm) {
      lane := Crates;
    }
    sel := Selection(lane, packages, flags.platform, flags.fuzz, flags.npm, flags.worker,
      s.force || changed == [] || flags.rust, s.labelled);
  }

  /** Classifies every path and gathers what they ask for. */
  method Sweep(s: Setting, changed: seq<string>) returns (touched: set<string>, flags: Flags)
    ensures touched == Touched(s, changed) && flags == FlagsOf(s, changed)
  {
    touched, flags := {}, NONE;
    for n := 0 to |changed|
      invariant touched == Touched(s, changed[..n]) && flags == FlagsOf(s, changed[..n])
    {
      var more, f := Classify(s, changed[n]);
      OnePathMore(s, changed, n);
      touched, flags := touched + more, flags.Or(f);
    }
    assert changed[..|changed|] == changed;
  }

  lemma OnePathMore(s: Setting, changed: seq<string>, n: nat)
    requires n < |changed|
    ensures Touched(s, changed[..n + 1]) == Touched(s, changed[..n]) + TouchedBy(s.rules, s.packages, changed[n])
    ensures FlagsOf(s, changed[..n + 1]) == FlagsOf(s, changed[..n]).Or(FlagsBy(s, changed[n]))
  {
    assert changed[..n + 1] == changed[..n] + [changed[n]];
    assert changed[..n + 1][..n] == changed[..n];
    TouchedJoins(s, changed[..n], [changed[n]]);
    assert changed[n] in [changed[n]];
  }

  /** What one path asks for, by the rules in their order. */
  method Classify(s: Setting, path: string) returns (touched: set<string>, f: Flags)
    ensures touched == TouchedBy(s.rules, s.packages, path) && f == FlagsBy(s, path)
  {
    touched, f := {}, NONE.(rust := s.rules.rust(path));
    if s.rules.buildWide(path) {
      f := f.(all := true);
      return;
    }
    var owner := Owner(s.packages, path);
    if owner.Some? && s.rules.manifest(path) {
      f := f.(all := true);
      return;
    }
    var known := false;
    if owner.Some? {
      touched := {owner.value.name};
      known := true;
    }
    var isFuzz := false;
    if s.rules.fuzz(path) {
      isFuzz := true;
      known := true;
    }
    var more, fuzz, npm, platform, any := SharedBy(s.rules.shared, path);
    touched, known := touched + more, known || any;
    platform := platform || s.rules.platform(path);
    f := Flags(!known && !s.rules.document(path), isFuzz || fuzz, npm, platform,
      s.rules.worker(path), s.rules.rust(path));
  }

  /** What the shared inputs that hold a path ask for. */
  method SharedBy(shared: seq<Shared>, path: string)
      returns (touched: set<string>, fuzz: bool, npm: bool, platform: bool, any: bool)
    ensures touched == set j, n | 0 <= j < |shared| && shared[j].prefix <= path && n in shared[j].packages :: n
    ensures fuzz == (exists j :: 0 <= j < |shared| && shared[j].prefix <= path && shared[j].fuzz)
    ensures npm == (exists j :: 0 <= j < |shared| && shared[j].prefix <= path && shared[j].npm)
    ensures platform == (exists j :: 0 <= j < |shared| && shared[j].prefix <= path && shared[j].platform)
    ensures any == (exists j :: 0 <= j < |shared| && shared[j].prefix <= path)
  {
    touched, fuzz, npm, platform, any := {}, false, false, false, false;
    for i := 0 to |shared|
      invariant touched == set j, n | 0 <= j < i && shared[j].prefix <= path && n in shared[j].packages :: n
      invariant fuzz == (exists j :: 0 <= j < i && shared[j].prefix <= path && shared[j].fuzz)
      invariant npm == (exists j :: 0 <= j < i && shared[j].prefix <= path && shared[j].npm)
      invariant platform == (exists j :: 0 <= j < i && shared[j].prefix <= path && shared[j].platform)
      invariant any == (exists j :: 0 <= j < i && shared[j].prefix <= path)
    {
      if shared[i].prefix <= path {
        touched := touched + shared[i].packages;
        fuzz, npm, platform, any := fuzz || shared[i].fuzz, npm || shared[i].npm, platform || shared[i].platform, true;
      }
    }
  }
}
