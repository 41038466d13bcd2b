/** The rules of the repository itself: its table of shared inputs and its build-wide files. */
module CiTable {
  import opened Basics
  import opened CiLanes
  import opened CiSelection

  function Row(prefix: string, packages: set<string>): Shared { Shared(prefix, packages, false, false, false) }

  const SHARED_INPUTS: seq<Shared> := [
    Row("schemas/", {"vsift-contract", "vsift", "vsift-cli", "vsift-infrastructure", "vsift-release"}),
    Row("fixtures/", {"vsift", "vsift-cli", "vsift-infrastructure", "vsift-agent-trials", "vsift-governance"})
      .(fuzz := true),
    Row("skills/", {"vsift-contract", "vsift-cli", "vsift-agent-trials", "vsift-release"}).(fuzz := true),
    Row("docs/contracts/", {"vsift-cli"}),
    Row("docs/agents/", {"vsift-cli", "vsift-agent-trials"}),
    Row("docs/planning/p12-agent-trials/", {"vsift-agent-trials"}),
    Row("docs/planning/p14-agent-trials/", {"vsift-agent-trials"}),
    Row("docs/operations/release.md", {"vsift-release"}),
    Row("npm/", {"vsift-release", "vsift-agent-trials"}).(npm := true, platform := true),
    Row("LICENSE", {"vsift-release"}),
    Row("tools/send-console-ctrl.ps1", {"vsift-cli"}).(platform := true),
    Row("crates/vsift-infrastructure/tests/", {"vsift-contract", "vsift"}).(fuzz := true),
    Row("crates/vsift-contract/tests/", {}).(fuzz := true)]

  /** The packages of the workspace. */
  const MEMBERS: set<string> := {
    "vsift", "vsift-application", "vsift-cli", "vsift-contract", "vsift-domain", "vsift-infrastructure",
    "vsift-ocr-runner", "vsift-windows-security", "vsift-crash-campaign", "vsift-agent-trials",
    "vsift-governance", "vsift-release"}

  const FULL_FILES: set<string> := {
    "Cargo.toml", "Cargo.lock", "rust-toolchain.toml", "rustfmt.toml", ".gitattributes", "tools/ci_lanes.py",
    "tools/test_ci_lanes.py"}

  predicate IsBuildWide(path: string) {
    path in FULL_FILES || ".github/workflows/" <= path || ".github/actions/" <= path || ".cargo/" <= path
  }

  /** The last component of a path. */
  function Name(path: string): string
    decreases |path|
  {
    if '/' in path then Name(path[1..]) else path
  }

  predicate IsManifest(path: string) { Name(path) == "Cargo.toml" || Name(path) == "build.rs" }

  /** The setting of a change that asks for nothing by itself, under the repository's own rules. */
  ghost predicate HasOwnRules(s: Setting) {
    && s.rules.shared == SHARED_INPUTS && !s.force && !s.labelled
    && (forall path :: s.rules.buildWide(path) == IsBuildWide(path))
    && (forall path :: s.rules.manifest(path) == IsManifest(path))
  }

  /** The repository's table names members of its workspace only, so there nothing is ever lost. */
  lemma TableNamesMembers(s: Setting)
    requires s.rules.shared == SHARED_INPUTS && MEMBERS <= Names(s.packages)
    ensures SharedAreMembers(s)
  {
    forall i | 0 <= i < |SHARED_INPUTS| ensures SHARED_INPUTS[i].packages <= MEMBERS {
    }
  }

  lemma SchemaIsNoBuildFile(s: Setting, path: string)
    requires HasOwnRules(s) && "schemas/" <= path && !IsManifest(path)
    ensures !WholeBuild(s.rules, s.packages, path) && !RunsAll(s, [path])
  {
    assert path[0] == 's';
    assert !IsBuildWide(path);
    assert s.rules.shared[0].prefix <= path;
    assert [path][..0] == [] && FlagsOf(s, []) == NONE;
    assert FlagsOf(s, [path]) == NONE.Or(FlagsBy(s, path));
  }

  lemma ManifestRunsAll(s: Setting, a: seq<string>)
    requires HasOwnRules(s) && a != [] && a[|a| - 1] == "Cargo.toml"
    ensures RunsAll(s, a)
  {
    assert s.rules.buildWide("Cargo.toml");
  }

  lemma NoOtherRowHolds(path: string, i: nat)
    requires "schemas/" <= path && 0 < i < |SHARED_INPUTS|
    ensures !(SHARED_INPUTS[i].prefix <= path)
  {
    assert path[0] == 's' && path[1] == 'c';
    var prefix := SHARED_INPUTS[i].prefix;
    assert |prefix| > 1 && (prefix[0] != 's' || prefix[1] != 'c');
  }

  /** A change of a schema runs no less for changing the root manifest too if and only if every
      package that the schemas are shared with is a member: were one none, it would run for the
      schema alone and not for both. */
  lemma StrayPackageIsLost(s: Setting, path: string)
    requires HasOwnRules(s) && "schemas/" <= path && !IsManifest(path)
    ensures RunsWithin(OutputsOf(Selected(s, [path]), s.packages),
        OutputsOf(Selected(s, [path, "Cargo.toml"]), s.packages))
      <==> SHARED_INPUTS[0].packages <= Names(s.packages)
  {
    SchemaIsNoBuildFile(s, path);
    ManifestRunsAll(s, [path, "Cargo.toml"]);
    NoLessExactly(s, [path], [path, "Cargo.toml"], Selected(s, [path]), Selected(s, [path, "Cargo.toml"]));
    assert s.rules.shared[0].prefix <= path;
    forall i | 0 < i < |SHARED_INPUTS| ensures !(SHARED_INPUTS[i].prefix <= path) {
      NoOtherRowHolds(path, i);
    }
    assert path in [path];
  }
}
