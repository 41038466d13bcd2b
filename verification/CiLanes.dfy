/** The choice of CI lanes for a change: which packages, systems and checks run. */
module CiLanes {
  import opened Basics

  datatype Package = Package(name: string, directory: string, dependencies: set<string>)

  predicate DependsOn(packages: seq<Package>, a: string, b: string) {
    exists i :: 0 <= i < |packages| && packages[i].name == a && b in packages[i].dependencies
  }

  function Names(packages: seq<Package>): set<string> { set i | 0 <= i < |packages| :: packages[i].name }

  // The dependents of what was touched

  /** Each package of the chain depends on the one before it. */
  ghost predicate IsChain(packages: seq<Package>, chain: seq<string>) {
    forall i :: 0 <= i < |chain| - 1 ==> DependsOn(packages, chain[i + 1], chain[i])
  }

  /** The package is touched, or depends on one that is, through any number of others. */
  ghost predicate Affected(packages: seq<Package>, touched: set<string>, name: string) {
    exists chain :: chain != [] && IsChain(packages, chain) && chain[0] in touched && chain[|chain| - 1] == name
  }

  function DirectDependents(packages: seq<Package>, name: string): set<string> {
    set i | 0 <= i < |packages| && name in packages[i].dependencies :: packages[i].name
  }

  lemma DirectlyAffected(packages: seq<Package>, touched: set<string>, name: string, dependent: string)
    requires Affected(packages, touched, name) && dependent in DirectDependents(packages, name)
    ensures Affected(packages, touched, dependent)
  {
    var chain :| chain != [] && IsChain(packages, chain) && chain[0] in touched && chain[|chain| - 1] == name;
    var longer := chain + [dependent];
    assert DependsOn(packages, dependent, name);
    assert IsChain(packages, longer) && longer[|longer| - 1] == dependent;
  }

  lemma TouchedIsAffected(packages: seq<Package>, touched: set<string>, name: string)
    requires name in touched
    ensures Affected(packages, touched, name)
  {
    assert IsChain(packages, [name]) && [name][0] == name;
  }

  /** A set that holds its own dependents holds whatever a chain from it reaches. */
  lemma {:induction false} ClosedHoldsChains(packages: seq<Package>, closed: set<string>, chain: seq<string>)
    requires chain != [] && IsChain(packages, chain) && chain[0] in closed
    requires forall n :: n in closed ==> DirectDependents(packages, n) <= closed
    ensures chain[|chain| - 1] in closed
    decreases |chain|
  {
    if |chain| > 1 {
      var shorter := chain[..|chain| - 1];
      ClosedHoldsChains(packages, closed, shorter);
      assert DependsOn(packages, chain[|shorter|], chain[|shorter| - 1]);
      assert chain[|shorter|] in DirectDependents(packages, chain[|shorter| - 1]);
    }
  }

  ghost predicate AllAffected(packages: seq<Package>, touched: set<string>, names: set<string>) {
    forall n :: n in names ==> Affected(packages, touched, n)
  }

  /** Everything selected but not queued has its dependents selected. */
  ghost predicate Followed(packages: seq<Package>, selected: set<string>, queue: set<string>) {
    forall n :: n in selected && n !in queue ==> DirectDependents(packages, n) <= selected
  }

  /** The touched packages and every package that depends on one of them, transitively. */
  ghost function AffectedOf(packages: seq<Package>, touched: set<string>): set<string> {
    set n | n in touched + Names(packages) && Affected(packages, touched, n)
  }

  /** No package beyond the touched ones and the members is affected. */
  lemma AffectedIsAffected(packages: seq<Package>, touched: set<string>, n: string)
    ensures n in AffectedOf(packages, touched) <==> Affected(packages, touched, n)
  {
    if Affected(packages, touched, n) {
      var chain :| chain != [] && IsChain(packages, chain) && chain[0] in touched && chain[|chain| - 1] == n;
      if |chain| > 1 {
        assert DependsOn(packages, chain[|chain| - 2 + 1], chain[|chain| - 2]);
      }
    }
  }

  lemma DependentsAreAffected(packages: seq<Package>, touched: set<string>, name: string)
    requires Affected(packages, touched, name)
    ensures AllAffected(packages, touched, DirectDependents(packages, name))
  {
    forall n | n in DirectDependents(packages, name) ensures Affected(packages, touched, n) {
      DirectlyAffected(packages, touched, name, n);
    }
  }

  /** A set of affected packages that holds the touched ones and its own dependents is all of them. */
  lemma FollowedIsAll(packages: seq<Package>, touched: set<string>, selected: set<string>)
    requires touched <= selected && AllAffected(packages, touched, selected) && Followed(packages, selected, {})
    ensures selected == AffectedOf(packages, touched)
  {
    forall n ensures n in selected <==> n in AffectedOf(packages, touched) {
      AffectedIsAffected(packages, touched, n);
      if Affected(packages, touched, n) {
        var chain :| chain != [] && IsChain(packages, chain) && chain[0] in touched && chain[|chain| - 1] == n;
        ClosedHoldsChains(packages, selected, chain);
      }
    }
  }

  /** Follows the dependents of what is queued until nothing is left. */
  method Dependents(packages: seq<Package>, touched: set<string>) returns (selected: set<string>)
    ensures selected == AffectedOf(packages, touched)
  {
    selected := touched;
    var queue := touched;
    ghost var all := touched + Names(packages);
    forall n | n in touched ensures Affected(packages, touched, n) { TouchedIsAffected(packages, touched, n); }
    while queue != {}
      invariant queue <= selected && touched <= selected <= all
      invariant AllAffected(packages, touched, selected) && Followed(packages, selected, queue)
      decreases |all - selected|, |queue|
    {
      var name :| name in queue;
      DependentsAreAffected(packages, touched, name);
      FollowedNext(packages, selected, queue, name);
      LessIsLeft(all, selected, queue, name, DirectDependents(packages, name));
      selected, queue := AddAll(DirectDependents(packages, name), selected, queue - {name});
    }
    FollowedIsAll(packages, touched, selected);
  }

  lemma FollowedNext(packages: seq<Package>, selected: set<string>, queue: set<string>, name: string)
    requires Followed(packages, selected, queue)
    ensures var found := DirectDependents(packages, name);
      Followed(packages, selected + found, queue - {name} + (found - selected))
  {
  }

  lemma LessIsLeft(all: set<string>, selected: set<string>, queue: set<string>, name: string, found: set<string>)
    requires queue <= selected <= all && found <= all && name in queue
    ensures var more, longer := selected + found, queue - {name} + (found - selected);
      && longer <= more <= all
      && (|all - more| < |all - selected| || (|all - more| == |all - selected| && |longer| < |queue|))
  {
    var more, longer := selected + found, queue - {name} + (found - selected);
    if found <= selected {
      assert more == selected && longer == queue - {name};
    } else {
      var x :| x in found && x !in selected;
      assert all - more <= all - selected - {x};
      SubsetIsSmaller(all - more, all - selected - {x});
    }
  }

  /** Selects and queues each of the packages that is not selected yet. */
  method AddAll(dependents: set<string>, selected: set<string>, queue: set<string>)
      returns (more: set<string>, longer: set<string>)
    ensures more == selected + dependents && longer == queue + (dependents - selected)
  {
    var rest := dependents;
    more, longer := selected, queue;
    while rest != {}
      invariant rest <= dependents
      invariant more == selected + (dependents - rest) && longer == queue + (dependents - rest - selected)
      decreases rest
    {
      var dependent :| dependent in rest;
      rest := rest - {dependent};
      if dependent !in more {
        more := more + {dependent};
        longer := longer + {dependent};
      }
    }
  }
}
