/** How a part's downloads are grouped into units that are smoked together. */
module InstallUnits {
  import opened Basics
  import opened Install

  // Units

  datatype Grouping = Core | Together

  function ComponentAt(actions: seq<Action>, f: nat): Option<Component> {
    if f < |actions| then Some(actions[f].component) else None
  }

  predicate Has(actions: seq<Action>, list: seq<nat>, c: Component) {
    exists f :: f in list && ComponentAt(actions, f) == Some(c)
  }

  function Flatten(units: seq<seq<nat>>): seq<nat> {
    if units == [] then [] else Flatten(units[..|units| - 1]) + units[|units| - 1]
  }

  function WithNext(actions: seq<Action>, units: seq<seq<nat>>, f: nat, joined: bool): seq<seq<nat>> {
    var last := |units| - 1;
    if joined && (ComponentAt(actions, f) == Some(WhisperCli) || ComponentAt(actions, f) == Some(WhisperModel))
       && units != [] && Has(actions, units[last], WhisperCli)
    then units[..last] + [units[last] + [f]]
    else units + [[f]]
  }

  function CoreUnits(actions: seq<Action>, downloads: seq<nat>, joined: bool): seq<seq<nat>> {
    if downloads == [] then []
    else
      var n := |downloads| - 1;
      WithNext(actions, CoreUnits(actions, downloads[..n], joined), downloads[n], joined)
  }

  function Units(actions: seq<Action>, downloads: seq<nat>, grouping: Grouping): seq<seq<nat>> {
    match grouping
    case Together => if downloads == [] then [] else [downloads]
    case Core =>
      CoreUnits(actions, downloads, Has(actions, downloads, WhisperCli) && Has(actions, downloads, WhisperModel))
  }

  method UnitsOf(actions: seq<Action>, downloads: seq<nat>, grouping: Grouping) returns (units: seq<seq<nat>>)
    ensures units == Units(actions, downloads, grouping)
  {
    if grouping == Together {
      return if downloads == [] then [] else [downloads];
    }
    var joined := Has(actions, downloads, WhisperCli) && Has(actions, downloads, WhisperModel);
    units := [];
    for n := 0 to |downloads|
      invariant units == CoreUnits(actions, downloads[..n], joined)
    {
      var next := downloads[n];
      assert downloads[..n + 1][..n] == downloads[..n];
      units := WithNext(actions, units, next, joined);
    }
    assert downloads[..|downloads|] == downloads;
  }

  lemma FlattenGrows(units: seq<seq<nat>>, unit: seq<nat>)
    ensures Flatten(units + [unit]) == Flatten(units) + unit
  {
    assert (units + [unit])[..|units|] == units;
  }

  /** The units hold the downloads in order, each unit some of them, the last download last. */
  ghost predicate Hold(units: seq<seq<nat>>, downloads: seq<nat>) {
    && Flatten(units) == downloads && [] !in units
    && (downloads != [] ==> units != [] && downloads[|downloads| - 1] in units[|units| - 1])
  }

  lemma WithNextHolds(actions: seq<Action>, units: seq<seq<nat>>, downloads: seq<nat>, f: nat, joined: bool)
    requires Hold(units, downloads)
    ensures Hold(WithNext(actions, units, f, joined), downloads + [f])
  {
    var last := |units| - 1;
    var after := WithNext(actions, units, f, joined);
    if after == units + [[f]] {
      FlattenGrows(units, [f]);
      assert after[|units|] == [f];
    } else {
      FlattenGrows(units[..last], units[last] + [f]);
      FlattenGrows(units[..last], units[last]);
      assert units[..last] + [units[last]] == units;
      assert after[last] == units[last] + [f];
      assert f in after[last];
      assert Flatten(after) == Flatten(units[..last]) + (units[last] + [f]);
      assert Flatten(after) == Flatten(units) + [f];
    }
  }

  lemma {:induction false} CoreUnitsKeepOrder(actions: seq<Action>, downloads: seq<nat>, joined: bool)
    ensures Hold(CoreUnits(actions, downloads, joined), downloads)
    decreases |downloads|
  {
    if downloads != [] {
      var n := |downloads| - 1;
      CoreUnitsKeepOrder(actions, downloads[..n], joined);
      WithNextHolds(actions, CoreUnits(actions, downloads[..n], joined), downloads[..n], downloads[n], joined);
      assert downloads == downloads[..n] + [downloads[n]];
    }
  }

  /** Grouping loses no download, repeats none, and keeps their order. */
  lemma UnitsKeepOrder(actions: seq<Action>, downloads: seq<nat>, grouping: Grouping)
    ensures Flatten(Units(actions, downloads, grouping)) == downloads && [] !in Units(actions, downloads, grouping)
  {
    if grouping == Core {
      CoreUnitsKeepOrder(actions, downloads,
        Has(actions, downloads, WhisperCli) && Has(actions, downloads, WhisperModel));
    } else if downloads != [] {
      FlattenGrows([], downloads);
      assert [] + [downloads] == [downloads];
    }
  }

  lemma {:induction false} CoreUnitsOnlyGrow(
      actions: seq<Action>, downloads: seq<nat>, n: nat, joined: bool, u: seq<nat>)
      returns (w: seq<nat>)
    requires n <= |downloads| && u in CoreUnits(actions, downloads[..n], joined)
    ensures w in CoreUnits(actions, downloads, joined) && forall f :: f in u ==> f in w
    decreases |downloads|
  {
    if n == |downloads| {
      assert downloads[..n] == downloads;
      w := u;
    } else {
      var m := |downloads| - 1;
      assert downloads[..m][..n] == downloads[..n];
      var v := CoreUnitsOnlyGrow(actions, downloads[..m], n, joined, u);
      var units, f := CoreUnits(actions, downloads[..m], joined), downloads[m];
      var last := |units| - 1;
      w := if WithNext(actions, units, f, joined) == units + [[f]] || v in units[..last] then v else units[last] + [f];
    }
  }

  /** The recogniser and the model right after it share a unit when both need installing. */
  lemma SpeechIsOneUnit(actions: seq<Action>, downloads: seq<nat>, k: nat) returns (u: seq<nat>)
    requires k + 1 < |downloads|
    requires ComponentAt(actions, downloads[k]) == Some(WhisperCli)
      && ComponentAt(actions, downloads[k + 1]) == Some(WhisperModel)
    ensures u in Units(actions, downloads, Core) && downloads[k] in u && downloads[k + 1] in u
  {
    var joined := Has(actions, downloads, WhisperCli) && Has(actions, downloads, WhisperModel);
    assert joined by { assert downloads[k] in downloads && downloads[k + 1] in downloads; }
    CoreUnitsKeepOrder(actions, downloads[..k + 1], joined);
    assert downloads[..k + 2][..k + 1] == downloads[..k + 1];
    var units := CoreUnits(actions, downloads[..k + 1], joined);
    assert Has(actions, units[|units| - 1], WhisperCli) by { assert downloads[..k + 1][k] == downloads[k]; }
    u := CoreUnitsOnlyGrow(actions, downloads, k + 2, joined, units[|units| - 1] + [downloads[k + 1]]);
  }

  /** A model listed before its recogniser would be a unit of its own, smoked without it. */
  lemma ModelFirstIsApart()
    ensures var actions := [Action(WhisperModel, 0), Action(WhisperCli, 0)];
      Units(actions, [0, 1], Core) == [[0], [1]]
  {
    var actions := [Action(WhisperModel, 0), Action(WhisperCli, 0)];
    var model: nat, cli: nat := 0, 1;
    assert [model, cli][..1] == [model] && [model][..0] == [];
    assert CoreUnits(actions, [], true) == [];
    assert [] + [[model]] == [[model]];
    assert CoreUnits(actions, [model], true) == [[model]] && CoreUnits(actions, [model], false) == [[model]];
    assert !Has(actions, [model], WhisperCli);
  }
}
