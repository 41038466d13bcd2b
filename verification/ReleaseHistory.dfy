/** What the per-commit check says of a whole linear branch. */
module ReleaseHistory {
  import opened Basics
  import opened ReleaseWindow

  predicate Differs(before: Tree, after: Tree, p: string) {
    (p in before || p in after) && (p !in before || p !in after || before[p] != after[p])
  }

  /** A commit's changes tell how each file went from one tree to the next: a deleted file is said to
      be, and otherwise every line of the new file was there before or is added, and every line of
      the old file is still there or is removed. A diff of a binary file tells nothing of its lines. */
  ghost predicate Tells(commit: Commit, before: Tree, after: Tree) {
    && (forall p :: Differs(before, after, p) ==> exists k :: 0 <= k < |commit.changes| && commit.changes[k].path == p)
    && (forall k :: 0 <= k < |commit.changes| ==> TellsOne(commit.changes[k], before, after))
  }

  ghost predicate TellsOne(c: Change, before: Tree, after: Tree) {
    && (c.status.Deleted? <==> c.path !in after)
    && (!c.binary && c.path in after ==>
        (forall l :: l in Lines(after, c.path) ==> l in Lines(before, c.path) || l in AddedIn(c.hunks))
        && (forall l :: l in Lines(before, c.path) ==> l in Lines(after, c.path) || l in RemovedIn(c.hunks)))
  }

  /** The trees of a linear branch, from its cut to its head, with the commit between each two. */
  ghost predicate IsHistory(trees: seq<Tree>, commits: seq<Commit>) {
    |trees| == |commits| + 1 && forall i :: 0 <= i < |commits| ==> Tells(commits[i], trees[i], trees[i + 1])
  }

  /** The check reports what it finds of the file. */
  predicate Counts(context: Context, path: string, records: bool) { records || context.kind(path).Fix? }

  /** A file no excuse reaches but the first and a moved path inside a line. */
  ghost predicate Ordinary(context: Context, path: string, records: bool) {
    && Counts(context, path, records) && path !in context.moves
    && (forall line :: !context.otherwise(path, line)) && (forall time :: !context.newer(path, time))
  }

  ghost predicate AllPass(context: Context, commits: seq<Commit>, main: Tree, head: Tree, records: bool) {
    forall i, k :: 0 <= i < |commits| && 0 <= k < |commits[i].changes| ==>
      Passes(context, commits[i], k, main, head, records)
  }

  function Has(context: Context, tree: Tree, path: string): set<Line> {
    Compared(context, path, Lines(tree, path))
  }

  /** Main has a line, as it stands or with its paths moved. */
  predicate MainHas(context: Context, main: Tree, path: string, line: Line) {
    line in Has(context, main, path) || context.substitute(line) in Has(context, main, path)
  }

  lemma ComparedOf(context: Context, path: string, lines: seq<Line>, l: Line)
    ensures l in Compared(context, path, lines) <==> exists raw :: raw in lines && context.normalise(path, raw) == l
  {
    if raw :| raw in lines && context.normalise(path, raw) == l {
      var i :| 0 <= i < |lines| && lines[i] == raw;
    }
  }

  // What a change is found to be, line by line

  ghost predicate Adds(c: Change, raw: Line) { exists h :: h in c.hunks && raw in h.added }

  ghost predicate Removes(c: Change, raw: Line) { exists h :: h in c.hunks && raw in h.removed }

  /** The file has the line, as lines are compared. */
  ghost predicate Reads(context: Context, tree: Tree, path: string, l: Line) {
    path in tree && exists raw :: raw in tree[path] && context.normalise(path, raw) == l
  }

  /** An added line is too short to count, or main has it, or it with its paths moved, or the head
      gave it up, or it is excused. */
  ghost predicate AddedIsThere(context: Context, path: string, l: Line, main: Tree, head: Tree) {
    |l| < 3 || Reads(context, main, path, l) || Reads(context, main, path, context.substitute(l))
    || !Reads(context, head, path, l) || context.otherwise(path, l)
  }

  /** A removed line is too short to count, or main has it no more, or the head has it again. */
  ghost predicate RemovedIsGone(context: Context, path: string, l: Line, main: Tree, head: Tree) {
    |l| < 3 || !Reads(context, main, path, l) || Reads(context, head, path, l)
  }

  lemma {:induction false} AddedAre(hunks: seq<Hunk>, raw: Line)
    ensures raw in AddedIn(hunks) <==> exists h :: h in hunks && raw in h.added
    ensures raw in RemovedIn(hunks) <==> exists h :: h in hunks && raw in h.removed
    decreases |hunks|
  {
    if hunks != [] {
      var init, last := hunks[..|hunks| - 1], hunks[|hunks| - 1];
      AddedAre(init, raw);
      assert forall h :: h in hunks <==> h in init || h == last;
    }
  }

  lemma HasIsReads(context: Context, tree: Tree, path: string, l: Line)
    ensures l in Has(context, tree, path) <==> Reads(context, tree, path, l)
  {
    ComparedOf(context, path, Lines(tree, path), l);
  }

  lemma AddedTells(context: Context, path: string, l: Line, main: Tree, head: Tree)
    ensures Accepted(context, path, l, Has(context, main, path), Has(context, head, path))
      <==> AddedIsThere(context, path, l, main, head)
    ensures Gone(l, Has(context, main, path), Has(context, head, path))
      <==> RemovedIsGone(context, path, l, main, head)
  {
    HasIsReads(context, main, path, l);
    HasIsReads(context, main, path, context.substitute(l));
    HasIsReads(context, head, path, l);
  }

  /** The lines compared are those that some line is compared as. */
  lemma ComparedAll(context: Context, path: string, lines: seq<Line>)
    ensures forall raw :: raw in lines ==> context.normalise(path, raw) in Compared(context, path, lines)
    ensures forall l :: l in Compared(context, path, lines) ==>
      exists raw :: raw in lines && context.normalise(path, raw) == l
  {
    forall raw | raw in lines ensures context.normalise(path, raw) in Compared(context, path, lines) {
      ComparedOf(context, path, lines, context.normalise(path, raw));
    }
    forall l | l in Compared(context, path, lines)
      ensures exists raw :: raw in lines && context.normalise(path, raw) == l
    {
      ComparedOf(context, path, lines, l);
    }
  }

  lemma AddedLinesTell(context: Context, c: Change, main: Tree, head: Tree)
    ensures (forall l :: l in Compared(context, c.path, AddedIn(c.hunks)) ==>
        Accepted(context, c.path, l, Has(context, main, c.path), Has(context, head, c.path)))
      <==> forall raw :: Adds(c, raw) ==> AddedIsThere(context, c.path, context.normalise(c.path, raw), main, head)
  {
    ComparedAll(context, c.path, AddedIn(c.hunks));
    forall raw ensures raw in AddedIn(c.hunks) <==> Adds(c, raw) { AddedAre(c.hunks, raw); }
    forall l ensures Accepted(context, c.path, l, Has(context, main, c.path), Has(context, head, c.path))
      <==> AddedIsThere(context, c.path, l, main, head)
    {
      AddedTells(context, c.path, l, main, head);
    }
  }

  lemma RemovedLinesTell(context: Context, c: Change, main: Tree, head: Tree)
    ensures (forall l :: l in Compared(context, c.path, RemovedIn(c.hunks)) ==>
        Gone(l, Has(context, main, c.path), Has(context, head, c.path)))
      <==> forall raw :: Removes(c, raw) ==>
          RemovedIsGone(context, c.path, context.normalise(c.path, raw), main, head)
  {
    ComparedAll(context, c.path, RemovedIn(c.hunks));
    forall raw ensures raw in RemovedIn(c.hunks) <==> Removes(c, raw) { AddedAre(c.hunks, raw); }
    forall l ensures Gone(l, Has(context, main, c.path), Has(context, head, c.path))
      <==> RemovedIsGone(context, c.path, l, main, head)
    {
      AddedTells(context, c.path, l, main, head);
    }
  }

  /** What main must have of a change that is compared line by line, told of the lines themselves. */
  lemma LinesTell(context: Context, c: Change, main: Tree, head: Tree, time: nat)
    requires !c.status.Deleted? && c.path in main && !c.binary && !context.newer(c.path, time)
    ensures IsOnMain(context, c, main, head, time) <==>
      && (forall raw :: Adds(c, raw) ==> AddedIsThere(context, c.path, context.normalise(c.path, raw), main, head))
      && (forall raw :: Removes(c, raw) ==> RemovedIsGone(context, c.path, context.normalise(c.path, raw), main, head))
  {
    AddedLinesTell(context, c, main, head);
    RemovedLinesTell(context, c, main, head);
    assert Lines(main, c.path) == main[c.path];
  }

  /** The commit that brought a line in has it among its added lines. */
  lemma AddedWhenNew(context: Context, c: Change, before: Tree, after: Tree, l: Line)
    requires TellsOne(c, before, after) && !c.binary && c.path in after
    requires l in Has(context, after, c.path) && l !in Has(context, before, c.path)
    ensures l in Compared(context, c.path, AddedIn(c.hunks))
  {
    ComparedOf(context, c.path, Lines(after, c.path), l);
    ComparedOf(context, c.path, Lines(before, c.path), l);
    ComparedOf(context, c.path, AddedIn(c.hunks), l);
    var raw :| raw in Lines(after, c.path) && context.normalise(c.path, raw) == l;
    assert raw in AddedIn(c.hunks);
  }

  lemma RemovedWhenGone(context: Context, c: Change, before: Tree, after: Tree, l: Line)
    requires TellsOne(c, before, after) && !c.binary && c.path in after
    requires l in Has(context, before, c.path) && l !in Has(context, after, c.path)
    ensures l in Compared(context, c.path, RemovedIn(c.hunks))
  {
    ComparedOf(context, c.path, Lines(before, c.path), l);
    ComparedOf(context, c.path, Lines(after, c.path), l);
    ComparedOf(context, c.path, RemovedIn(c.hunks), l);
    var raw :| raw in Lines(before, c.path) && context.normalise(c.path, raw) == l;
    assert raw in RemovedIn(c.hunks);
  }

  lemma ChangeOf(commit: Commit, before: Tree, after: Tree, path: string) returns (k: nat)
    requires Tells(commit, before, after) && Differs(before, after, path)
    ensures k < |commit.changes| && commit.changes[k].path == path && TellsOne(commit.changes[k], before, after)
  {
    k :| 0 <= k < |commit.changes| && commit.changes[k].path == path;
  }

  /** The last commit that made the difference between holding a line and not holding it. */
  lemma {:induction false} LastTurn(context: Context, trees: seq<Tree>, path: string, l: Line) returns (i: nat)
    requires |trees| > 1 && (l in Has(context, trees[0], path) <==> l !in Has(context, trees[|trees| - 1], path))
    ensures i + 1 < |trees|
    ensures l in Has(context, trees[i + 1], path) <==> l in Has(context, trees[|trees| - 1], path)
    ensures l in Has(context, trees[i], path) <==> l in Has(context, trees[0], path)
    decreases |trees|
  {
    var n := |trees| - 2;
    if l in Has(context, trees[n], path) <==> l in Has(context, trees[0], path) {
      i := n;
    } else {
      i := LastTurn(context, trees[..n + 1], path, l);
    }
  }

  /** When every commit of a linear branch passes, main has the branch's net change: every line the
      head has and the cut had not, and none that the cut had and the head has not, however many
      commits rewrote the file in between. */
  lemma NetChangeIsOnMain(
      context: Context, trees: seq<Tree>, commits: seq<Commit>, main: Tree, records: bool, path: string, l: Line)
    requires IsHistory(trees, commits) && AllPass(context, commits, main, trees[|trees| - 1], records)
    requires Ordinary(context, path, records) && Significant(l)
    ensures l in Has(context, trees[|trees| - 1], path) && l !in Has(context, trees[0], path) ==>
      MainHas(context, main, path, l)
    ensures l in Has(context, trees[0], path) && l !in Has(context, trees[|trees| - 1], path) ==>
      l !in Has(context, main, path)
  {
    var head := trees[|trees| - 1];
    if l in Has(context, trees[0], path) <==> l !in Has(context, head, path) {
      var i := LastTurn(context, trees, path, l);
      var before, after := trees[i], trees[i + 1];
      assert Tells(commits[i], before, after);
      var k := ChangeOf(commits[i], before, after, path);
      var c := commits[i].changes[k];
      assert Passes(context, commits[i], k, main, head, records);
      if l in Has(context, head, path) {
        if !c.binary { AddedWhenNew(context, c, before, after, l); }
      } else if path in after && !c.binary {
        RemovedWhenGone(context, c, before, after, l);
      }
    }
  }

  /** And main has every file the branch added or changed, and none that it took away. */
  lemma NetFilesAreOnMain(
      context: Context, trees: seq<Tree>, commits: seq<Commit>, main: Tree, records: bool, path: string)
    requires IsHistory(trees, commits) && AllPass(context, commits, main, trees[|trees| - 1], records)
    requires Ordinary(context, path, records)
    ensures path in trees[|trees| - 1] && path !in trees[0] ==> path in main
    ensures path in trees[0] && path !in trees[|trees| - 1] ==> path !in main
  {
    var head := trees[|trees| - 1];
    if path in trees[0] <==> path !in head {
      var i := LastFileTurn(trees, path);
      assert Tells(commits[i], trees[i], trees[i + 1]);
      var k := ChangeOf(commits[i], trees[i], trees[i + 1], path);
      assert Passes(context, commits[i], k, main, head, records);
    }
  }

  lemma {:induction false} LastFileTurn(trees: seq<Tree>, path: string) returns (i: nat)
    requires |trees| > 1 && (path in trees[0] <==> path !in trees[|trees| - 1])
    ensures i + 1 < |trees| && (path in trees[i + 1] <==> path in trees[|trees| - 1])
      && (path in trees[i] <==> path in trees[0])
    decreases |trees|
  {
    var n := |trees| - 2;
    if path in trees[n] <==> path in trees[0] {
      i := n;
    } else {
      i := LastFileTurn(trees[..n + 1], path);
    }
  }

  // Main as the branch left it

  /** The file is at the head what the commit made it, there or not; one the commit left there may
      also have moved. */
  predicate StaysSo(context: Context, path: string, after: Tree, head: Tree) {
    if path in after then path in head || path in context.moves else path !in head
  }

  /** What one change is found to be when main is the head: only whether its file is there counts, and
      no line of it is ever missing or left over. */
  lemma FoundAtTheHead(context: Context, c: Change, before: Tree, after: Tree, head: Tree, time: nat)
    requires TellsOne(c, before, after)
    ensures IsOnMain(context, c, head, head, time) <==> StaysSo(context, c.path, after, head)
  {
  }

  /** A branch whose head is main passes if and only if no commit leaves a file that is gone at the
      head, unless main moved it, and none takes away one that is there again. */
  lemma HeadPassesExactly(context: Context, trees: seq<Tree>, commits: seq<Commit>, records: bool)
    requires IsHistory(trees, commits)
    ensures var head := trees[|trees| - 1];
      AllPass(context, commits, head, head, records) <==>
        forall i, k :: 0 <= i < |commits| && 0 <= k < |commits[i].changes| ==>
          Counts(context, commits[i].changes[k].path, records) ==>
            StaysSo(context, commits[i].changes[k].path, trees[i + 1], head)
  {
    var head := trees[|trees| - 1];
    forall i, k | 0 <= i < |commits| && 0 <= k < |commits[i].changes|
      ensures Passes(context, commits[i], k, head, head, records) <==>
        (Counts(context, commits[i].changes[k].path, records) ==>
          StaysSo(context, commits[i].changes[k].path, trees[i + 1], head))
    {
      assert Tells(commits[i], trees[i], trees[i + 1]);
      FoundAtTheHead(context, commits[i].changes[k], trees[i], trees[i + 1], head, commits[i].time);
    }
  }

  /** So a branch that adds a file and takes it out again is reported, although main is its very head. */
  lemma TakenOutIsReported()
    ensures var context := Context((p, l) => l, l => l, {}, (p, l) => false, (p, n) => false, p => Fix);
      var commits := [Commit([Change("file", Added, false, [])], 0), Commit([Change("file", Deleted, false, [])], 0)];
      var trees := [map[], map["file" := []], map[]];
      IsHistory(trees, commits) && !AllPass(context, commits, trees[2], trees[2], false)
  {
    var context := Context((p, l) => l, l => l, {}, (p, l) => false, (p, n) => false, p => Fix);
    var added, deleted := Change("file", Added, false, []), Change("file", Deleted, false, []);
    var commits := [Commit([added], 0), Commit([deleted], 0)];
    var trees: seq<Tree> := [map[], map["file" := []], map[]];
    assert commits[0].changes[0] == added && commits[1].changes[0] == deleted;
    assert Tells(commits[0], trees[0], trees[1]) && Tells(commits[1], trees[1], trees[2]);
    HeadPassesExactly(context, trees, commits, false);
    assert !StaysSo(context, added.path, trees[1], trees[2]);
  }

  /** The check asks for more than the net change: a line taken out and put back, which main gave up
      in the meantime, is reported although the branch's net change is empty. */
  lemma PutBackIsReported()
    ensures var context := Context((p, l) => l, l => l, {}, (p, l) => false, (p, n) => false, p => Fix);
      var line, path := "line", "file";
      var commits :=
        [Commit([Change(path, Modified, false, [Hunk([], [line])])], 0),
         Commit([Change(path, Modified, false, [Hunk([line], [])])], 0)];
      var trees := [map[path := [line]], map[path := []], map[path := [line]]];
      IsHistory(trees, commits) && !AllPass(context, commits, map[path := []], trees[2], false)
  {
    var context := Context((p, l) => l, l => l, {}, (p, l) => false, (p, n) => false, p => Fix);
    var line, path := "line", "file";
    var back := Change(path, Modified, false, [Hunk([line], [])]);
    var out := Change(path, Modified, false, [Hunk([], [line])]);
    assert back.hunks[..0] == [] && out.hunks[..0] == [];
    assert AddedIn([]) == [] && RemovedIn([]) == [];
    assert AddedIn(back.hunks) == [line] && RemovedIn(out.hunks) == [line];
    var commits := [Commit([out], 0), Commit([back], 0)];
    var main: Tree := map[path := []];
    var head: Tree := map[path := [line]];
    assert context.normalise(path, AddedIn(back.hunks)[0]) == line;
    assert line in Compared(context, path, AddedIn(back.hunks));
    assert !IsOnMain(context, back, main, head, 0);
    assert commits[1].changes[0] == back;
    assert !Passes(context, commits[1], 0, main, head, false);
    assert commits[0].changes[0] == out;
  }
}
