/** The release-branch check: each commit of the branch is compared with main, file by file. */
module ReleaseWindow {
  import opened Basics

  type Line = string

  // Reading a diff made with no context lines

  datatype Hunk = Hunk(added: seq<Line>, removed: seq<Line>)

  predicate StartsWith(line: Line, mark: string) { mark <= line }

  datatype Reading = Reading(hunks: seq<Hunk>, added: seq<Line>, removed: seq<Line>, inHunk: bool) {
    /** The hunks, the one being read among them. */
    function Closed(): seq<Hunk> { if inHunk then hunks + [Hunk(added, removed)] else hunks }

    function Next(line: Line): Reading {
      if StartsWith(line, "@@") then Reading(Closed(), [], [], true)
      else if inHunk && StartsWith(line, "+") then this.(added := added + [line[1..]])
      else if inHunk && StartsWith(line, "-") then this.(removed := removed + [line[1..]])
      else this
    }
  }

  const UNREAD := Reading([], [], [], false)

  function ReadLines(r: Reading, diff: seq<Line>): Reading
    decreases |diff|
  {
    if diff == [] then r else ReadLines(r, diff[..|diff| - 1]).Next(diff[|diff| - 1])
  }

  method ParseHunkGroups(diff: seq<Line>) returns (hunks: seq<Hunk>)
    ensures hunks == ReadLines(UNREAD, diff).Closed()
  {
    hunks := [];
    var added, removed, inHunk := [], [], false;
    for n := 0 to |diff|
      invariant Reading(hunks, added, removed, inHunk) == ReadLines(UNREAD, diff[..n])
    {
      var line := diff[n];
      assert diff[..n + 1][..n] == diff[..n];
      if StartsWith(line, "@@") {
        if inHunk {
          hunks := hunks + [Hunk(added, removed)];
        }
        added, removed := [], [];
        inHunk := true;
      } else if inHunk && StartsWith(line, "+") {
        added := added + [line[1..]];
      } else if inHunk && StartsWith(line, "-") {
        removed := removed + [line[1..]];
      }
    }
    assert diff[..|diff|] == diff;
    if inHunk {
      hunks := hunks + [Hunk(added, removed)];
    }
  }

  function Marked(mark: char, lines: seq<Line>): seq<Line> {
    seq(|lines|, i requires 0 <= i < |lines| => [mark] + lines[i])
  }

  /** A hunk as a diff writes it: its header, the lines removed, then the lines added. */
  function WrittenHunk(header: Line, h: Hunk): seq<Line> {
    [header] + Marked('-', h.removed) + Marked('+', h.added)
  }

  function Written(headers: seq<Line>, hunks: seq<Hunk>): seq<Line>
    requires |headers| == |hunks|
    decreases |hunks|
  {
    if hunks == [] then []
    else
      Written(headers[..|headers| - 1], hunks[..|hunks| - 1])
      + WrittenHunk(headers[|headers| - 1], hunks[|hunks| - 1])
  }

  lemma {:induction false} ReadOn(r: Reading, a: seq<Line>, b: seq<Line>)
    ensures ReadLines(r, a + b) == ReadLines(ReadLines(r, a), b)
    decreases |b|
  {
    if b == [] {
      assert a + b == a;
    } else {
      ReadOn(r, a, b[..|b| - 1]);
      assert (a + b)[..|a + b| - 1] == a + b[..|b| - 1];
    }
  }

  lemma {:induction false} MetadataIsSkipped(meta: seq<Line>)
    requires forall i :: 0 <= i < |meta| ==> !StartsWith(meta[i], "@@")
    ensures ReadLines(UNREAD, meta) == UNREAD
    decreases |meta|
  {
    if meta != [] { MetadataIsSkipped(meta[..|meta| - 1]); }
  }

  lemma {:induction false} MarkedAreRead(r: Reading, mark: char, lines: seq<Line>)
    requires r.inHunk && mark in {'+', '-'}
    ensures ReadLines(r, Marked(mark, lines)) ==
      if mark == '+' then r.(added := r.added + lines) else r.(removed := r.removed + lines)
    decreases |lines|
  {
    if lines == [] {
      assert r.added + [] == r.added && r.removed + [] == r.removed;
    } else {
      var n := |lines| - 1;
      MarkedAreRead(r, mark, lines[..n]);
      assert Marked(mark, lines)[..n] == Marked(mark, lines[..n]);
      assert lines == lines[..n] + [lines[n]];
      assert Marked(mark, lines)[n][1..] == lines[n] && Marked(mark, lines)[n][0] == mark;
    }
  }

  lemma HunkIsRead(r: Reading, header: Line, h: Hunk)
    requires StartsWith(header, "@@")
    ensures ReadLines(r, WrittenHunk(header, h)) == Reading(r.Closed(), h.added, h.removed, true)
  {
    var begun := Reading(r.Closed(), [], [], true);
    assert [header][..0] == [];
    assert ReadLines(r, [header]) == begun;
    ReadOn(r, [header], Marked('-', h.removed));
    MarkedAreRead(begun, '-', h.removed);
    ReadOn(r, [header] + Marked('-', h.removed), Marked('+', h.added));
    MarkedAreRead(begun.(removed := h.removed), '+', h.added);
    assert [] + h.added == h.added && [] + h.removed == h.removed;
  }

  /** A diff is read back as the hunks it was written from, whatever their lines begin with. */
  lemma {:induction false} WrittenIsRead(meta: seq<Line>, headers: seq<Line>, hunks: seq<Hunk>)
    requires |headers| == |hunks| && (forall i :: 0 <= i < |headers| ==> StartsWith(headers[i], "@@"))
    requires forall i :: 0 <= i < |meta| ==> !StartsWith(meta[i], "@@")
    ensures ReadLines(UNREAD, meta + Written(headers, hunks)).Closed() == hunks
    decreases |hunks|
  {
    if hunks == [] {
      MetadataIsSkipped(meta);
      assert meta + [] == meta;
    } else {
      var n := |hunks| - 1;
      WrittenIsRead(meta, headers[..n], hunks[..n]);
      var before, last := meta + Written(headers[..n], hunks[..n]), WrittenHunk(headers[n], hunks[n]);
      ReadOn(UNREAD, before, last);
      HunkIsRead(ReadLines(UNREAD, before), headers[n], hunks[n]);
      Regrouped(meta, Written(headers[..n], hunks[..n]), last);
      assert hunks == hunks[..n] + [hunks[n]];
    }
  }

  // Comparing one file of one commit

  datatype Status = Added | Modified | Deleted

  datatype Change = Change(path: string, status: Status, binary: bool, hunks: seq<Hunk>)

  /** A tree: its files, each as its lines. */
  type Tree = map<string, seq<Line>>

  datatype Kind = Fix | Record

  /** What is known of the whole branch: how a line is compared, how a path that main moved is
      written on main, and which files each excuse reaches. */
  datatype Context = Context(normalise: (string, Line) -> Line, substitute: Line -> Line, moves: set<string>,
    otherwise: (string, Line) -> bool, newer: (string, nat) -> bool, kind: string -> Kind)

  const MINIMUM_LENGTH := 3

  predicate Significant(line: Line) { |line| >= MINIMUM_LENGTH }

  function AddedIn(hunks: seq<Hunk>): seq<Line> {
    if hunks == [] then [] else AddedIn(hunks[..|hunks| - 1]) + hunks[|hunks| - 1].added
  }

  function RemovedIn(hunks: seq<Hunk>): seq<Line> {
    if hunks == [] then [] else RemovedIn(hunks[..|hunks| - 1]) + hunks[|hunks| - 1].removed
  }

  function Lines(tree: Tree, path: string): seq<Line> { if path in tree then tree[path] else [] }

  function Compared(context: Context, path: string, lines: seq<Line>): set<Line> {
    set i | 0 <= i < |lines| :: context.normalise(path, lines[i])
  }

  /** The added line is on main, or an excuse covers it: main has it with moved paths, the branch's
      head no longer has it, or one of the excuses for prose does. */
  predicate Accepted(context: Context, path: string, line: Line, main: set<Line>, head: set<Line>) {
    !Significant(line) || line in main || (context.substitute(line) != line && context.substitute(line) in main)
    || line !in head || context.otherwise(path, line)
  }

  predicate Gone(line: Line, main: set<Line>, head: set<Line>) {
    !Significant(line) || line !in main || line in head
  }

  datatype Finding = Finding(absent: seq<Line>, remaining: seq<Line>) | StillThere | NotAFile | Differs

  /** Main has the change. */
  predicate IsOnMain(context: Context, c: Change, main: Tree, head: Tree, time: nat) {
    if c.status.Deleted? then c.path !in main
    else if c.path !in main then c.path in context.moves
    else if c.binary then c.path in head && main[c.path] == head[c.path]
    else if context.newer(c.path, time) then true
    else
      var there, kept := Compared(context, c.path, main[c.path]), Compared(context, c.path, Lines(head, c.path));
      && (forall l :: l in Compared(context, c.path, AddedIn(c.hunks)) ==> Accepted(context, c.path, l, there, kept))
      && (forall l :: l in Compared(context, c.path, RemovedIn(c.hunks)) ==> Gone(l, there, kept))
  }

  lemma ComparedMore(context: Context, path: string, lines: seq<Line>, n: nat)
    requires n < |lines|
    ensures Compared(context, path, lines[..n + 1]) ==
      Compared(context, path, lines[..n]) + {context.normalise(path, lines[n])}
  {
    assert lines[..n + 1] == lines[..n] + [lines[n]];
    forall i | 0 <= i < n ensures context.normalise(path, lines[i]) in Compared(context, path, lines[..n]) {
      assert lines[..n][i] == lines[i];
    }
    forall i | 0 <= i < n ensures context.normalise(path, lines[i]) in Compared(context, path, lines[..n + 1]) {
      assert lines[..n + 1][i] == lines[i];
    }
    assert lines[..n + 1][n] == lines[n];
  }

  /** The added lines main lacks, and the removed lines it still has, each once. */
  method Missing(context: Context, c: Change, there: set<Line>, kept: set<Line>)
      returns (absent: seq<Line>, remaining: seq<Line>)
    ensures forall l :: l in absent <==>
      l in Compared(context, c.path, AddedIn(c.hunks)) && !Accepted(context, c.path, l, there, kept)
    ensures forall l :: l in remaining <==>
      l in Compared(context, c.path, RemovedIn(c.hunks)) && !Gone(l, there, kept)
    ensures forall i, j :: 0 <= i < j < |absent| ==> absent[i] != absent[j]
    ensures forall i, j :: 0 <= i < j < |remaining| ==> remaining[i] != remaining[j]
  {
    absent, remaining := [], [];
    var added, removed := AddedIn(c.hunks), RemovedIn(c.hunks);
    for n := 0 to |added|
      invariant forall l :: l in absent <==>
        l in Compared(context, c.path, added[..n]) && !Accepted(context, c.path, l, there, kept)
      invariant forall i, j :: 0 <= i < j < |absent| ==> absent[i] != absent[j]
    {
      var line := context.normalise(c.path, added[n]);
      ComparedMore(context, c.path, added, n);
      if !Accepted(context, c.path, line, there, kept) && line !in absent {
        absent := absent + [line];
      }
    }
    assert added[..|added|] == added;
    for n := 0 to |removed|
      invariant forall l :: l in remaining <==> l in Compared(context, c.path, removed[..n]) && !Gone(l, there, kept)
      invariant forall i, j :: 0 <= i < j < |remaining| ==> remaining[i] != remaining[j]
    {
      var line := context.normalise(c.path, removed[n]);
      ComparedMore(context, c.path, removed, n);
      if !Gone(line, there, kept) && line !in remaining {
        remaining := remaining + [line];
      }
    }
    assert removed[..|removed|] == removed;
  }

  method CompareChange(context: Context, c: Change, main: Tree, head: Tree, time: nat)
      returns (finding: Option<Finding>)
    ensures finding.None? <==> IsOnMain(context, c, main, head, time)
  {
    if c.status.Deleted? {
      return if c.path in main then Some(StillThere) else None;
    }
    if c.path !in main {
      return if c.path in context.moves then None else Some(NotAFile);
    }
    if c.binary {
      return if c.path in head && main[c.path] == head[c.path] then None else Some(Differs);
    }
    if context.newer(c.path, time) {
      return None;
    }
    var there, kept := Compared(context, c.path, main[c.path]), Compared(context, c.path, Lines(head, c.path));
    var absent, remaining := Missing(context, c, there, kept);
    assert absent != [] ==> absent[0] in absent;
    assert remaining != [] ==> remaining[0] in remaining;
    return if absent == [] && remaining == [] then None else Some(Finding(absent, remaining));
  }

  // The whole branch

  datatype Commit = Commit(changes: seq<Change>, time: nat)

  datatype Report = Report(path: string, kind: Kind, finding: Finding)

  /** Every commit of the branch is compared with main; only a file that is no work record fails
      the check unless records are asked for. */
  method CheckReleaseBranch(context: Context, commits: seq<Commit>, main: Tree, head: Tree, records: bool)
      returns (passes: bool)
    ensures passes <==> forall i, k :: 0 <= i < |commits| && 0 <= k < |commits[i].changes| ==>
      Passes(context, commits[i], k, main, head, records)
  {
    passes := true;
    for i := 0 to |commits|
      invariant passes <==> forall j, k :: 0 <= j < i && 0 <= k < |commits[j].changes| ==>
        Passes(context, commits[j], k, main, head, records)
    {
      var commit := commits[i];
      var clean := true;
      for k := 0 to |commit.changes|
        invariant clean <==> forall m :: 0 <= m < k ==> Passes(context, commit, m, main, head, records)
      {
        var finding := CompareChange(context, commit.changes[k], main, head, commit.time);
        if finding.Some? && (records || context.kind(commit.changes[k].path).Fix?) {
          clean := false;
        }
        assert Passes(context, commit, k, main, head, records) <==>
          finding.None? || !(records || context.kind(commit.changes[k].path).Fix?);
      }
      passes := passes && clean;
    }
  }

  predicate Passes(context: Context, commit: Commit, k: nat, main: Tree, head: Tree, records: bool)
    requires k < |commit.changes|
  {
    var c := commit.changes[k];
    IsOnMain(context, c, main, head, commit.time) || (!records && context.kind(c.path).Record?)
  }
}
