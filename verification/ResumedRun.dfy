/** A run that may be interrupted anywhere and continued from its checkpoints. Whatever checkpoints
    were lost, damaged or left by other runs, and whatever model answered in between, a run that
    comes to an end comes to the end of an uninterrupted one. */
module ResumedRun {
  import opened Basics
  import opened Spans
  import opened ChunkMerge
  import opened ChunkPlan
  import opened SpeechRun

  type Key = nat

  datatype Checkpoint = Checkpoint(key: Key, index: nat, window: TimeRange, outcome: Stored) {
    /** Whether the claimed audio can be the window's. */
    predicate Plausible() {
      outcome.NoAudio?
      || (outcome.audio.Overlaps(window) && outcome.audio.Length() <= window.Length() + MAX_AUDIO_SLACK_MICROS)
    }

    predicate BelongsTo(run: Key, at: nat, planned: TimeRange) {
      key == run && index == at && window == planned && Plausible()
    }
  }

  datatype File = Damaged | Intact(checkpoint: Checkpoint)
  datatype CheckpointRead = Absent | UnusableFile | Found(checkpoint: Checkpoint)

  /** Every checkpoint under the key holds what its window gives. */
  ghost predicate Truthful(world: World, key: Key, files: map<nat, File>) {
    forall i :: i in files && files[i].Intact? && files[i].checkpoint.key == key ==>
      files[i].checkpoint.outcome == Fresh(world, files[i].checkpoint.window).1
  }

  class Checkpoints {
    var files: map<nat, File>
    /** The chunks whose checkpoint cannot be written now: a full disk, a file held open. */
    var refuses: set<nat>

    constructor (initial: map<nat, File>, refused: set<nat>)
      ensures files == initial && refuses == refused
    {
      files, refuses := initial, refused;
    }

    /** Reads a checkpoint, removing it if its file is damaged. */
    method Load(index: nat) returns (read: CheckpointRead)
      modifies this`files
      ensures index !in old(files) ==> read == Absent && files == old(files)
      ensures index in old(files) && old(files)[index].Damaged? ==>
        read == UnusableFile && files == old(files) - {index}
      ensures index in old(files) && old(files)[index].Intact? ==>
        read == Found(old(files)[index].checkpoint) && files == old(files)
    {
      if index !in files { return Absent; }
      match files[index] {
        case Damaged =>
          files := files - {index};
          read := UnusableFile;
        case Intact(checkpoint) => read := Found(checkpoint);
      }
    }

    /** Stores a checkpoint, or fails and leaves what was there. */
    method Store(checkpoint: Checkpoint) returns (stored: bool)
      modifies this`files
      ensures stored <==> checkpoint.index !in refuses
      ensures files == if stored then old(files)[checkpoint.index := Intact(checkpoint)] else old(files)
    {
      stored := checkpoint.index !in refuses;
      if stored { files := files[checkpoint.index := Intact(checkpoint)]; }
    }

    /** Removes a checkpoint, best effort. */
    method Discard(index: nat)
      modifies this`files
      ensures files == old(files) || files == old(files) - {index}
    {
      if * { files := files - {index}; }
    }

    /** What happens between runs: files are lost, damaged, or left by runs of other keys, and other
        files cannot be written. */
    method Suffer(mishap: Mishap)
      modifies this
      ensures files == (old(files) - mishap.lost) + mishap.damaged && refuses == mishap.refuses
    {
      files, refuses := (files - mishap.lost) + mishap.damaged, mishap.refuses;
    }
  }

  /** What befalls the store between two attempts, and whether the attempt after it is left alone. */
  datatype Mishap = Mishap(lost: set<nat>, damaged: map<nat, File>, refuses: set<nat>, calm: bool)

  /** Answers kept by runs of the same recognition, by window. */
  class Seed {
    var kept: map<(Key, TimeRange), Stored>

    constructor (initial: map<(Key, TimeRange), Stored>)
      ensures kept == initial
    {
      kept := initial;
    }

    /** Keeps an answer, best effort: a full seed keeps nothing more. */
    method Keep(key: Key, window: TimeRange, outcome: Stored)
      modifies this
      ensures kept == old(kept) || kept == old(kept)[(key, window) := outcome]
    {
      if * { kept := kept[(key, window) := outcome]; }
    }

    method Find(key: Key, window: TimeRange) returns (found: Option<Stored>)
      ensures found == if (key, window) in kept then Some(kept[(key, window)]) else None
    {
      found := if (key, window) in kept then Some(kept[(key, window)]) else None;
    }
  }

  ghost predicate TruthfulSeed(world: World, key: Key, kept: map<(Key, TimeRange), Stored>) {
    forall window :: (key, window) in kept ==> kept[(key, window)] == Fresh(world, window).1
  }

  datatype Failure = Cancelled | AudioFailed | RecognitionFailed | ModelChanged | IdentityUnreadable | Killed
  datatype Result<T> = Done(value: T) | Failed(failure: Failure)
  datatype Usage = Usage(reused: nat, discarded: nat)

  /** How a chunk's outcome came to the run, and whether a checkpoint of it is in the store. */
  datatype Step = FromCheckpoint | FromSeed(stored: bool) | FromRecogniser(stored: bool)

  datatype Obtained = Obtained(result: ChunkResult, outcome: Stored, step: Step)

  /** The outcome of a chunk is the one an uninterrupted run gives it. */
  ghost predicate Right(world: World, window: TimeRange, obtained: Obtained) {
    (obtained.result, obtained.outcome) == Fresh(world, window)
  }

  /** Whether the step left the chunk's checkpoint in the store. */
  predicate Keeps(step: Step) { step.FromCheckpoint? || step.stored }

  ghost predicate IsKept(files: map<nat, File>, key: Key, index: nat, window: TimeRange, outcome: Stored) {
    index in files && files[index] == Intact(Checkpoint(key, index, window, outcome))
  }

  /** The files of other chunks are left alone. */
  ghost predicate OnlyChanges(before: map<nat, File>, after: map<nat, File>, index: nat) {
    forall i :: i != index ==> (i in before <==> i in after) && (i in before ==> before[i] == after[i])
  }

  /** The seed knows the chunk's window. */
  predicate Seeded(seed: Seed?, key: Key, window: TimeRange)
    reads seed
  {
    seed != null && (key, window) in seed.kept
  }

  /** The answer another run kept for the window, stored as this run's own checkpoint. That it could
      not be stored changes nothing here. */
  method SeededAnswer(
    world: World, store: Checkpoints, seed: Seed?, seedKey: Key, key: Key, index: nat, window: TimeRange)
    returns (obtained: Option<Obtained>)
    requires Truthful(world, key, store.files) && (seed != null ==> TruthfulSeed(world, seedKey, seed.kept))
    modifies store`files
    ensures Truthful(world, key, store.files) && OnlyChanges(old(store.files), store.files, index)
    ensures obtained.Some? <==> Seeded(seed, seedKey, window)
    ensures obtained.Some? ==>
      Right(world, window, obtained.value) && obtained.value.step == FromSeed(index !in store.refuses)
    ensures obtained.Some? && Keeps(obtained.value.step) ==>
      IsKept(store.files, key, index, window, obtained.value.outcome)
    ensures obtained.None? || index in store.refuses ==> store.files == old(store.files)
  {
    if seed == null { return None; }
    var found := seed.Find(seedKey, window);
    if found.None? { return None; }
    var result := StoredResult(world, window, found.value);
    StoredIsReadBack(world, window);
    if result.None? { return None; }
    var stored := store.Store(Checkpoint(key, index, window, found.value));
    return Some(Obtained(result.value, found.value, FromSeed(stored)));
  }

  /** The chunk's stored outcome, if a usable checkpoint of this run, or the seed, holds it. */
  method ReuseCheckpoint(
    world: World, store: Checkpoints, seed: Seed?, seedKey: Key, key: Key, index: nat, window: TimeRange, usage: Usage)
    returns (obtained: Option<Obtained>, used: Usage)
    requires Truthful(world, key, store.files) && (seed != null ==> TruthfulSeed(world, seedKey, seed.kept))
    modifies store`files
    ensures Truthful(world, key, store.files) && OnlyChanges(old(store.files), store.files, index)
    ensures obtained.Some? ==> Right(world, window, obtained.value)
    ensures IsReused(
      StepDue(key, old(store.files), store.refuses, Seeded(seed, seedKey, window), index, window), obtained)
    ensures obtained.Some? && Keeps(obtained.value.step) ==>
      IsKept(store.files, key, index, window, obtained.value.outcome)
    ensures obtained.Some? && !Keeps(obtained.value.step) ==> index !in store.files
    ensures used.reused == usage.reused + if obtained.Some? then 1 else 0
    ensures used.discarded == usage.discarded
      + if index in old(store.files) && !IsUsable(old(store.files), key, index, window) then 1 else 0
  {
    var read := store.Load(index);
    match read {
      case Absent =>
        obtained := SeededAnswer(world, store, seed, seedKey, key, index, window);
        used := if obtained.Some? then usage.(reused := usage.reused + 1) else usage;
      case UnusableFile =>
        obtained, used := None, usage.(discarded := usage.discarded + 1);
      case Found(checkpoint) =>
        obtained := None;
        if checkpoint.BelongsTo(key, index, window) {
          var result := StoredResult(world, window, checkpoint.outcome);
          StoredIsReadBack(world, window);
          if result.Some? { obtained := Some(Obtained(result.value, checkpoint.outcome, FromCheckpoint)); }
        }
        if obtained.Some? {
          used := usage.(reused := usage.reused + 1);
        } else {
          store.Discard(index);
          used := usage.(discarded := usage.discarded + 1);
        }
    }
  }

  /** The chunk's file holds a checkpoint of this run and this chunk. */
  predicate IsUsable(files: map<nat, File>, key: Key, index: nat, window: TimeRange) {
    index in files && files[index].Intact? && files[index].checkpoint.BelongsTo(key, index, window)
  }

  /** How a chunk's outcome must come to the run: its own checkpoint is always used; a chunk without a
      file is taken from the seed whenever the seed knows it; nothing else is. */
  function StepDue(
      key: Key, files: map<nat, File>, refuses: set<nat>, seeded: bool, index: nat, window: TimeRange): Step {
    if IsUsable(files, key, index, window) then FromCheckpoint
    else if index !in files && seeded then FromSeed(index !in refuses)
    else FromRecogniser(index !in refuses)
  }

  /** What is reused is what must be. */
  ghost predicate IsReused(due: Step, obtained: Option<Obtained>) {
    if due.FromRecogniser? then obtained.None? else obtained.Some? && obtained.value.step == due
  }

  /** Whether the run is stopped here: never while it is left alone. */
  method Interrupted(calm: bool) returns (stop: bool)
    ensures calm ==> !stop
  {
    stop := *;
    stop := stop && !calm;
  }

  /** The recogniser's answer; another model's, if one was swapped in. */
  method Recognise(world: World, window: TimeRange, samples: seq<int>, calm: bool)
    returns (answer: Result<ProviderOutput>, swapped: bool)
    ensures answer.Done? && !swapped ==> answer.value == world.answer(window, samples)
    ensures calm ==> answer.Done? && !swapped
  {
    swapped := *;
    swapped := swapped && !calm;
    var stop := Interrupted(calm);
    if stop { return Failed(RecognitionFailed), swapped; }
    var other: ProviderOutput := *;
    return Done(if swapped then other else world.answer(window, samples)), swapped;
  }

  /** Reads the recogniser's identity again: a model swapped in, and still there, never passes for
      the expected one. */
  method EnsureIdentity(swapped: bool, calm: bool) returns (same: Result<()>)
    ensures same.Done? ==> !swapped
    ensures calm && !swapped ==> same.Done?
  {
    if swapped { return Failed(ModelChanged); }
    var stop := Interrupted(calm);
    if stop { return Failed(IdentityUnreadable); }
    return Done(());
  }

  /** Decodes and, unless there is nothing to recognise, recognises one chunk. */
  method FreshChunk(world: World, window: TimeRange, calm: bool)
    returns (outcome: Result<(ChunkResult, Stored)>, swapped: bool)
    ensures outcome.Done? && !(swapped && outcome.value.1.Answered()) ==> outcome.value == Fresh(world, window)
    ensures calm ==> outcome.Done? && !swapped
  {
    swapped := false;
    if BelowFloor(window) { return Done((Gap, NoAudio)), false; }
    var stop := Interrupted(calm);
    if stop { return Failed(AudioFailed), false; }
    match world.decode(window) {
      case NoAudioDecoded => return Done((Gap, NoAudio)), false;
      case Pcm(start, samples) =>
        var decoded := DecodedRange(start, |samples|);
        if decoded.None? { return Done((Gap, NoAudio)), false; }
        if |samples| < MIN_RECOGNITION_SAMPLES || world.silent(samples) {
          return Done((SilentGap(decoded.value), Silent(decoded.value))), false;
        }
        stop := Interrupted(calm);
        if stop { return Failed(Cancelled), false; }
        var answer;
        answer, swapped := Recognise(world, window, samples, calm);
        if answer.Failed? { return Failed(answer.failure), swapped; }
        return Done(Judged(world, window, decoded.value, answer.value)), swapped;
    }
  }

  datatype Run = Run(ending: Result<Ending>, usage: Usage, allCheckpointed: bool, steps: seq<Step>)

  /** The flag a run publishes by: cleared only when a fresh answer could not be stored. */
  predicate AllCheckpointed(steps: seq<Step>) {
    forall i :: 0 <= i < |steps| && steps[i].FromRecogniser? ==> steps[i].stored
  }

  /** The chunk's checkpoint is in the store, and it is the one an uninterrupted run makes. */
  ghost predicate InStore(world: World, key: Key, windows: seq<TimeRange>, files: map<nat, File>, i: nat)
    requires i < |windows|
  {
    IsKept(files, key, i, windows[i], Fresh(world, windows[i]).1)
  }

  /** A chunk whose step kept it is in the store; one taken from the seed and not stored is not. */
  ghost predicate StoreTells(
    world: World, key: Key, windows: seq<TimeRange>, files: map<nat, File>, steps: seq<Step>)
    requires |steps| <= |windows|
  {
    && (forall i :: 0 <= i < |steps| && Keeps(steps[i]) ==> InStore(world, key, windows, files, i))
    && (forall i :: 0 <= i < |steps| && steps[i] == FromSeed(false) ==> i !in files)
  }

  function ReusedBy(steps: seq<Step>): nat {
    if steps == [] then 0
    else ReusedBy(steps[..|steps| - 1]) + if steps[|steps| - 1].FromRecogniser? then 0 else 1
  }

  /** A chunk without a usable checkpoint: recognised, its answer kept only while the model that
      gave it is still the expected one. */
  method RecogniseChunk(
    world: World, store: Checkpoints, seed: Seed?, seedKey: Key, key: Key, index: nat, window: TimeRange, calm: bool)
    returns (obtained: Result<Obtained>)
    requires Truthful(world, key, store.files) && (seed != null ==> TruthfulSeed(world, seedKey, seed.kept))
    modifies store`files, if seed == null then {} else {seed}
    ensures seed != null ==>
      TruthfulSeed(world, seedKey, seed.kept) && OnlyAdds(old(seed.kept), seed.kept, (seedKey, window))
    ensures Truthful(world, key, store.files) && OnlyChanges(old(store.files), store.files, index)
    ensures obtained.Done? ==>
      Right(world, window, obtained.value) && obtained.value.step == FromRecogniser(index !in store.refuses)
    ensures obtained.Done? && Keeps(obtained.value.step) ==>
      IsKept(store.files, key, index, window, obtained.value.outcome)
    ensures calm ==> obtained.Done?
  {
    var answer, swapped := FreshChunk(world, window, calm);
    if answer.Failed? { return Failed(answer.failure); }
    if answer.value.1.Answered() {
      var same := EnsureIdentity(swapped, calm);
      if same.Failed? { return Failed(same.failure); }
    }
    if seed != null { seed.Keep(seedKey, window, answer.value.1); }
    var stop := Interrupted(calm);
    if stop { return Failed(Killed); }
    var stored := store.Store(Checkpoint(key, index, window, answer.value.1));
    stop := Interrupted(calm);
    if stop { return Failed(Killed); }
    return Done(Obtained(answer.value.0, answer.value.1, FromRecogniser(stored)));
  }

  /** Nothing is forgotten, and at most the one entry is new. */
  ghost predicate OnlyAdds(
    before: map<(Key, TimeRange), Stored>, after: map<(Key, TimeRange), Stored>, entry: (Key, TimeRange))
  {
    before.Keys <= after.Keys <= before.Keys + {entry}
  }

  /** The windows whose answer the seed holds. */
  ghost function KnownTo(seed: Seed?, key: Key): set<TimeRange>
    reads seed
  {
    if seed == null then {} else KnownIn(seed.kept, key)
  }

  ghost function KnownIn(kept: map<(Key, TimeRange), Stored>, key: Key): set<TimeRange> {
    set entry | entry in kept && entry.0 == key :: entry.1
  }

  lemma KnownIsSeeded(kept: map<(Key, TimeRange), Stored>, key: Key, window: TimeRange)
    ensures window in KnownIn(kept, key) <==> (key, window) in kept
  {
    if (key, window) in kept { assert (key, window).1 == window; }
  }

  lemma KnownAdds(
    before: map<(Key, TimeRange), Stored>, after: map<(Key, TimeRange), Stored>, key: Key, window: TimeRange)
    requires OnlyAdds(before, after, (key, window))
    ensures KnownIn(before, key) <= KnownIn(after, key) <= KnownIn(before, key) + {window}
  {
  }

  /** Whether the chunk's file is of no use, and removed. */
  function Discards(key: Key, files: map<nat, File>, index: nat, window: TimeRange): nat {
    if index in files && !IsUsable(files, key, index, window) then 1 else 0
  }

  function AllDiscards(key: Key, files: map<nat, File>, windows: seq<TimeRange>, n: nat): nat
    requires n <= |windows|
  {
    if n == 0 then 0 else AllDiscards(key, files, windows, n - 1) + Discards(key, files, n - 1, windows[n - 1])
  }

  /** One chunk of the run, from its checkpoint, the seed, or the recogniser. */
  method ObtainChunk(
    world: World, store: Checkpoints, seed: Seed?, seedKey: Key, key: Key, index: nat, window: TimeRange, usage: Usage,
    calm: bool)
    returns (obtained: Result<Obtained>, used: Usage)
    requires Truthful(world, key, store.files) && (seed != null ==> TruthfulSeed(world, seedKey, seed.kept))
    modifies store`files, if seed == null then {} else {seed}
    ensures Truthful(world, key, store.files) && OnlyChanges(old(store.files), store.files, index)
    ensures seed != null ==> TruthfulSeed(world, seedKey, seed.kept)
    ensures old(KnownTo(seed, seedKey)) <= KnownTo(seed, seedKey) <= old(KnownTo(seed, seedKey)) + {window}
    ensures obtained.Done? ==> Right(world, window, obtained.value)
    ensures obtained.Done? && Keeps(obtained.value.step) ==>
      IsKept(store.files, key, index, window, obtained.value.outcome)
    ensures obtained.Done? ==>
      obtained.value.step
      == StepDue(key, old(store.files), store.refuses, window in old(KnownTo(seed, seedKey)), index, window)
    ensures obtained.Done? ==>
      used.discarded == usage.discarded + Discards(key, old(store.files), index, window)
    ensures obtained.Done? && obtained.value.step == FromSeed(false) ==> index !in store.files
    ensures obtained.Done? ==> used.reused == usage.reused + if obtained.value.step.FromRecogniser? then 0 else 1
    ensures calm ==> obtained.Done?
  {
    var stop := Interrupted(calm);
    if stop { return Failed(Cancelled), usage; }
    ghost var kept := if seed == null then map[] else seed.kept;
    KnownIsSeeded(kept, seedKey, window);
    var reused;
    reused, used := ReuseCheckpoint(world, store, seed, seedKey, key, index, window, usage);
    stop := Interrupted(calm);
    if stop { return Failed(Killed), used; }
    if reused.Some? {
      if seed != null { seed.Keep(seedKey, window, reused.value.outcome); }
      obtained := Done(reused.value);
    } else {
      obtained := RecogniseChunk(world, store, seed, seedKey, key, index, window, calm);
    }
    if seed != null { KnownAdds(kept, seed.kept, seedKey, window); }
  }

  lemma StoreTellsMore(
    world: World, key: Key, windows: seq<TimeRange>, before: map<nat, File>, after: map<nat, File>, steps: seq<Step>,
    obtained: Obtained)
    requires |steps| < |windows| && StoreTells(world, key, windows, before, steps)
    requires OnlyChanges(before, after, |steps|) && Right(world, windows[|steps|], obtained)
    requires Keeps(obtained.step) ==> IsKept(after, key, |steps|, windows[|steps|], obtained.outcome)
    requires obtained.step == FromSeed(false) ==> |steps| !in after
    ensures StoreTells(world, key, windows, after, steps + [obtained.step])
  {
    StillTells(world, key, windows, before, after, steps);
    var more := steps + [obtained.step];
    forall i | 0 <= i < |more| && Keeps(more[i]) ensures InStore(world, key, windows, after, i) {
      if i < |steps| { assert InStore(world, key, windows, after, i); }
    }
  }

  lemma StillTells(
    world: World, key: Key, windows: seq<TimeRange>, before: map<nat, File>, after: map<nat, File>, steps: seq<Step>)
    requires |steps| < |windows| && StoreTells(world, key, windows, before, steps)
    requires OnlyChanges(before, after, |steps|)
    ensures StoreTells(world, key, windows, after, steps)
  {
    forall i | 0 <= i < |steps| && Keeps(steps[i]) ensures InStore(world, key, windows, after, i) {
      assert InStore(world, key, windows, before, i) && i != |steps|;
    }
  }

  lemma OneMoreStep(steps: seq<Step>, step: Step)
    ensures AllCheckpointed(steps + [step]) <==> AllCheckpointed(steps) && (step.FromRecogniser? ==> step.stored)
    ensures ReusedBy(steps + [step]) == ReusedBy(steps) + if step.FromRecogniser? then 0 else 1
  {
    var more := steps + [step];
    assert more[..|more| - 1] == steps && more[|steps|] == step;
    if AllCheckpointed(more) {
      forall i | 0 <= i < |steps| && steps[i].FromRecogniser? ensures steps[i].stored { assert more[i] == steps[i]; }
    }
  }

  /** The chunks the seed knew beforehand, whose file was absent and could not be written. */
  ghost predicate SeededUnwritable(
    files: map<nat, File>, refuses: set<nat>, seeded: set<TimeRange>, windows: seq<TimeRange>, i: nat)
    requires i < |windows|
  {
    i !in files && windows[i] in seeded && i in refuses
  }

  /** The first `n` chunks are all in the store. */
  ghost predicate AllInStore(world: World, key: Key, windows: seq<TimeRange>, files: map<nat, File>, n: nat)
    requires n <= |windows|
  {
    forall i :: 0 <= i < n ==> InStore(world, key, windows, files, i)
  }

  /** None of the first `n` chunks was known to the seed, had no file, and could not be written. */
  ghost predicate NoneUnwritable(
    files: map<nat, File>, refuses: set<nat>, seeded: set<TimeRange>, windows: seq<TimeRange>, n: nat)
    requires n <= |windows|
  {
    forall i :: 0 <= i < n ==> !SeededUnwritable(files, refuses, seeded, windows, i)
  }

  predicate Distinct(windows: seq<TimeRange>) {
    forall i, j :: 0 <= i < j < |windows| ==> windows[i] != windows[j]
  }

  /** The files of chunks not yet reached are as they were. */
  ghost predicate AheadIsUntouched(before: map<nat, File>, after: map<nat, File>, n: nat) {
    forall i :: i >= n ==> (i in before <==> i in after) && (i in before ==> before[i] == after[i])
  }

  /** Every chunk came to the run as it must, from what there was when the run began. */
  ghost predicate StepsTell(
    key: Key, files: map<nat, File>, refuses: set<nat>, seeded: set<TimeRange>, windows: seq<TimeRange>,
    steps: seq<Step>)
    requires |steps| <= |windows|
  {
    forall i :: 0 <= i < |steps| ==> steps[i] == StepDue(key, files, refuses, windows[i] in seeded, i, windows[i])
  }

  /** The seed has learnt nothing but the windows passed. */
  ghost predicate Learnt(before: set<TimeRange>, now: set<TimeRange>, windows: seq<TimeRange>, n: nat)
    requires n <= |windows|
  {
    before <= now && forall w :: w in now && w !in before ==> w in windows[..n]
  }

  lemma LearntMore(before: set<TimeRange>, now: set<TimeRange>, after: set<TimeRange>, windows: seq<TimeRange>, n: nat)
    requires n < |windows| && Learnt(before, now, windows, n) && now <= after <= now + {windows[n]}
    ensures Learnt(before, after, windows, n + 1)
  {
    assert windows[..n + 1] == windows[..n] + [windows[n]];
  }

  lemma NotPassed(windows: seq<TimeRange>, n: nat)
    requires n < |windows| && Distinct(windows)
    ensures windows[n] !in windows[..n]
  {
  }

  /** Runs the planned chunks. Unless it is left alone it may fail, be cancelled or be killed at any
      point; what it stores is always true, and if it comes to an end that is the end of a run
      without checkpoints. Left alone, it comes to an end. The last clause is what the flag is
      worth: when it is set, every finished chunk is in the store exactly when none of them was
      known to the seed, had no file, and could not be written. */
  method RunChunks(
    world: World, windows: seq<TimeRange>, store: Checkpoints, key: Key, seed: Seed?, seedKey: Key, calm: bool)
    returns (run: Run)
    requires Truthful(world, key, store.files) && (seed != null ==> TruthfulSeed(world, seedKey, seed.kept))
    modifies store`files, if seed == null then {} else {seed}
    ensures Truthful(world, key, store.files) && (seed != null ==> TruthfulSeed(world, seedKey, seed.kept))
    ensures calm ==> run.ending.Done?
    ensures run.ending.Done? ==> run.ending.value == Uninterrupted(world, windows, 0, NOTHING)
    ensures run.ending.Done? ==> EndingTells(windows, FreshResults(world, windows), run.ending.value)
    ensures |run.steps| <= |windows| && run.allCheckpointed == AllCheckpointed(run.steps)
    ensures run.ending.Done? && windows != [] ==> run.steps != []
    ensures StoreTells(world, key, windows, store.files, run.steps)
    ensures run.ending.Done? ==> run.usage.reused == ReusedBy(run.steps)
    ensures run.ending.Done? ==> run.usage.discarded == AllDiscards(key, old(store.files), windows, |run.steps|)
    ensures Distinct(windows) ==>
      StepsTell(key, old(store.files), store.refuses, old(KnownTo(seed, seedKey)), windows, run.steps)
    ensures seed == null && run.allCheckpointed ==> AllInStore(world, key, windows, store.files, |run.steps|)
    ensures run.allCheckpointed && Distinct(windows) ==>
      (AllInStore(world, key, windows, store.files, |run.steps|)
       <==> NoneUnwritable(old(store.files), store.refuses, old(KnownTo(seed, seedKey)), windows, |run.steps|))
  {
    var identified := EnsureIdentity(false, calm);
    if identified.Failed? {
      return Run(Failed(identified.failure), Usage(0, 0), true, []);
    }
    ghost var files, known := store.files, KnownTo(seed, seedKey);
    ghost var start := Start(world, key, windows, files, store.refuses, known);
    run := RunEach(world, windows, store, key, seed, seedKey, calm, start);
    RunGathers(world, windows);
    if run.allCheckpointed {
      FlagIsWorth(world, key, windows, files, store.files, store.refuses, known, run.steps);
    }
  }

  /** Runs the chunks one after the other. */
  method RunEach(
    world: World, windows: seq<TimeRange>, store: Checkpoints, key: Key, seed: Seed?, seedKey: Key, calm: bool,
    ghost start: Start)
    returns (run: Run)
    requires start == Start(world, key, windows, store.files, store.refuses, KnownTo(seed, seedKey))
    requires Truthful(world, key, store.files) && (seed != null ==> TruthfulSeed(world, seedKey, seed.kept))
    modifies store`files, if seed == null then {} else {seed}
    ensures Truthful(world, key, store.files) && (seed != null ==> TruthfulSeed(world, seedKey, seed.kept))
    ensures calm ==> run.ending.Done?
    ensures run.ending.Done? ==> run.ending.value == Uninterrupted(world, windows, 0, NOTHING)
    ensures |run.steps| <= |windows| && run.allCheckpointed == AllCheckpointed(run.steps)
    ensures run.ending.Done? && windows != [] ==> run.steps != []
    ensures Agrees(start, store.files, seed == null, run.steps)
    ensures run.ending.Done? ==> run.usage.reused == ReusedBy(run.steps)
    ensures run.ending.Done? ==> run.usage.discarded == AllDiscards(key, old(store.files), windows, |run.steps|)
  {
    var gathered := new Gathered();
    var usage, allCheckpointed, steps: seq<Step> := Usage(0, 0), true, [];
    ghost var ending := Uninterrupted(world, windows, 0, NOTHING);
    while |steps| < |windows|
      invariant |steps| <= |windows| && fresh(gathered)
      invariant Truthful(world, key, store.files) && (seed != null ==> TruthfulSeed(world, seedKey, seed.kept))
      invariant ending == Uninterrupted(world, windows, |steps|, gathered.Value())
      invariant allCheckpointed == AllCheckpointed(steps) && usage.reused == ReusedBy(steps)
      invariant usage.discarded == AllDiscards(key, start.files, windows, |steps|)
      invariant Tallies(start, store.files, KnownTo(seed, seedKey), steps)
    {
      var step, verdict;
      step, usage, verdict := TakeNext(world, windows, store, key, seed, seedKey, steps, usage, gathered, start, calm);
      if step.Failed? {
        return Run(Failed(step.failure), usage, allCheckpointed, steps);
      }
      allCheckpointed := allCheckpointed && (step.value.FromRecogniser? ==> step.value.stored);
      steps := steps + [step.value];
      if verdict.Some? {
        TalliesAgree(start, store.files, KnownTo(seed, seedKey), seed == null, steps);
        return Run(Done(GaveUp(verdict.value)), usage, allCheckpointed, steps);
      }
    }
    TalliesAgree(start, store.files, KnownTo(seed, seedKey), seed == null, steps);
    return Run(Done(Finished(gathered.Value())), usage, allCheckpointed, steps);
  }

  lemma TalliesAgree(start: Start, files: map<nat, File>, knows: set<TimeRange>, unseeded: bool, steps: seq<Step>)
    requires |steps| <= |start.windows| && Tallies(start, files, knows, steps) && (unseeded ==> knows == {})
    ensures Agrees(start, files, unseeded, steps)
  {
  }

  /** Takes the chunk after those of `steps` as an uninterrupted run does, and says whether the run
      gives up with it. */
  method TakeNext(
    world: World, windows: seq<TimeRange>, store: Checkpoints, key: Key, seed: Seed?, seedKey: Key, steps: seq<Step>,
    usage: Usage, gathered: Gathered, ghost start: Start, calm: bool)
    returns (step: Result<Step>, used: Usage, verdict: Option<Malformed>)
    requires |steps| < |windows| && start.world == world && start.windows == windows && start.key == key
    requires start.refuses == store.refuses && usage.reused == ReusedBy(steps)
    requires usage.discarded == AllDiscards(key, start.files, windows, |steps|)
    requires Truthful(world, key, store.files) && (seed != null ==> TruthfulSeed(world, seedKey, seed.kept))
    requires Tallies(start, store.files, KnownTo(seed, seedKey), steps)
    modifies store`files, if seed == null then {} else {seed}, gathered
    ensures Truthful(world, key, store.files) && (seed != null ==> TruthfulSeed(world, seedKey, seed.kept))
    ensures step.Done? ==> Tallies(start, store.files, KnownTo(seed, seedKey), steps + [step.value])
    ensures step.Done? ==> used.reused == ReusedBy(steps + [step.value])
    ensures step.Done? ==> used.discarded == AllDiscards(key, start.files, windows, |steps| + 1)
    ensures step.Done? ==>
      (AllCheckpointed(steps + [step.value])
       <==> AllCheckpointed(steps) && (step.value.FromRecogniser? ==> step.value.stored))
    ensures step.Done? ==>
      old(Uninterrupted(world, windows, |steps|, gathered.Value()))
      == if verdict.Some? then GaveUp(verdict.value)
         else Uninterrupted(world, windows, |steps| + 1, gathered.Value())
    ensures step.Failed? ==> Agrees(start, store.files, seed == null, steps)
    ensures calm ==> step.Done?
  {
    verdict := None;
    var obtained;
    obtained, used := ObtainNext(world, windows, store, key, seed, seedKey, steps, usage, start, calm);
    if obtained.Failed? { return Failed(obtained.failure), used, verdict; }
    gathered.Take(|steps|, windows[|steps|], obtained.value.result);
    step, verdict := Done(obtained.value.step), Verdict(gathered.Value(), |windows|, |steps| + 1);
  }

  /** Obtains the chunk after those of `steps`, and keeps the tally of the store. */
  method ObtainNext(
    world: World, windows: seq<TimeRange>, store: Checkpoints, key: Key, seed: Seed?, seedKey: Key, steps: seq<Step>,
    usage: Usage, ghost start: Start, calm: bool)
    returns (obtained: Result<Obtained>, used: Usage)
    requires |steps| < |windows| && start.world == world && start.windows == windows && start.key == key
    requires start.refuses == store.refuses && usage.reused == ReusedBy(steps)
    requires usage.discarded == AllDiscards(key, start.files, windows, |steps|)
    requires Truthful(world, key, store.files) && (seed != null ==> TruthfulSeed(world, seedKey, seed.kept))
    requires Tallies(start, store.files, KnownTo(seed, seedKey), steps)
    modifies store`files, if seed == null then {} else {seed}
    ensures Truthful(world, key, store.files) && (seed != null ==> TruthfulSeed(world, seedKey, seed.kept))
    ensures obtained.Done? ==> Right(world, windows[|steps|], obtained.value)
    ensures obtained.Done? ==> Tallies(start, store.files, KnownTo(seed, seedKey), steps + [obtained.value.step])
    ensures obtained.Done? ==> used.reused == ReusedBy(steps + [obtained.value.step])
    ensures obtained.Done? ==> used.discarded == AllDiscards(key, start.files, windows, |steps| + 1)
    ensures obtained.Done? ==>
      (AllCheckpointed(steps + [obtained.value.step])
       <==> AllCheckpointed(steps) && (obtained.value.step.FromRecogniser? ==> obtained.value.step.stored))
    ensures obtained.Failed? ==> Agrees(start, store.files, seed == null, steps)
    ensures calm ==> obtained.Done?
  {
    ghost var before, knew := store.files, KnownTo(seed, seedKey);
    obtained, used := ObtainChunk(world, store, seed, seedKey, key, |steps|, windows[|steps|], usage, calm);
    if obtained.Done? {
      OneMoreStep(steps, obtained.value.step);
      TalliesMore(start, before, store.files, knew, KnownTo(seed, seedKey), steps, obtained.value);
    } else {
      StillTells(world, key, windows, before, store.files, steps);
      assert StepsAreRight(key, start.files, before, store.refuses, start.known, knew, windows, steps);
    }
  }

  /** What the steps of a run say of the store it leaves. */
  ghost predicate Agrees(start: Start, files: map<nat, File>, unseeded: bool, steps: seq<Step>)
    requires |steps| <= |start.windows|
  {
    match start
    case Start(world, key, windows, before, refuses, known) =>
      && StoreTells(world, key, windows, files, steps)
      && (unseeded ==> NoneUnstored(steps))
      && (Distinct(windows) ==> StepsTell(key, before, refuses, known, windows, steps))
  }

  /** What a run starts from. */
  datatype Start = Start(
    world: World, key: Key, windows: seq<TimeRange>, files: map<nat, File>, refuses: set<nat>, known: set<TimeRange>)

  /** What the steps so far tell of the store and the seed. */
  ghost predicate Tallies(start: Start, now: map<nat, File>, knows: set<TimeRange>, steps: seq<Step>)
    requires |steps| <= |start.windows|
  {
    match start
    case Start(world, key, windows, files, refuses, known) =>
      && StoreTells(world, key, windows, now, steps)
      && StepsAreRight(key, files, now, refuses, known, knows, windows, steps)
  }

  lemma TalliesMore(
    start: Start, before: map<nat, File>, after: map<nat, File>, knew: set<TimeRange>, knows: set<TimeRange>,
    steps: seq<Step>, obtained: Obtained)
    requires |steps| < |start.windows| && Tallies(start, before, knew, steps)
    requires OnlyChanges(before, after, |steps|) && knew <= knows <= knew + {start.windows[|steps|]}
    requires Right(start.world, start.windows[|steps|], obtained)
    requires Keeps(obtained.step) ==> IsKept(after, start.key, |steps|, start.windows[|steps|], obtained.outcome)
    requires obtained.step == FromSeed(false) ==> |steps| !in after
    requires obtained.step
      == StepDue(start.key, before, start.refuses, start.windows[|steps|] in knew, |steps|, start.windows[|steps|])
    ensures Tallies(start, after, knows, steps + [obtained.step])
  {
    StoreTellsMore(start.world, start.key, start.windows, before, after, steps, obtained);
    StepsAreRightMore(
      start.key, start.files, before, after, start.refuses, start.known, knew, knows, start.windows, steps,
      obtained.step);
  }

  /** What the steps so far tell, and what of the store and the seed is still as it was. */
  ghost predicate StepsAreRight(
    key: Key, files: map<nat, File>, now: map<nat, File>, refuses: set<nat>, known: set<TimeRange>,
    knows: set<TimeRange>, windows: seq<TimeRange>, steps: seq<Step>)
    requires |steps| <= |windows|
  {
    && AheadIsUntouched(files, now, |steps|) && Learnt(known, knows, windows, |steps|)
    && (Distinct(windows) ==> StepsTell(key, files, refuses, known, windows, steps))
    && (knows == {} ==> NoneUnstored(steps))
  }

  lemma StepsAreRightMore(
    key: Key, files: map<nat, File>, before: map<nat, File>, after: map<nat, File>, refuses: set<nat>,
    known: set<TimeRange>, knew: set<TimeRange>, knows: set<TimeRange>, windows: seq<TimeRange>, steps: seq<Step>,
    step: Step)
    requires |steps| < |windows| && StepsAreRight(key, files, before, refuses, known, knew, windows, steps)
    requires OnlyChanges(before, after, |steps|) && knew <= knows <= knew + {windows[|steps|]}
    requires step == StepDue(key, before, refuses, windows[|steps|] in knew, |steps|, windows[|steps|])
    ensures StepsAreRight(key, files, after, refuses, known, knows, windows, steps + [step])
  {
    LearntMore(known, knew, knows, windows, |steps|);
    StepsTellMore(key, files, before, refuses, known, knew, windows, steps, step);
  }

  lemma StepsTellMore(
    key: Key, files: map<nat, File>, before: map<nat, File>, refuses: set<nat>, known: set<TimeRange>,
    knew: set<TimeRange>, windows: seq<TimeRange>, steps: seq<Step>, step: Step)
    requires |steps| < |windows| && AheadIsUntouched(files, before, |steps|) && Learnt(known, knew, windows, |steps|)
    requires step == StepDue(key, before, refuses, windows[|steps|] in knew, |steps|, windows[|steps|])
    requires Distinct(windows) ==> StepsTell(key, files, refuses, known, windows, steps)
    ensures Distinct(windows) ==> StepsTell(key, files, refuses, known, windows, steps + [step])
  {
    if Distinct(windows) { NotPassed(windows, |steps|); }
  }

  // The flag a run publishes by

  /** No answer taken from the seed failed to be stored. */
  predicate NoneUnstored(steps: seq<Step>) {
    forall i :: 0 <= i < |steps| ==> steps[i] != FromSeed(false)
  }

  /** When the flag is set, every finished chunk is in the store exactly when no answer taken from
      the seed failed to be stored: such a failure does not clear it. */
  lemma FlagMeansKept(world: World, key: Key, windows: seq<TimeRange>, files: map<nat, File>, steps: seq<Step>)
    requires |steps| <= |windows| && StoreTells(world, key, windows, files, steps) && AllCheckpointed(steps)
    ensures AllInStore(world, key, windows, files, |steps|) <==> NoneUnstored(steps)
  {
    forall i | 0 <= i < |steps| ensures InStore(world, key, windows, files, i) <==> steps[i] != FromSeed(false) {
      assert Keeps(steps[i]) || steps[i] == FromSeed(false);
    }
  }

  /** What the flag is worth, in terms of what was there when the run began. */
  lemma FlagIsWorth(
    world: World, key: Key, windows: seq<TimeRange>, before: map<nat, File>, after: map<nat, File>, refuses: set<nat>,
    known: set<TimeRange>, steps: seq<Step>)
    requires |steps| <= |windows| && StoreTells(world, key, windows, after, steps) && AllCheckpointed(steps)
    ensures NoneUnstored(steps) ==> AllInStore(world, key, windows, after, |steps|)
    ensures StepsTell(key, before, refuses, known, windows, steps) ==>
      (AllInStore(world, key, windows, after, |steps|) <==> NoneUnwritable(before, refuses, known, windows, |steps|))
  {
    FlagMeansKept(world, key, windows, after, steps);
    if StepsTell(key, before, refuses, known, windows, steps) {
      forall i | 0 <= i < |steps|
        ensures SeededUnwritable(before, refuses, known, windows, i) <==> steps[i] == FromSeed(false)
      {
      }
    }
  }

  function Below(n: nat): (s: set<nat>)
    ensures forall i: nat :: i in s <==> i < n
  {
    if n == 0 then {} else Below(n - 1) + {n - 1}
  }

  /** The windows of a plan differ from each other, and there is one at least. */
  lemma PlanIsDistinct(windows: seq<TimeRange>, range: TimeRange, plan: Plan)
    requires plan.Valid() && IsPlanOf(windows, range, plan)
    ensures Distinct(windows) && windows != []
  {
    forall i, j | 0 <= i < j < |windows| ensures windows[i] != windows[j] {
      PlanIsOrdered(windows, range, plan, i, j);
    }
  }

  /** A run over an empty store that cannot be written, with a seed that knows every window: it is
      left alone, it comes to its end, its flag is set, and not one of its chunks is in the store. */
  method FlagMayBeWrong(world: World, windows: seq<TimeRange>, key: Key, seedKey: Key)
    returns (run: Run, store: Checkpoints)
    requires Distinct(windows) && windows != []
    ensures run.ending.Done? && run.ending.value == Uninterrupted(world, windows, 0, NOTHING)
    ensures run.allCheckpointed && run.steps != []
    ensures forall i :: 0 <= i < |run.steps| ==> i !in store.files
  {
    store := new Checkpoints(map[], Below(|windows|));
    var seed := SeedOf(world, windows, seedKey);
    ghost var known := KnownTo(seed, seedKey);
    run := RunChunks(world, windows, store, key, seed, seedKey, true);
    AllUnwritable(world, key, windows, known, Below(|windows|), store.files, run.steps);
  }

  /** A seed that knows every window. */
  method SeedOf(world: World, windows: seq<TimeRange>, key: Key) returns (seed: Seed)
    ensures fresh(seed) && TruthfulSeed(world, key, seed.kept)
    ensures forall i :: 0 <= i < |windows| ==> windows[i] in KnownTo(seed, key)
  {
    var kept: map<(Key, TimeRange), Stored> := map[];
    for n := 0 to |windows|
      invariant TruthfulSeed(world, key, kept) && forall i :: 0 <= i < n ==> (key, windows[i]) in kept
    {
      kept := kept[(key, windows[n]) := Fresh(world, windows[n]).1];
    }
    seed := new Seed(kept);
    forall i | 0 <= i < |windows| ensures windows[i] in KnownTo(seed, key) { KnownIsSeeded(kept, key, windows[i]); }
  }

  lemma AllUnwritable(
      world: World, key: Key, windows: seq<TimeRange>, known: set<TimeRange>, refuses: set<nat>,
      files: map<nat, File>, steps: seq<Step>)
    requires |steps| <= |windows| && StepsTell(key, map[], refuses, known, windows, steps)
    requires forall i :: 0 <= i < |windows| ==> windows[i] in known && i in refuses
    requires StoreTells(world, key, windows, files, steps)
    ensures AllCheckpointed(steps) && forall i :: 0 <= i < |steps| ==> i !in files
  {
    forall i | 0 <= i < |steps| ensures steps[i] == FromSeed(false) {
      assert SeededUnwritable(map[], refuses, known, windows, i);
    }
  }

  // Runs after one another

  /** No mishap forges a checkpoint of this run. */
  ghost predicate ForgesNothing(mishaps: seq<Mishap>, key: Key) {
    forall m, i :: m in mishaps && i in m.damaged && m.damaged[i].Intact? ==> m.damaged[i].checkpoint.key != key
  }

  /** Any number of attempts, each failing anywhere, with any mishap before each: the first that
      comes to an end comes to the end of an uninterrupted run, and one that is left alone does. */
  method ResumeUntilDone(
    world: World, windows: seq<TimeRange>, store: Checkpoints, key: Key,
    seed: Seed?, seedKey: Key, mishaps: seq<Mishap>)
    returns (ending: Option<Ending>)
    requires Truthful(world, key, store.files) && (seed != null ==> TruthfulSeed(world, seedKey, seed.kept))
    requires ForgesNothing(mishaps, key)
    modifies store, if seed == null then {} else {seed}
    ensures Truthful(world, key, store.files) && (seed != null ==> TruthfulSeed(world, seedKey, seed.kept))
    ensures ending.Some? ==> ending.value == Uninterrupted(world, windows, 0, NOTHING)
    ensures (exists m :: m in mishaps && m.calm) ==> ending.Some?
  {
    for n := 0 to |mishaps|
      invariant Truthful(world, key, store.files) && (seed != null ==> TruthfulSeed(world, seedKey, seed.kept))
      invariant forall i :: 0 <= i < n ==> !mishaps[i].calm
    {
      assert mishaps[n] in mishaps;
      store.Suffer(mishaps[n]);
      var run := RunChunks(world, windows, store, key, seed, seedKey, mishaps[n].calm);
      if run.ending.Done? { return Some(run.ending.value); }
    }
    return None;
  }
}
