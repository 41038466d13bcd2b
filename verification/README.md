# A verified model of VSift's hard core

VSift turns recordings into searchable evidence: it transcribes speech chunk by chunk, publishes the
transcript as the run goes, splices corrected stretches over earlier text, installs the tools it
needs, searches many bundles page by page, and gates its own releases. This project models the parts
of it that hold state over unbounded inputs and histories, and proves what they are for.

- **Speech** (`Spans`, `ChunkPlan`, `ChunkMerge`, `MergeCoverage`, `MergeRules`, `SeamWords`,
  `SeamTrails`, `MergeWords`, `SeamTwice`, `Settling`, `SettledGuard`, `SettledMerge`): how a range is
  cut into overlapping windows, how the chunks' answers become one transcript, what becomes of every
  segment and every word of them, and which part of the transcript no later chunk can change.
- **Runs** (`SpeechRun`, `ResumedRun`): a run over its planned chunks, interrupted anywhere, resumed
  from a store whose checkpoints may be lost, damaged or of other runs, and from a seed.
- **Revisions** (`Revisions`, `RevisionBuilding`, `OpenRevisions`, `RevisionValidity`,
  `StoppedRevisions`, `RevisionContent`, `RevisionChecks`, `StoppedTwice`, `RevisionHistory`): the
  sealed, open and stopped revisions that a run makes over the text it supersedes, what they say, and
  provenance over any chain of them.
- **Installing** (`Install`, `InstallUnits`, `InstallPart`, `PlanParts`, `InstallRun`): the
  transaction that fetches, stages, smokes and activates components, with any step failing and
  cancellation at any time.
- **Search over bundles** (`BundleRank`, `BundlePage`, `BundleWalk`, `BundleVisits`, `BundleSearch`,
  `BundlePages`, `CursorKey`): which bundles a search reads, bounded pages of one ranking, and cursors
  that continue it exactly.
- **Canonical texts and parsers** (`Decimals`, `TextParts`, `EvidenceKey`, `EvidenceItem`,
  `JsonDepth`, `OcrRunner`, `Alignment`, `SubstringAlignment`).
- **Release and CI gates** (`ReleaseWindow`, `ReleaseHistory`, `CiLanes`, `CiSelection`,
  `CiReasons`, `CiTable`).

`Basics` holds what several modules share. Code that changes state step by step is modelled by
classes and loops, each with a contract against a specification function; the lemmas about those
functions are the results below. Recognisers, decoders, downloads, smokes, clocks, digests and the
file system are parameters or nondeterministic results. Cancellation is a flag that may become set
at any query and stays set.

## Where the code falls short

Five properties that one would expect do not hold of the code. The model keeps the code's branches;
each has a lemma or method that shows an input, and the exact condition under which the property
does hold.

1. **A stopped run may make a revision that the transcript's own checks refuse.** When two cues of
   the superseded revision start together and only the shorter one ends by the settled time, the run
   publishes the shorter one and is published until the second one starts, which is where the first
   one starts too. Stopping then carries every earlier cue that starts at or after that time, so the
   first cue is carried twice, and a revision may carry a segment once only
   (crates/vsift-application/src/asr.rs:1677-1759, crates/vsift-domain/src/transcript.rs:1360-1383).
   `StoppedTwice.StoppingMayBeRefused` shows it at the program's own bounds: thirty-second windows
   with five seconds of overlap, five seconds of early audio, cues at 30-32 s, 30-36 s and 34-50 s.
   There the open revision passes every check, and the stopped one is refused in every state.
   `RevisionChecks.StoppedIsValid` gives the condition, which the holder of an open revision that
   passed its checks can read off it before stopping: every carried segment in it starts before its
   published time. The stopped revision passes every check if and only if that holds.
2. **A run may say that all its finished chunks are checkpointed when one is not.** `run_chunks`
   counts an answer taken from the seed as stored even if writing its checkpoint failed
   (crates/vsift-application/src/asr.rs:1135-1152), while `RunSoFar::all_checkpointed` promises that
   every finished chunk's outcome is in the store (crates/vsift-application/src/asr.rs:652-659), and
   that is what a run publishes on. `ResumedRun.FlagMayBeWrong` gives, for the windows of any plan
   (which differ from each other, `ResumedRun.PlanIsDistinct`), a seed and a store with which an
   undisturbed run ends with the flag set and no finished chunk in the store. The last clause of
   `ResumedRun.RunChunks` is exact: when the flag is set, every finished chunk is in the store if and
   only if none of them was known to the seed, had no file, and could not be written. Without a seed
   the flag is always right.
3. **Changing more paths may run fewer packages.** When a change runs everything, what runs are the
   members of the workspace, so a package that a shared input names and that is no member runs for
   the smaller change and not for the larger one (tools/ci_lanes.py:286-306).
   `CiSelection.NoLessExactly` gives the condition, which can be read off the paths, the table of
   shared inputs and the workspace before anything is selected: more paths run no less if and only if
   the larger change does not run everything, or the smaller one does too, or each path of the smaller
   one is held only by shared inputs that name members.
   `CiSelection.OutputsJoinExactly` is the same for two changes joined. `CiTable.StrayPackageIsLost`
   shows the failure under the repository's own table and build-wide files: were a package that
   `schemas/` is shared with no member, a changed schema would run it and a changed schema beside a
   changed `Cargo.toml` would not. The failure is latent: every package in the table is a member
   today, and `CiTable.TableNamesMembers` with `CiSelection.MorePathsSelectNoLess` and
   `CiSelection.OutputsJoin` says that nothing is ever lost while that is so.
4. **A seam that was cut may still repeat words.** Rule 3 takes the longest run of words that a
   segment of the chunk before ends with off the beginning of a segment, and does not look at what is
   left again (crates/vsift-domain/src/asr.rs:2281-2344): "we go up on" and then "up on up on now"
   become "we go up on" and "up on now" (`SeamTwice.SeamMayRepeat`). A segment that was not cut never
   repeats one of the chunk before, unless all of it is in that one and dropping it would leave a hole.
   `MergeWords.NothingIsRepeatedUnlessCut` gives the condition: nothing is repeated if and only if no
   segment that was cut repeats, with what is left of it, one that comes no later than the one it was
   cut by.
5. **A release branch may be reported although main is its very head.** The check asks of every commit
   that a file it leaves is on main, and that one it takes away is not
   (tools/release_window.py:745-756), so a file that the branch adds and takes out again is reported
   (`ReleaseHistory.TakenOutIsReported`), though it is the net change of the branch that is to be held
   to main (tools/release_window.py:50-54). `ReleaseHistory.HeadPassesExactly` gives the condition,
   which can be read off the branch alone: it passes over its own head if and only if no commit leaves
   a file that is gone at the head, unless main moved it, and none takes away one that is there again.
   Its lines never stand in the way.

## Model

| member | source | states |
|---|---|---|
| `ChunkPlan.PlanChunks` | crates/vsift-domain/src/asr.rs:642-667 | The windows cover the range in strides with the plan's overlap; a refusal means that every such plan has too many windows. |
| `ChunkPlan.PlanIsUnique` | crates/vsift-domain/src/asr.rs:642-667 | A range and a plan have one list of windows, so a resumed run plans what the first run planned. |
| `ChunkPlan.PlanIsOrdered` | crates/vsift-domain/src/asr.rs:642-667 | Later windows start at least a stride later and end no earlier. |
| `MergeCoverage.GuardLosesNoSpeech` | crates/vsift-domain/src/asr.rs:1973-2058 | After rules 1 and 2 and the guard, every stretch longer than the tolerance that any chunk heard has a kept segment in it. |
| `MergeCoverage.MergeLosesNoSpeech` | crates/vsift-domain/src/asr.rs:1863-1867 | The same of the whole merge, after rule 3 has trimmed and dropped seam duplicates, for any list of chunks: some kept segment lies in every stretch that was heard. What the segments say is the subject of `MergeTells`. |
| `MergeRules.LoopsAreLoops` | crates/vsift-domain/src/asr.rs:2131-2180 | A text is a recogniser loop exactly when one to four words are said at least eight times in a row, over at least half of it. |
| `MergeRules.RulesExactly` | crates/vsift-domain/src/asr.rs:1871-1914 | Rules 1 and 2 keep a segment if and only if its chunk's core holds its middle and no neighbour replaces it where the window cuts it, or the chunk that decides over it has nothing but loops there, or it stands in for one that the window cuts. |
| `MergeRules.GuardOnlyRestoresLosses` | crates/vsift-domain/src/asr.rs:1973-2015 | The guard keeps all that the rules keep and restores a segment only over a stretch that they lose; where they lose none, it changes nothing. |
| `MergeRules.HoleClosesInOrder` | crates/vsift-domain/src/asr.rs:2017-2058 | Of the segments dropped over a hole, one is restored exactly when those that share more of the hole leave it uncovered there. |
| `SeamWords.SharedSeamWordsIs` | crates/vsift-domain/src/asr.rs:2378-2408 | Two folded texts share words at a seam exactly when the later repeats the earlier; all of it when it is held whole, else the longest end of the earlier one. |
| `MergeWords.MergeTells` | crates/vsift-domain/src/asr.rs:2281-2344 | Every merged segment is a kept one with its range and reading and the end of its text; what was cut is what kept segments of the chunk before ended with; a kept segment that is not listed had all its words in one of the chunk before, and none is left that repeats one after the one that cut it. |
| `MergeWords.NothingIsRepeatedUnlessCut` | crates/vsift-domain/src/asr.rs:2281-2344 | No merged segment repeats one of the chunk before, unless all of it is in there and dropping it would leave a hole, if and only if that is so of the segments that were cut and those they were compared with until then. |
| `SeamTwice.SeamMayRepeat` | crates/vsift-domain/src/asr.rs:2281-2344 | Two chunks whose merge still repeats words at the seam it cut. |
| `SettledMerge.SettledIsFinal` | crates/vsift-domain/src/asr/settled.rs:125-177 | What is settled after any finished chunks is the beginning of the merge of the whole run, whatever the other chunks answer; it ends before the settled time and everything else starts at or after it. |
| `SettledMerge.SettledTimeGrows` | crates/vsift-domain/src/asr/settled.rs:125-177 | The settled time never moves back as chunks finish. |
| `SettledMerge.SettledGrows` | crates/vsift-domain/src/asr/settled.rs:125-177 | What is settled earlier is the beginning of what is settled later. |
| `SettledMerge.SettledIsMost` | crates/vsift-domain/src/asr/settled.rs:125-177 | No less is settled than can be: the settled time is where the next chunk's audio may begin, unless the finished chunks hear speech from it until there, and everything merged before the first segment that ends later is settled. |
| `SpeechRun.Gathered.Take` | crates/vsift-application/src/asr.rs:1371-1409 | Taking a chunk's result changes every tally and list of the run as the specification `Taken` says, the subject of `RunGathers`. |
| `SpeechRun.RunGathers` | crates/vsift-application/src/asr.rs:862-990 | A run that finishes has a record for every window with what its chunk became, gives the merge each transcribed chunk's validated segments and nothing for the others, holds the languages and warnings of the transcribed chunks in order, and counts the gaps, answers and refusals with the first of each; one that gives up names its first refused chunk. |
| `SpeechRun.FreshTells` | crates/vsift-application/src/asr.rs:1195-1270 | A chunk is answered exactly when the recogniser is asked, is transcribed or refused by the rules over the audio decoded, and else is a gap, silent exactly when there was audio. |
| `SpeechRun.AgreedLanguage` | crates/vsift-application/src/asr.rs:1469-1480 | The run has a language if and only if every transcribed chunk reported that one. |
| `SpeechRun.StoredIsReadBack` | crates/vsift-application/src/asr.rs:1156-1186 | Reading what a fresh chunk records gives exactly what that chunk became. |
| `SpeechRun.CertainExactly` | crates/vsift-domain/src/asr.rs:1650-1652 | After some chunks, every possible completion of the run fails if and only if the count of unusable answers says so. |
| `SpeechRun.GivesUpAt` | crates/vsift-application/src/asr.rs:1439-1456 | A run that gives up does so at the first chunk after which every completion would fail, with the counts of that moment; a run that finishes was never there. |
| `SpeechRun.VerdictIsExact` | crates/vsift-application/src/asr.rs:862-990 | A run that is not disturbed gives up if and only if twice the windows whose answers are unusable outnumber the windows that are answered, over the whole plan. |
| `ResumedRun.SeededAnswer` | crates/vsift-application/src/asr.rs:1135-1152 | A seeded answer is used exactly when the seed has a usable one, is what the window gives, and is in the store unless the store refused it. |
| `ResumedRun.ReuseCheckpoint` | crates/vsift-application/src/asr.rs:1069-1096 | An intact file that belongs to the run at this chunk is always reused, and no other; what is reused is what a fresh chunk gives; a file that could not be used is discarded; the counts of reused and discarded checkpoints are exact. |
| `ResumedRun.RunChunks` | crates/vsift-application/src/asr.rs:862-990 | From any store under whose key only true outcomes lie, a run that may fail or be killed anywhere leaves such a store, and one that ends has the ending of a run without checkpoints, gathered as `RunGathers` says; left alone, it ends. Each chunk comes from its checkpoint, the seed or the recogniser exactly when it must. The flag is worth what is said above, in both directions. |
| `ResumedRun.ResumeUntilDone` | crates/vsift-application/src/asr.rs:821-843 | Over any number of attempts, with checkpoints lost, damaged or refused before each, the first attempt that ends has the ending of an uninterrupted run; there is one as soon as an attempt is left alone. |
| `ResumedRun.FlagIsWorth` | crates/vsift-application/src/asr.rs:652-659 | When the flag is set, all finished chunks are in the store if and only if none was known to the seed, had no file and could not be written. |
| `ResumedRun.FlagMayBeWrong` | crates/vsift-application/src/asr.rs:1135-1152 | For any windows that differ from each other there are a seed and a store with which an undisturbed run ends with the flag set and none of its chunks in the store. |
| `ResumedRun.PlanIsDistinct` | crates/vsift-domain/src/asr.rs:642-667 | The windows of every plan differ from each other, and there is one at least. |
| `RevisionBuilding.AssembleRevision` | crates/vsift-application/src/asr.rs:1763-1863 | The loops that carry, sort, number and gather make the revision `Assemble`, the subject of `AssembledSays`, `SealedIsValid` and `SealingExtendsHistory`. |
| `RevisionBuilding.BuildOpenRevision` | crates/vsift-application/src/asr.rs:1618-1659 | The loops that cut an assembled revision make the revision `BuildOpen`, the subject of `OpenSays`, `OpenIsSealedCut`, `PublishedIsFinal` and `OpenIsValid`. |
| `RevisionBuilding.BuildStoppedRevision` | crates/vsift-application/src/asr.rs:1677-1759 | The loops that drop, carry and renumber make the revision `BuildStopped`, the subject of `StoppedSays`, `StoppedIsValid` and `StoppingKeepsTheRest`. |
| `RevisionContent.AssembledSays` | crates/vsift-application/src/asr.rs:1763-1863 | A sealed revision's own segments are the run's merged ones, each with its range, text and reading; the carried ones are exactly the earlier segments that lie outside the replaced range, or wholly in it where the run did not read and wrote nothing over them; all in order of time. |
| `RevisionContent.OpenSays` | crates/vsift-application/src/asr.rs:1618-1659 | An open revision is the assembled one cut before the first segment that ends past the reach, which is the settled time or the start of the first earlier segment that crosses it; it is published until there, and inherits exactly what it uses. |
| `RevisionContent.StoppedSays` | crates/vsift-application/src/asr.rs:1677-1759 | A stopped revision is the open one, its chunks to come never reached, and after it exactly the earlier text from its published time on that stays. |
| `OpenRevisions.ReachBackGrows` | crates/vsift-application/src/asr.rs:1763-1863 | How far back a segment to come can reach never moves back as more is settled. |
| `OpenRevisions.OpenIsSealedCut` | crates/vsift-application/src/asr.rs:1618-1659 | An open revision is the sealed one cut before the first segment that ends past the reach, and its published time is where the rest begins. |
| `OpenRevisions.PublishedIsFinal` | crates/vsift-application/src/asr.rs:1618-1659 | Every open revision of a run is a prefix of the sealed one, ordinals and identities included, and no other sealed segment starts before its published time. |
| `OpenRevisions.PublicationsGrow` | crates/vsift-application/src/asr.rs:1618-1659 | Every later open revision extends every earlier one, and its published time is no earlier. |
| `RevisionChecks.SealedIsValid` | crates/vsift-domain/src/transcript.rs:1258-1423 | What a run inside its source assembles over a valid base, or over none, passes every modelled check of a sealed revision if and only if no chunk is still to come and none was never reached. |
| `RevisionChecks.OpenIsValid` | crates/vsift-domain/src/transcript.rs:1281-1290 | What it publishes passes every modelled check of an open revision if and only if chunks are still to come, none was never reached, and it is published no further than the source goes, which holds whenever no more is settled than the source has. |
| `RevisionChecks.StoppedIsValid` | crates/vsift-domain/src/transcript.rs:1306-1315 | A stopped revision begins with everything published; it passes every modelled check if and only if the open one did and carries no segment that starts at its published time. |
| `StoppedRevisions.StoppingKeepsTheRest` | crates/vsift-application/src/asr.rs:1677-1759 | A segment of the superseded revision outside the replaced range is in the stopped one with its range, text, speaker, origin and first source. |
| `StoppedTwice.StoppingMayBeRefused` | crates/vsift-application/src/asr.rs:1677-1759 | At the program's own bounds there is a run whose open revision passes every check and whose stopped revision carries a cue twice and is refused. |
| `RevisionHistory.SealingExtendsHistory` | crates/vsift-application/src/asr.rs:1763-1974 | Sealing over any revision of a history gives a history again if and only if the run is finished: every carried segment has the range, text, speaker, confidence and origin of the one its source names, that segment was its revision's own, and the inherited list holds that revision's provenance once. |
| `RevisionHistory.StoppingExtendsHistory` | crates/vsift-application/src/asr.rs:1677-1759 | Stopping does so if and only if the open revision passes its checks and carries no segment that starts at its published time. |
| `RevisionHistory.SurvivesTheChain` | crates/vsift-application/src/asr.rs:1936-1974 | Over any chain of runs over one another, each sealed or stopped, a segment outside every replaced range is in the last revision with the same text and the same first source. |
| `InstallUnits.UnitsKeepOrder` | crates/vsift-application/src/install.rs:980-1018 | Grouping loses no download, repeats none, keeps their order and makes no empty unit. |
| `InstallUnits.SpeechIsOneUnit` | crates/vsift-application/src/install.rs:980-1018 | The recogniser and the model right after it are in one unit when both need installing. |
| `InstallPart.Part.InstallUnit` | crates/vsift-application/src/install.rs:895-976 | Whatever step fails, every download of the unit ends exactly one way: all are active, or one broke, those before it are active or blocked and those after it blocked, or the smoke failed them all. Nothing is active unless the whole unit passed one smoke, a run seen as cancelled activates nothing more, and no other download or report changes. |
| `InstallPart.Part.InstallDownloads` | crates/vsift-application/src/install.rs:869-892 | The same of all units of a part, one after another: those before the one that failed are active, those after it blocked and discarded; none left open, none used twice, the log holds exactly the activations that the reports tell. |
| `PlanParts.ActivatedIsWhole` | crates/vsift-application/src/install.rs:895-976 | A component is reported as activated only after everything its part needs was fetched and its whole unit passed one smoke. |
| `PlanParts.FailedForACause` | crates/vsift-application/src/install.rs:895-976 | A component is reported as failed, other than blocked, only after a step of its own failed, or the smoke of a unit it is in, or the caller was seen to have cancelled. |
| `PlanParts.FinishSpeech` | crates/vsift-application/src/install.rs:638-695 | Speech is used only if video is complete or the tools are there; else, when all it needs was fetched, each of its downloads is kept for later, or was to be kept and could not be, and is reported as blocked; if the run was cancelled each is discarded and reported so; in no other case is one kept. |
| `PlanParts.InstallCore` | crates/vsift-application/src/install.rs:638-695 | Returns true exactly when every core report is Activated or AlreadyCurrent; every download of both parts is settled, and the log and reports agree. |
| `InstallRun.FirstFailure` | crates/vsift-application/src/install.rs:366-377 | A run reports a failure exactly when a component failed other than by being blocked, and it is that of the first such component. |
| `InstallRun.InstallPlan` | crates/vsift-application/src/install.rs:579-634 | Over every combination of step results and cancellation: every download is settled, each report tells its fate, every activated component's part was fetched whole and its unit smoked whole, optional groups are tried only once the core is complete and each fails alone, selections only grow, with everything current nothing is fetched, a cancelled run fetches and activates nothing, and no failure is without its cause. |
| `InstallRun.OptionalLeavesTheCore` | crates/vsift-application/src/install.rs:579-634 | Of two runs with other optional lists, whose cores are both complete or both not, the core of one could stand in the other: nothing said of a core depends on the optional list, its reports or its failures. |
| `InstallRun.InstallTwice` | crates/vsift-application/src/install.rs:579-634 | A run in which no step fails leaves every component active; after a run that did, the next run fetches nothing and reports everything as current. |
| `BundleRank.RankHits` | crates/vsift-domain/src/search/bundles.rs:91-108 | Counting within tiers gives every hit the position that the specification `Ranked` gives it. |
| `BundleRank.RankedIsInOrder` | crates/vsift-domain/src/search/bundles.rs:91-108 | Ranked hits are the bundle's hits in key order, at strictly ascending positions of their own tier and bundle. |
| `BundleRank.NumbersHaveNoGap` | crates/vsift-domain/src/search/bundles.rs:91-108 | A hit's number is how many hits of its tier have come with it, so the numbers of a tier have no gap. |
| `BundlePage.Page.Offer` | crates/vsift-application/src/bundle_search.rs:516-533 | A page offered hits in any order always keeps exactly the first `limit + 1` positions after the cursor, each with its own hit, and counts them all. |
| `BundlePage.OnePage` | crates/vsift-application/src/bundle_search.rs:702-761 | What a page lists is the page of the one ranking of everything offered, whatever the order of the offers. |
| `BundleWalk.WalkIsAccounted` | crates/vsift-application/src/bundle_search.rs:570-623 | Found is searched plus unavailable plus not searched plus duplicates; searched manifests are distinct; the bytes charged and left make up the budget; the hits of the entries sum to the total. |
| `BundleVisits.WalkTellsEach` | crates/vsift-application/src/bundle_search.rs:570-623 | Of every bundle found: beyond the limit, or with fewer bytes left than a manifest needs, it is skipped for that; a broken one is unavailable; any other is searched, or one of its manifest was before, or its records need more than the bytes left and it is skipped for that; the lists hold that in the order found. |
| `BundleVisits.UnavailableWasBroken` | crates/vsift-application/src/bundle_search.rs:570-623 | Whatever is listed as unavailable was found broken, within the limit and with its manifest paid for. |
| `BundleVisits.EverythingIsSearched` | crates/vsift-application/src/bundle_search.rs:570-623 | With no more bundles than the limit and the bytes for all their manifests and records, none is skipped and every readable manifest is searched. |
| `BundleWalk.OffersAreRanked` | crates/vsift-application/src/bundle_search.rs:627-700 | What is offered to the page is exactly what the bundles read hold, each hit ranked within its bundle. |
| `BundleWalk.OffersAreApart` | crates/vsift-application/src/bundle_search.rs:627-700 | No two hits of a search share a position, and every position can stand in a cursor. |
| `BundleSearch.NoScopeNoHits` | crates/vsift-application/src/bundle_search.rs:765-779 | A search without a cursor scope has no hits, so none is dropped for want of one. |
| `BundleSearch.SearchBundles` | crates/vsift-application/src/bundle_search.rs:424-483 | What is returned is the page after the cursor of the ranking of all hits, with the whole total, exact counts, and for each hit the token that continues after it; unless it is cancelled it fails only by refusing the cursor, for exactly the reason given. |
| `BundlePages.OwnCursorIsAccepted` | crates/vsift-domain/src/pagination.rs:184-204 | A search's own continuation is accepted over the same bundles and words, at the position it names, exactly until its lifetime is over. |
| `BundlePages.ReadAll` | crates/vsift-application/src/bundle_search.rs:424-483 | A host that reads pages of any size, ends any of them early and continues after the last hit it used has seen every hit once, in rank order; and if it asks again while its cursor lives and is not cancelled, it is never refused. |
| `BundlePages.AcceptedContinuesTheSameList` | crates/vsift-domain/src/pagination.rs:184-204 | With no digest collision, a cursor is accepted only for the same bundles in the same order and the same words, so for the very list it came from. |
| `CursorKey.KeyIsReadBack` | crates/vsift-application/src/bundle_search.rs:874-910 | Every position is read back from its key. |
| `CursorKey.AcceptedIsTheKey` | crates/vsift-application/src/bundle_search.rs:884-910 | Every accepted text is the key of the position it names. |
| `CursorKey.KeyIsAccepted` | crates/vsift-domain/src/pagination.rs:282-292 | Every key is short and plain enough to stand in a cursor. |
| `CursorKey.SearchMaterial` | crates/vsift-application/src/bundle_search.rs:857-871 | The loops write the text `Material`, the subject of `MaterialIsInjective`. |
| `CursorKey.MaterialIsInjective` | crates/vsift-application/src/bundle_search.rs:857-871 | Different manifests, another order of them or other words give other material, when no item holds a line break. |
| `EvidenceKey.RequestMaterial` | crates/vsift-application/src/evidence.rs:168-195 | The loop writes the canonical lines, the subject of `RequestMaterialIsInjective`. |
| `EvidenceKey.RequestMaterialIsInjective` | crates/vsift-application/src/evidence.rs:112-195 | Two requests with the same text are the same request in the same scope, across all five kinds. |
| `EvidenceKey.FindReusableRecord` | crates/vsift-application/src/evidence.rs:295-305 | The newest complete record with the key, and none exactly when there is none or the provider is not identified. |
| `EvidenceItem.SameItemSameIdentity` | crates/vsift-application/src/evidence.rs:203-249 | Two items share their material if and only if they are the same frame, region or clip of the same scope, with the same bytes when the provider is not identified. |
| `Alignment.NoShorterScript` | tools/p16_ocr_evaluation.py:225-235 | No edit script that turns one text into the other is shorter than the distance. |
| `Alignment.ShortestScript` | tools/p16_ocr_evaluation.py:225-235 | Some edit script is as short as the distance. |
| `Alignment.DistanceIsSymmetric` | tools/p16_ocr_evaluation.py:225-235 | The distance is symmetric, so swapping the arguments by length is sound. |
| `Alignment.ZeroIsEqual` | tools/p16_ocr_evaluation.py:225-235 | The distance is zero on equal texts only. |
| `Alignment.Triangle` | tools/p16_ocr_evaluation.py:225-235 | The distance satisfies the triangle inequality. |
| `Alignment.EditDistance` | tools/p16_ocr_evaluation.py:225-235 | The program that keeps one row and swaps its arguments computes that distance. |
| `SubstringAlignment.SubstringDistance` | tools/p16_ocr_evaluation.py:238-252 | The result is the least distance between the needle and any substring of the haystack; it is zero exactly when the needle occurs, and at most its length. |
| `ReleaseWindow.WrittenIsRead` | tools/release_window.py:404-426 | A diff is read back as the hunks it was written from, whatever their lines begin with. |
| `ReleaseWindow.CompareChange` | tools/release_window.py:732-890 | A change has no finding if and only if main has it: added lines are on main or superseded at the head, removed ones are gone or put back. |
| `ReleaseHistory.LinesTell` | tools/release_window.py:766-868 | A change that is compared line by line has no finding if and only if every line of its hunks counts for nothing or is there: an added one on main, with its paths moved if need be, or given up by the head, or excused; a removed one gone from main, or back at the head. |
| `ReleaseWindow.CheckReleaseBranch` | tools/release_window.py:893-925 | A branch passes if and only if every change of every commit does. |
| `ReleaseHistory.NetChangeIsOnMain` | tools/release_window.py:893-925 | If every commit of a linear branch passes, each significant line that the head has and the cut has not is on main, and each that the cut has and the head has not is not, however many commits rewrote the file; for fixes, and for work records where they are asked for. |
| `ReleaseHistory.NetFilesAreOnMain` | tools/release_window.py:893-925 | Main has every file that the branch added on the whole, and none that it took away. |
| `ReleaseHistory.HeadPassesExactly` | tools/release_window.py:893-925 | With main at its head, a linear branch passes if and only if every file a commit leaves is there at the head or was moved, and every one it takes away is not. |
| `ReleaseHistory.TakenOutIsReported` | tools/release_window.py:745-756 | A branch that adds a file and takes it out again is reported with main at its head. |
| `CiLanes.Dependents` | tools/ci_lanes.py:327-341 | The worklist ends with exactly the packages from which a chain of dependencies leads to a touched one. |
| `CiSelection.Select` | tools/ci_lanes.py:360-435 | The loop over the paths sets the flags and packages of the specification `Selects`, the subject of `SelectedForAReason`. |
| `CiReasons.OwnerIsLongest` | tools/ci_lanes.py:360-435 | A path's owner is the package with the longest folder that holds it, the first of equals, and there is none exactly when no folder does. |
| `CiReasons.SelectedForAReason` | tools/ci_lanes.py:360-435 | Every part of a selection follows from the changed paths: the lane is full exactly for a forced, labelled or empty change, a build-wide path or one that no rule covers; each check is selected exactly when a path that is not build-wide asks for it; a package exactly when a chain of dependencies leads from it to one that such a path touches. |
| `CiReasons.UncoveredRunsEverything` | tools/ci_lanes.py:286-306 | One changed path that is in no package, fuzz folder or shared input and is no document makes the workflow run every package, system and check. |
| `CiReasons.WhatIsAskedIsRun` | tools/ci_lanes.py:286-306 | Whatever any other changed path asks for reaches the workflow, and every member it touches is checked. |
| `CiSelection.OutputsJoinExactly` | tools/ci_lanes.py:286-306 | Two changes together run exactly what either of them runs if and only if neither names a package that is no member beside one that alone runs everything. |
| `CiSelection.NoLessExactly` | tools/ci_lanes.py:360-435 | More changed paths run no less if and only if the fewer name members only, or run everything too, or the more do not. |
| `CiSelection.SameSetSameSelection` | tools/ci_lanes.py:360-435 | Reordering or repeating paths changes nothing. |
| `CiTable.StrayPackageIsLost` | tools/ci_lanes.py:148-193 | Under the repository's own table, a changed schema runs no less for a changed root manifest beside it if and only if every package the schemas are shared with is a member. |
| `CiTable.TableNamesMembers` | tools/ci_lanes.py:148-193 | Every package in the repository's table is a member of its workspace, so nothing is lost there. |
| `JsonDepth.Depth` | fuzz/src/lib.rs:1740-1764 | The loop over bytes ends with the deepest level of the automaton `Run`, the subject of `ScannedIsValueDepth`. |
| `JsonDepth.ScannedIsValueDepth` | fuzz/src/lib.rs:1768-1776 | However a JSON value is spelled, whatever brackets, quotes and backslashes its strings hold, the scanner counts the depth of its structure. |
| `OcrRunner.WrittenIsRead` | tools/p16_ocr_runner.py:262-284 | The records written for any readings are read back as those readings. |
| `OcrRunner.ParseRead` | tools/p16_ocr_runner.py:262-284 | A stream is accepted if and only if it is a valid greeting and what is written for some readings of that count; those are returned. |
| `OcrRunner.IouIsASimilarity` | tools/p16_ocr_runner.py:312-320 | Overlap is symmetric, between nought and one, and one exactly for the same box with an area. |
| `OcrRunner.IouCountsPoints` | tools/p16_ocr_runner.py:312-320 | Overlap is the number of points in both boxes over the number in either. |
| `OcrRunner.ParityOfFrame` | tools/p16_ocr_runner.py:323-344 | Each reference line is paired with the unused line it overlaps most, at least the threshold, the last of equals; pairing is injective, the pairs of equal text are counted exactly, and paired and unpaired lines make up the runner's. |
| `OcrRunner.DiagnoseFrame` | tools/p16_ocr_runner.py:408-442 | Every reference line adds one outcome: the difference to the line it is paired with, the first of equals, or whether it overlaps an unused line at all; every runner line that is left adds one as the runner's alone; nothing else is added. |
| `OcrRunner.OnePairing` | tools/p16_ocr_runner.py:323-344 | There is one way to pair the lines of a frame. |

## Left out

What a listed member does not promise:

- ResumedRun.RunChunks: a model swapped in and put back between an answer and the identity read after it is not noticed by the code (crates/vsift-application/src/asr.rs:1311-1326), so the model assumes that a swap still shows when the identity is read; recogniser, audio and validation of a chunk's output are deterministic parameters.
- ResumedRun.ResumeUntilDone: progress figures, the observer, the gate between chunks and admission are not modelled; a checkpoint that a mishap puts under the run's own key is assumed to hold what its window gives.
- MergeCoverage.MergeLosesNoSpeech: stretches of unplaced words, and joining the nearest of them, are not modelled; a text is the list of its words.
- SettledMerge.SettledIsFinal: holds for chunks whose audio begins no earlier than the allowed bound before their windows, which the code requires of a run that publishes (crates/vsift-application/src/asr.rs:661-683); settled unplaced stretches and warnings are not modelled.
- OpenRevisions.PublishedIsFinal: speaks of the revisions that are built; `RevisionChecks.SealedIsValid` and `OpenIsValid` say when they pass their checks.
- RevisionChecks.SealedIsValid: of the checks of a transcript revision, the stretches carried as untranscribed, the unplaced stretches, calibrated confidence, the source that a chunk's record names and the largest numbers of segments are left out. Identities are taken to be distinct, and warnings are a list.
- RevisionChecks.OpenIsValid: leaves out the same checks as `SealedIsValid`.
- RevisionChecks.StoppedIsValid: leaves out the same checks as `SealedIsValid`.
- InstallRun.InstallPlan: reasons for a failure are abstract, except that no step fails by being blocked; progress counters and observers are left out; the two fetches are interleaved step by step.
- InstallPart.Part.InstallUnit: a step that fails with the download in hand disposes of it in some way of the step's own.
- BundlePages.AcceptedContinuesTheSameList: a manifest is taken to name its bundle exactly, so the same manifest holds the same hits; the digest is a function without collisions.
- BundleSearch.SearchBundles: how a record is matched against the words, and coverage reports of a bundle, are parameters; hits of one tier are fewer than 2^32, beyond which the code's counter saturates; a token is its fields, not their encoding.
- ReleaseHistory.NetChangeIsOnMain: for files that only the first excuse and a moved path inside a line can reach; the other excuses, kinds of paths and normalisation are predicates of the context. Merge commits are not compared by the code either.
- ReleaseWindow.CompareChange: apart from superseded lines and paths that main moved, the excuses are predicates of a path and a line, or of a path and a time; the code's excuses 3 and 6 also look at the other lines of the hunk.
- ReleaseWindow.WrittenIsRead: lines are given; splitting a text at unusual separators is not modelled.
- CiSelection.Select: the fuzz folder, documents, platform markers and worker paths are predicates of a path; `CiTable` holds the table of shared inputs and the build-wide files as they are.
- OcrRunner.ParseRead: records are given as decoded; checking the fields of their JSON is not modelled.
- EvidenceKey.RequestMaterialIsInjective: of the material; SHA-256 of it is not modelled.

What the repository does beyond this model:

- Times are unbounded: saturation near 2^64 microseconds is not modelled.
- The merge rules are functions on values, so the order in which their loops touch a set is not modelled; the loops of the revision builders are modelled as loops.
- Ports, processes, downloads, media decoding and signal processing.
- Rendering, argument parsing and reports.
- Async machinery, admission waits and durability of files.
- `spread` of the OCR evaluation and the other helpers of the tools, which one body explains.
