# Verified core of the diff, run-ownership and text kernels

This project models four parts of the application in Dafny and proves what they promise.

1. **The diff-approval engine** (`src/stores/diffStore.ts`): rebuilding a file from its original and the verdicts on
   its blocks, the undo and redo stacks, switching between files, and the asynchronous operations (load, undo, redo,
   rollback, deletion, repair of a superseded write) that may interleave at every suspension point. The asynchronous
   part is a state machine: `DiffProtocol.Next` runs one stretch of one operation, `DiffProtocol.Run` any sequence of
   them. `DiffStores.DiffStore` is the same store as a class whose methods loop over and update the registers in
   place. `DiffStores.DiffRuntime` adds the suspended operations: performing an event on it is `DiffProtocol.Next`, and
   playing a sequence of events is `DiffProtocol.Run`, so what is proved about runs holds of it.
2. **Run ownership** (`src/stores/chatStore.ts` with the two hooks that call it) and the **checkpoint flusher** of a
   planning run (`src/hooks/usePlanningMode.ts`).
3. **The human-in-the-loop rendezvous** (`src/stores/hitlStore.ts`).
4. **String kernels**: path normalization and the deletion test, the two folder-name sanitizers, character budgets,
   the image extractor, and the JSON form of nested maps.

Verify everything with `dafny verify dfyconfig.toml`.

## Where to look

| file | what is proved |
|---|---|
| `Lines.dfy` | splitting and joining round-trips exactly for uniform line endings |
| `MatchRebuild.dfy` | the forward sweep over line ranges equals independent splices |
| `MyersRebuild.dfy` | the edit-script fallback works block by block |
| `DiffContext.dfy`, `Approval.dfy`, `History.dfy` | one context: verdicts are confluent, history chains and is bounded |
| `DiffProtocol.dfy`, `DiffSafety.dfy`, `DeletedPaths.dfy`, `Linearization.dfy`, `Repair.dfy`, `FirstLoad.dfy` | the interleaved protocol: ordering of generations, no resurrection, linearizability, repair |
| `Interleaved.dfy`, `Stacks.dfy` | approval and history lifted to whole runs: a step does nothing to a file on screen or one sequential operation |
| `LoadingFlag.dfy` | exactly when the loading flag of a context is right |
| `LateReject.dfy`, `LateAccept.dfy` | a verdict that waits for its rebuild or its completion, with any run in between |
| `PreviewIds.dfy` | the ids a preview gives to the blocks of a file |
| `RebuildLaws.dfy`, `MyersLaws.dfy` | both rebuilds of a file given piece by piece are the pieces written out under the verdicts, so they agree |
| `ContextLaws.dfy`, `ProtocolLaws.dfy` | the operations on a context and the stretches of the store, field by field |
| `PathLaws.dfy`, `TextLaws.dfy` | laws that determine the normal form of a path; what the text kernels keep, show and drop |
| `DiskTarget.dfy` | what a file holds on disk once overlapping operations and their repairs are over |
| `Scenarios.dfy` | whole runs from the empty store that end where the code is not exact |
| `DiffStore.dfy`, `GenerationKeys.dfy` | the imperative store, event by event and run by run, is the protocol; when string keys are as good as pairs |
| `Paths.dfy`, `RelativePaths.dfy` | normalization and the deletion test |
| `ChatRuns.dfy`, `Checkpoint.dfy`, `Hitl.dfy` | runs, flusher, rendezvous |
| `FolderNames.dfy`, `TextBudget.dfy`, `ImageSpans.dfy`, `MapCodec.dfy` | string kernels |

## Findings about the code

Properties that do not hold everywhere are proved with the exact condition under which they do.

- Rejecting every block one by one ends at the text of `rejectAll` if and only if the original does not mix line
  endings (`Approval.RejectingOneByOneMeetsRejectAll`). For a
  file with mixed endings the two texts differ (`Scenarios.MixedEndingsShow`).
- Finishing a file by a single accept stores the new verdicts with old content. After a review by single verdicts that
  started with an up-to-date entry, coming back shows the right text if and only if the file rebuilds under the verdicts
  of now as it did under those of the start (`Approval.FinishingByAcceptKeepsContent`); without a rejection in between
  it always does. `Scenarios.RejectionLostHere` is a run from the empty store in which it does not: the file shows a
  rejected block and still its new text.
- Rejecting a block writes back a copy of the context taken before the rebuild it waits for. It does what rejecting at
  that moment would if and only if nothing else of the context changed meanwhile (`LateReject.LateRejectIsSequential`).
  Of two overlapping rejects only one is kept (`LateReject.OverlappingRejectsKeepOne`), and a reject waiting during a
  deletion brings the path back if and only if its copy had something under it (`LateReject.ResurrectedExactly`).
  `LateReject.VerdictLostHere` and `LateReject.ResurrectedHere` are runs from the empty store in which that happens.
- Selecting the file that is already open takes the screen back to its stored entry, and the entry gets what was on
  screen (`Approval.ReselectingReverts`).
- Accepting all finds each block again by its id. It settles exactly the pending blocks if and only if none of them has
  the id of a block before it (`DiffContext.AcceptAllSettles`); of two pending blocks with one id the second stays pending
  (`DiffContext.SharedIdStaysPending`). This concerns the store taken alone: the preview of a file puts the position of
  each block into its id, so its blocks always meet the condition (`PreviewIds.PreviewedIsReachable`).
- Accepting all leaves no history entry, so the stacks chain afterwards if and only if they are empty
  (`History.AcceptAllSoundExactly`).
- A context shows as loading exactly while one of its loads is registered, at every moment of a run, if and only if no
  accept-all happens while a load of its context is registered, no deletion hits registered loads of a context without
  sparing one, and no overtaken load drops out as the last one registered (`LoadingFlag.FlagsRightExactly`). Accepting all
  during a load hides the load (`LoadingFlag.FlagDropped`). When two files load and one is deleted, the context shows as
  loading after everything has ended (`LoadingFlag.FlagStuckHere`).
- Completing an accepted file works on whatever file is shown when its write and records are done. It is the completion of
  that file if and only if the blocks are the ones shown then, or nothing is pending there, it has no entry, and another
  file is next (`LateAccept.LateAcceptExactly`). `LateAccept.OtherFileOverwrittenHere` is a run from the empty store in
  which a file loaded meanwhile gets the accepted file's blocks for its own, unseen.
- The history entry of a rollback records the state at its start. It describes the state the rollback really left if
  and only if the applied text, the snapshot mark and the review mode did not change meanwhile
  (`Linearization.RollbackCommitIsSequential`); in runs of loads, undos, redos and rollbacks they cannot.
  `Scenarios.ModeOutlivedHere` is a run from the empty store in which the mode did.
- The prefix test on string keys finds the keys of a context and, besides, exactly those that straddle it, which takes
  a colon in one of the two context ids (`GenerationKeys.PrefixMeansContext`, `GenerationKeys.StraddlingTakesColon`).
- Deleting the Unix root `/` also matches every UNC path, and a bare `//` matches only itself
  (`Paths.DeletedMeansSegmentPrefix`).
- A segment and `..` behind a path cancel, except behind an empty path and a single slash, which together with the next
  slash starts a UNC path (`PathLaws.DotDotTakesBack`, `PathLaws.SingleSlash`). A path that starts with one slash of each
  kind is not taken for a UNC path, and this is the one case in which the kind of slash matters
  (`PathLaws.BackslashIsSlash`).
- Normalizing twice is normalizing once except on relative paths that come out as a drive path with a capital letter,
  such as `./C:/X` (`RelativePaths.IdempotentExactly`).
- The comment on `sanitize_folder_name` promises the front end's result. The two agree exactly on names without the
  characters U+0085 and U+FEFF, which only one of the two counts as white space (`FolderNames.EndsAgreeExactly`).
- With everything rejected the edit-script rebuild restores the original lines if and only if every block touches a
  modification (`MyersRebuild.AllRejectedRestoresOld`); a rejected pure insertion below the first line, in a file where
  some other modification was not placed, touches none and survives (`MyersRebuild.InsertionSurvivesRejection`). With
  nothing rejected the new text comes back if and only if it uses no other line ending than the original
  (`MyersRebuild.NothingRejectedKeepsNew`).
- A 'running' record lands behind the final one if and only if a checkpoint write was in flight after something else
  than 'running' had been recorded (`CheckpointFlusher.StaysFinalExactly`). One progress callback during the final write
  is enough (`CheckpointFlusher.LateProgressOverwrites`).
- A suspended wait is cut off from later resumes exactly by a cleanup under it, by a second wait of its context, or by
  the abort of another wait of its context (`HitlRendezvous.WaiterIsStrandedWhen`).
- A persisted value is read back unchanged if and only if no plain object in it looks like a written map
  (`MapCodec.RoundTripExactly`).

## Model

| member | source | states |
|---|---|---|
| Lines.SplitJoinRoundTrip | src/stores/diffStore.ts:304 | splitting into lines and joining with the detected ending is the identity if and only if the text does not mix endings |
| Lines.JoinGivesBack | src/stores/diffStore.ts:396-397 | joining with either ending gives the split text back if and only if the text uses no other ending |
| Lines.MixedEndingsChange | src/stores/diffStore.ts:304 | a text that mixes endings comes back with CRLF throughout |
| MatchRebuild.RebuildByMatchResult | src/stores/diffStore.ts:331-398 | the loop, cursor by cursor, computes the sweep that the lemmas below are about |
| MatchRebuild.CopyUntil | src/stores/diffStore.ts:353-358 | copying up to a bound copies that slice and stops at the end of the file |
| MatchRebuild.RebuildSplicesKeptBlocks | src/stores/diffStore.ts:336-397 | for blocks inside the file, overlapping or not, the sweep equals bottom-up splices of the greedily kept blocks, which are apart and ordered |
| MatchRebuild.RebuildSplicesAllBlocks | src/stores/diffStore.ts:336-397 | for pairwise disjoint blocks no block is dropped |
| MatchRebuild.RebuildIgnoresListOrder | src/stores/diffStore.ts:339-341 | for disjoint blocks the order of the input list does not reach the file |
| MatchRebuild.RejectingAllRestores | src/stores/diffStore.ts:360-366 | with every block rejected the original lines come back for any ranges at all; the text does if and only if its endings are uniform |
| MatchRebuild.RebuildSeesOnlyRejections | src/stores/diffStore.ts:360-377 | of all verdicts only "rejected or not" reaches the file |
| RebuildLaws.RebuildIsThePieces | src/stores/diffStore.ts:331-398 | for a file given as lines that stay and changes with their verdicts, the rebuild is the pieces written out, each change old or new, with the file's own line ending |
| RebuildLaws.ReplacementGoesIn | src/stores/diffStore.ts:370-378 | one block in an LF file: the whole replacement text takes the place of exactly its lines, a deletion or missing text leaves nothing |
| RebuildLaws.ReplacementGoesInCrlf | src/stores/diffStore.ts:375-376 | the same in a CRLF file, every line of the replacement with CRLF whichever ending it came with |
| RebuildLaws.SortIsStable | src/stores/diffStore.ts:339-341 | blocks that start at one line keep the order of the list |
| MyersRebuild.GroupChanges | src/stores/diffStore.ts:430-457 | the grouping loop with its running minimum and maximum yields the blocks of the specification |
| MyersRebuild.BlocksPartition | src/stores/diffStore.ts:430-457 | the blocks are maximal runs of changes, and every change lies in exactly one |
| MyersRebuild.AssignBlocks | src/stores/diffStore.ts:459-484 | modification by modification, each untaken block it touches is taken: the result is the first toucher in start order |
| MyersRebuild.OwnerMeans | src/stores/diffStore.ts:459-484 | a block has at most one owner, with the lowest first line among those it touches; it has none if and only if it touches none |
| MyersRebuild.RebuildByMyersDiff | src/stores/diffStore.ts:407-546 | the walk writes context lines as they are and every block old or new as a whole |
| MyersRebuild.RebuildContentByDiff | src/stores/diffStore.ts:299-323 | the ranges decide when every block was placed, the edit script otherwise |
| MyersRebuild.NothingRejectedKeepsNew | src/stores/diffStore.ts:523-528 | with nothing rejected the rebuild is the new text line for line; as text it is if and only if the new text has no line ending but the original's |
| MyersRebuild.AllRejectedRestoresOld | src/stores/diffStore.ts:518-522 | with everything rejected and every line-removing block touching a modification, the original lines come back if and only if every block touches one; the text then does if and only if its endings are uniform |
| MyersRebuild.InsertionSurvivesRejection | src/stores/diffStore.ts:455-484 | an insertion below the first line, rejected with all else, stays in the text of a file that one unplaced modification sends down this path |
| MyersRebuild.RebuildSeesOnlyPutBack | src/stores/diffStore.ts:514-529 | a verdict reaches the text only through the blocks it puts back |
| MyersLaws.BlockSpans | src/stores/diffStore.ts:441-456 | a block spans from the lowest to the highest line it removes, both removed in it; one that removes none spans the first line |
| MyersLaws.OneModificationDecides | src/stores/diffStore.ts:466-484 | if the lines a block spans meet the range of one modification only, the block is written old exactly when that one is rejected |
| MyersLaws.NobodyDecides | src/stores/diffStore.ts:514-529 | a block that meets no range is written new |
| MyersLaws.FirstWithTheIdDecides | src/stores/diffStore.ts:514-525 | the status is that of the first modification with the owner's id, and an empty id counts as none |
| MyersLaws.UnplacedSendsToScript | src/stores/diffStore.ts:306-320 | one block without a match or a first line sends the file to the edit script, otherwise the ranges decide |
| MyersLaws.ScriptIsThePieces | src/stores/diffStore.ts:407-546 | for changes that replace lines and lie apart the edit script gives the pieces under the verdicts, however many modifications were not placed |
| MyersLaws.BothRebuildsAgree | src/stores/diffStore.ts:299-323 | for such files both ways to rebuild give the same text |
| DiffContext.FindAfterPut | src/stores/diffStore.ts:735-774 | storing a file entry changes what is found under its id and nothing else |
| ContextLaws.PutKeepsPlaces | src/stores/diffStore.ts:735-774 | a file stored again keeps its place in the order, a new one goes last |
| ContextLaws.ThereAndBack | src/stores/diffStore.ts:2842-2866 | opening another stored file and coming back shows everything as it was, and so does the other file |
| ContextLaws.NextIsFirst | src/stores/diffStore.ts:2273-2278 | the next file to review is the first one stored with a pending block |
| ContextLaws.VerdictOnOne | src/stores/diffStore.ts:2309-2367 | a rejection changes the verdict of one block, can be undone, and empties redo |
| ContextLaws.AcceptLeads | src/stores/diffStore.ts:2242-2299 | accepting stays while blocks are pending, then opens the next file with pending blocks or ends the review |
| ContextLaws.AcceptAllLeads | src/stores/diffStore.ts:2512-2604 | accepting all opens the next file or ends the review and stores the file with its verdicts and text |
| ContextLaws.RejectAllLeads | src/stores/diffStore.ts:2706-2744 | rejecting all shows the original with every pending block rejected, as one step that can be undone |
| ContextLaws.ModeSwitches | src/stores/diffStore.ts:1129-1162 | the review mode opens exactly when something is pending, here or in a stored file, and then on that file |
| ProtocolLaws.EditsTouch | src/stores/diffStore.ts:1129-1162 | an operation on a context changes that one only; in a context nobody has used single verdicts, selections and opening the review do nothing |
| ContextLaws.LoadShows | src/stores/diffStore.ts:2001-2060 | a loaded file is on screen, in review, with an empty history, stored as shown; the file before is stored as it was, vanished ones are not |
| Approval.RunStaysCoherent | src/stores/diffStore.ts:2098-2151 | along any run of accept, reject, accept-all, undo and redo that stays on one file, whatever other files wait for, the content is the rebuild of the original under the current verdicts |
| Approval.ApprovalIsConfluent | src/stores/diffStore.ts:2309-2367 | any two such runs that reach the same verdicts reach the same text |
| Approval.RejectingOneByOneMeetsRejectAll | src/stores/diffStore.ts:2706-2744 | rejecting all blocks in any way meets reject-all if and only if the endings are uniform |
| Scenarios.MixedEndingsShow | src/stores/diffStore.ts:2706-2744 | a loaded file with mixed endings where rejecting its block and rejecting all give two texts |
| Approval.RejectAllCoherent | src/stores/diffStore.ts:2706-2744 | reject-all keeps the invariant exactly for uniform endings, no block being applied |
| Approval.FinishingByAcceptKeepsContent | src/stores/diffStore.ts:2259-2299 | single verdicts from an up-to-date entry on, the completing accept and a switch back: all verdicts are kept, and the text fits them if and only if the file rebuilds under them as under the verdicts of the start |
| Approval.ReselectingReverts | src/stores/diffStore.ts:2842-2866 | selecting the open file swaps the screen with its entry: content, verdicts and both stacks go back, and entry and screen agree after exactly when they did before |
| Approval.SyncPoints | src/stores/diffStore.ts:2842-2866 | selecting another file, undo and redo leave the entry of the open file up to date |
| Scenarios.RejectionLost | src/stores/diffStore.ts:2259-2299 | load a file with two blocks, load another, go back, reject one block, accept the other, go back: both verdicts are there with the text from before them |
| Scenarios.RejectionLostHere | src/stores/diffStore.ts:2259-2299 | such a run from the empty store whose last text is not the rebuild under the verdicts shown |
| DiffContext.AcceptAllSettles | src/stores/diffStore.ts:2512-2538 | accepting all, block by block found by id, settles exactly the pending blocks if and only if no pending block has the id of one before it |
| DiffContext.SharedIdStaysPending | src/stores/diffStore.ts:2528-2536 | of two pending blocks with one id the first takes the second's place and the second stays pending |
| PreviewIds.PreviewedIsReachable | src/services/fast-apply/FastApplyEngine.ts:117-124 | the blocks of one preview, whatever their verdicts and times, meet that condition |
| History.RunStaysSound | src/stores/diffStore.ts:2120-2151 | in every run on one file the two stacks together hold at most 50 entries, the bound as a literal, and chain |
| History.PushKeepsFifty | src/stores/diffStore.ts:2137-2139 | the newest fifty steps are kept, only the oldest of a full stack is forgotten |
| History.AcceptAllSoundExactly | src/stores/diffStore.ts:2512-2604 | accepting all keeps the stacks chained if and only if both are empty |
| History.EntriesChain | src/stores/diffStore.ts:3307-3333 | each entry starts where the one below ended, the newest ends at what is shown |
| History.UndoSound | src/stores/diffStore.ts:3553-3598 | undo shows exactly what the entry recorded and drops nothing from the redo stack: its shift never fires |
| History.RedoSound | src/stores/diffStore.ts:3684-3729 | the same for redo |
| History.UndosThenRedos | src/stores/diffStore.ts:3513-3729 | k undos then k redos restore content, modifications, bases and both stacks |
| ContextLaws.RollbackAndBack | src/stores/diffStore.ts:3266-3335 | a rollback shows its version and leaves the review exactly when no block is left; undo gives back what was shown and the mode, redo the version and its mode |
| ContextLaws.ShownIsStored | src/stores/diffStore.ts:911-938 | what a rollback, undo or redo shows is stored under the file, whole |
| ContextLaws.VerdictMovesKeepMode | src/stores/diffStore.ts:3553-3598 | undoing or redoing a verdict changes text and verdicts only, not the mode |
| Stacks.RunStaysFormed | src/stores/diffStore.ts:2120-2151 | in every run of every operation the two stacks of every file, on screen or stored, hold at most 50 entries together, and each entry's projections show what it says |
| Interleaved.StepIsOneOperation | src/stores/diffStore.ts:3513-3598 | a step of the protocol that stays on the file on screen leaves its look and stacks as they are or performs exactly one sequential operation on it |
| Interleaved.InterleavedStaysCoherent | src/stores/diffStore.ts:2098-2367 | in every such run, whatever is in flight on this file and others, the text stays the rebuild under the verdicts |
| Interleaved.InterleavedConfluence | src/stores/diffStore.ts:2098-2367 | two such runs from any two systems that end with the same blocks of the file rejected end with the same text |
| Interleaved.InterleavedStaysSound | src/stores/diffStore.ts:3063-3335 | in every such run, committing rollbacks included, the stacks hold at most 50 entries and chain |
| Paths.NormalizePath | src/stores/diffStore.ts:50-93 | the segment loop computes the normal form of the specification |
| Paths.SegmentsClean | src/stores/diffStore.ts:69-82 | no empty, dot or dot-dot segment is left in a path with a root |
| Paths.NormalizeIdempotent | src/stores/diffStore.ts:50-93 | normalizing a drive, UNC or Unix-absolute path twice is normalizing it once, and the result reads back as its root and segments |
| PathLaws.DotDotTakesBack | src/stores/diffStore.ts:72-77 | a segment and `..` behind any path but an empty one and a single slash cancel, on drive, Unix and relative paths and behind server and share |
| PathLaws.UncDotDot | src/stores/diffStore.ts:70-77 | directly behind server and share `..` changes nothing, nor behind the server; with anything behind them it takes the last segment back |
| PathLaws.DotDotAtTheTop | src/stores/diffStore.ts:74-79 | `..` stays in front of a relative path and is lost behind the root of a drive or Unix path |
| PathLaws.SegmentGoesBehind | src/stores/diffStore.ts:69-92 | a segment written behind a path stands behind its normal form, in lower case for drive and UNC paths |
| PathLaws.DotStays | src/stores/diffStore.ts:72 | a slash or a dot at the end changes nothing |
| PathLaws.BackslashIsSlash | src/stores/diffStore.ts:51-55 | the kinds of slash are the same if and only if the path does not start with one of each |
| PathLaws.Roots | src/stores/diffStore.ts:57-92 | the normal forms of the roots alone |
| PathLaws.SingleSlash | src/stores/diffStore.ts:51-55 | behind a single slash the law fails: with the next slash it starts a UNC path |
| Paths.DeletedMeansSegmentPrefix | src/stores/diffStore.ts:97-106 | the text-prefix test is segment-list prefix under one root, with its two exceptions exact |
| PathLaws.DeletionReaches | src/stores/diffStore.ts:97-106 | deleting a file reaches that file only, deleting a directory what is written behind its path too, an empty path nothing |
| Paths.ContainmentTransitive | src/stores/diffStore.ts:97-106 | lying under a directory is transitive for any three paths |
| RelativePaths.IdempotentExactly | src/stores/diffStore.ts:50-93 | normalizing is idempotent on every path except relative ones that turn into a drive path with a capital letter |
| RelativePaths.DotSlashDrive | src/stores/diffStore.ts:57-93 | such a path |
| RelativePaths.SegmentsClimb | src/stores/diffStore.ts:72-79 | a relative path keeps dot-dot segments in front only |
| DiffSafety.RunStaysOrdered | src/stores/diffStore.ts:1557-1559 | in every run the latest load in flight is the registered one, registered loads are in flight, and no two operations share a generation |
| DiffSafety.LatestLoadWins | src/stores/diffStore.ts:1991-1994 | a load that passes the commit guard is the newest of its file in flight and the one registered |
| DiffSafety.LoadEffect | src/stores/diffStore.ts:1597-1640 | a stretch of a load goes on, drops out, settles the flag, reports or commits; the last two only as the latest load |
| ProtocolLaws.LoadStarts | src/stores/diffStore.ts:1555-1602 | a load takes the next generation, is registered, has its text as the target to repair to, and only shows as loading |
| ProtocolLaws.LoadGoesOn | src/stores/diffStore.ts:1604-1656 | after yielding: gone when overtaken, reading or giving up on a deleted path, comparing with the disk exactly for first loads of files on disk without applied text |
| ProtocolLaws.DeletedFileGoesOn | src/stores/diffStore.ts:1625-1640 | a load of a deleted path goes on exactly when the file can be read and has the text applied beforehand |
| ProtocolLaws.DiskDecidesTheBase | src/stores/diffStore.ts:1652-1683 | a file on disk of another length becomes the base, the applied text and the target to repair to |
| ProtocolLaws.WorkEnds | src/stores/diffStore.ts:1991-2095 | only as the latest does a load show anything, and in the end it is neither registered nor a target |
| DiffSafety.GenerationsGrow | src/stores/diffStore.ts:120-125 | no step takes a generation of any file back |
| LoadingFlag.LoadingFlagIsRight | src/stores/diffStore.ts:1996-2041 | the flag is right along every run that accepts all only where nothing loads and deletes no file that loads, whatever loads, fails, is superseded or given up |
| LoadingFlag.FlagsRightExactly | src/stores/diffStore.ts:1996-2095 | at every moment of a run a context shows as loading exactly while one of its loads is registered, if and only if every step of the run is safe |
| LoadingFlag.AcceptAllFlags | src/stores/diffStore.ts:2512-2604 | after accepting all the flags are right if and only if no load of the context is registered |
| LoadingFlag.DeleteFlags | src/stores/diffStore.ts:2915-2991 | after a deletion the flags are right if and only if it hits no registered load of the context or spares one |
| LoadingFlag.ResumeLoadFlags | src/stores/diffStore.ts:1573-2095 | resuming a load leaves the flags right unless it drops out, overtaken, as the last one registered in its context |
| LoadingFlag.FlagDropped | src/stores/diffStore.ts:2516-2520 | accepting all while the first file loads: nothing shows as loading although a load is registered |
| LoadingFlag.FlagStuck | src/stores/diffStore.ts:2061-2095 | two files load, one is deleted, the other commits: in the end nothing is in flight and the context shows as loading |
| LoadingFlag.FlagStuckHere | src/stores/diffStore.ts:2061-2095 | such a run with two files |
| DeletedPaths.DeleteClears | src/stores/diffStore.ts:2929-2991 | right after a deletion no entry and no active file lies under the path, other entries are kept, and an active file outside the path keeps its text, verdicts and stacks |
| ContextLaws.DeletingTheActiveFile | src/stores/diffStore.ts:2966-2991 | deleting the file on screen opens the first other file with pending blocks, with its stored state, or empties the screen and ends the review |
| ProtocolLaws.DeletionTouches | src/stores/diffStore.ts:109-127 | a deletion moves the load generation of every file under the path on by one and touches nothing else of the registers |
| ProtocolLaws.MarkersKept | src/stores/diffStore.ts:143-162 | the newest 256 deletions are remembered, each once and the last one last |
| DeletedPaths.DeletionClears | src/stores/diffStore.ts:2911-2923 | and every load in flight under the path is overtaken |
| DeletedPaths.NoResurrection | src/stores/diffStore.ts:2911-2995 | along any run that starts no new load under the path nothing under it comes back |
| DeletedPaths.NoOldLoadCommits | src/stores/diffStore.ts:109-127 | a load from before the deletion never commits in any run, new loads of the file included |
| Linearization.MoveIsLinearizable | src/stores/diffStore.ts:3513-3598 | resuming an undo or redo is the sequential operation on the context of that moment when the guard holds, and the identity otherwise |
| Linearization.UnsavedMoveIsSequential | src/stores/diffStore.ts:3500-3531 | a file that is not on disk is moved at once, unless refused |
| ProtocolLaws.MoveCommitsExactly | src/stores/diffStore.ts:3513-3569 | an undo or redo whose write landed performs the step if and only if generations, registered load, file, text and stacks are those of its start |
| ProtocolLaws.MoveStartsWhen | src/stores/diffStore.ts:3500-3531 | it is refused without an entry or while the file loads, else takes the next generation, and waits exactly for a file on disk |
| Linearization.OvertakenNeverCommits | src/stores/diffStore.ts:3644-3729 | an overtaken undo, redo or rollback leaves the store as it is, however the run goes on |
| Linearization.NewerOvertakes | src/stores/diffStore.ts:3520-3529 | a step that moves a generation of the file overtakes every operation on it in flight |
| Linearization.StartingMovesGenerations | src/stores/diffStore.ts:3073-3074 | starting a load, undo, redo or rollback moves a generation |
| Linearization.RollbackCommitIsSequential | src/stores/diffStore.ts:3266-3335 | a committing rollback equals the sequential one if and only if applied text, snapshot mark and mode are still those of its start |
| ProtocolLaws.TouchedRollbackStops | src/stores/diffStore.ts:3073-3089 | a rollback goes on only while generations, file, active file, text, base, script and blocks are those of its start |
| ProtocolLaws.RollbackStages | src/stores/diffStore.ts:3092-3265 | which stage follows which: the version's text, its base from a record or generated, its blocks unless it is its base, the write for a file on disk |
| Scenarios.ModeOutlived | src/stores/diffStore.ts:3266-3335 | from any quiet state: a rollback starts under review, the mode is left, the rollback commits with an entry that records the review mode |
| Scenarios.ModeOutlivedHere | src/stores/diffStore.ts:1129-1162 | such a run from the empty store |
| Linearization.QuietRollbackIsLinearizable | src/stores/diffStore.ts:3063-3335 | in runs of loads, undos, redos and rollbacks every committing rollback equals the sequential one |
| RepairSafety.AtMostThreeWrites | src/stores/diffStore.ts:941-982 | one operation starts at most 3 repair writes in any run, the bound as a literal |
| RepairSafety.LastWriteIsTheTarget | src/stores/diffStore.ts:962-979 | a repair that stops after a successful write before the cap wrote the current target, and at every moment of that write both generations stood |
| RepairSafety.RepairEndsWhen | src/stores/diffStore.ts:962-981 | when a repair stops, in both directions |
| RepairSafety.OvertakenWriteIsRepeated | src/stores/diffStore.ts:962-979 | a write that was overtaken is followed by one of the newest target while attempts are left |
| RepairSafety.EveryWriteJustStarted | src/stores/diffStore.ts:963-970 | every repair write starts from what is observed at that moment |
| ProtocolLaws.TargetOrder | src/stores/diffStore.ts:953-960 | the content to repair to is that of the registered latest load unless superseded, else the one on screen, else the stored one |
| DiskTarget.DiskHoldsTarget | src/stores/diffStore.ts:941-982 | in every run, loads, verdicts, selections and deletions included: if no write of the file fails or lands on a deleted path and no repair of it runs out of attempts, what was last written is the content its latest load aims at, or else the one on screen or stored, once no repair is in flight, unless something other than a write gave the file another content since |
| DiskTarget.MovesForgetNothing | src/stores/diffStore.ts:3513-3729 | undos, redos, rollbacks and repairs, of any files, never give a file on disk another content than the one they write |
| DiskTarget.TargetOfPast | src/stores/diffStore.ts:953-958 | leaving out the load an operation superseded never changes the content to repair to, as no run registers that load again |
| FirstLoad.StartsInOrder | src/stores/diffStore.ts:710-729 | the invariants of the protocol hold at the start |
| FirstLoad.LoadedIsCoherent | src/stores/diffStore.ts:2001-2060 | a loaded file whose text is its rebuild starts out coherent |
| LateReject.UninterruptedRejectIsEdit | src/stores/diffStore.ts:2309-2367 | with nothing between its two halves a reject is the step of the protocol |
| LateReject.LateRejectIsSequential | src/stores/diffStore.ts:2328-2367 | a reject that finishes late equals rejecting at that moment if and only if nothing of its context changed but what a reject forgets anyway |
| LateReject.OverlappingRejectsKeepOne | src/stores/diffStore.ts:2309-2367 | of two overlapping rejects, whatever runs between them, the later one to finish is kept and every other verdict is that of the start |
| LateReject.VerdictLostHere | src/stores/diffStore.ts:2309-2367 | a run from the empty store in which one of two rejected blocks is pending again |
| LateReject.ResurrectedExactly | src/stores/diffStore.ts:2357-2367 | a reject waiting during a deletion brings the path back if and only if its copy had something under it, however the run goes on without loads there |
| LateReject.ResurrectedHere | src/stores/diffStore.ts:2357-2367 | a run from the empty store in which a deleted file is on screen again |
| LateReject.LateRejectCoherent | src/stores/diffStore.ts:2328-2332 | however late, the text written back is the rebuild under the verdicts written back with it |
| LateAccept.UninterruptedAcceptIsEdit | src/stores/diffStore.ts:2098-2299 | with nothing between its two halves an accept is the step of the protocol |
| LateAccept.LateAcceptExactly | src/stores/diffStore.ts:2259-2299 | completing late equals completing the file shown then if and only if the blocks are those shown then, or nothing is pending there, it has no entry, and another file is next |
| LateAccept.StoredUnderShown | src/stores/diffStore.ts:2264-2272 | the entry of the file shown then gets the accepted file's blocks |
| LateAccept.OtherFileOverwrittenHere | src/stores/diffStore.ts:2259-2299 | a run from the empty store in which a file loaded meanwhile ends with the accepted file's blocks, its own gone and the review over |
| GenerationKeys.PrefixMeansContext | src/stores/diffStore.ts:114-117 | for any ids: the prefix test on string keys finds exactly the keys of the context and the straddling ones, and the rest of a key of the context is the file id |
| GenerationKeys.StraddlingTakesColon | src/stores/diffStore.ts:114-117 | a key straddles a context only with a colon in one of the two context ids |
| GenerationKeys.KeyTextIsInjective | src/stores/diffStore.ts:1556 | for any ids: two different keys share a string only if one context id continues the other with a colon |
| DiffStores.FindIndex | src/stores/diffStore.ts:2100-2101 | the search by id returns the first position with it |
| DiffStores.AcceptPending | src/stores/diffStore.ts:2512-2538 | the loop accepts the pending blocks one by one by id, and settles exactly them if and only if no pending block has the id of one before it |
| DiffStores.DiffStore.MarkDeleted | src/stores/diffStore.ts:143-162 | find, splice, push and shift keep the newest 256 markers, each once, the given one last |
| DiffStores.DiffStore.InvalidateLoads | src/stores/diffStore.ts:109-127 | the loop raises exactly the generations under the path and tells whether one of them is running |
| DiffStores.DiffStore.HasOtherLoad | src/stores/diffStore.ts:129-141 | whether another load of the context is registered |
| DiffStores.DiffStore.HasSurvivingLoad | src/stores/diffStore.ts:2916-2923 | whether a load of the context that the deletion spares is registered |
| DiffStores.DiffStore.StartLoad | src/stores/diffStore.ts:1555-1602 | the first stretch of a load is that of the protocol, new references included |
| DiffStores.DiffStore.ContinueLoad | src/stores/diffStore.ts:1604-2095 | every later stretch of a load is that of the protocol, new references included |
| DiffStores.DiffStore.OpenFile | src/stores/diffStore.ts:1996-2060 | the commit of a load is that of the protocol |
| DiffStores.DiffStore.SettleCancelled | src/stores/diffStore.ts:1579-1594 | a load that gives up leaves the register and settles the flag |
| DiffStores.DiffStore.RemoveEntries | src/stores/diffStore.ts:2931-2945 | the loop over the entries keeps exactly those outside the path, in order |
| DiffStores.DiffStore.DiscardDeleted | src/stores/diffStore.ts:2911-2995 | everything a deletion does before its first suspension point is the step of the protocol |
| DiffStores.DiffStore.StartMove | src/stores/diffStore.ts:3500-3531 | starting an undo or redo is the step of the protocol |
| DiffStores.DiffStore.ContinueMove | src/stores/diffStore.ts:3532-3598 | what follows its write is the step of the protocol |
| DiffStores.DiffStore.StartRollback | src/stores/diffStore.ts:3063-3090 | starting a rollback is the step of the protocol |
| DiffStores.DiffStore.ContinueRollback | src/stores/diffStore.ts:3092-3335 | every later stretch of a rollback is the step of the protocol |
| DiffStores.DiffStore.AcceptModification | src/stores/diffStore.ts:2098-2151 | accepting a block is the step of the protocol |
| DiffStores.DiffStore.RejectModification | src/stores/diffStore.ts:2309-2367 | rejecting a block, with the rebuild by ranges or by the edit script, is the step of the protocol |
| DiffStores.DiffStore.AcceptAllPending | src/stores/diffStore.ts:2512-2604 | accepting all, with its search loop, is the step of the protocol for any ids |
| DiffStores.DiffStore.RejectAllPending | src/stores/diffStore.ts:2706-2744 | rejecting all is the step of the protocol |
| DiffStores.DiffStore.SelectEntry | src/stores/diffStore.ts:2842-2866 | selecting a file is the step of the protocol |
| DiffStores.DiffStore.ChangeMode | src/stores/diffStore.ts:1129-1162 | setting the review mode is the step of the protocol |
| DiffStores.DiffStore.ContinueRepair | src/stores/diffStore.ts:962-979 | what follows a repair write is the step of the protocol |
| DiffStores.DiffRuntime.Perform | src/stores/diffStore.ts:710-729 | any event on the store with its suspended operations is one step of the protocol |
| DiffStores.DiffRuntime.Play | src/stores/diffStore.ts:710-729 | playing any events from any state is the run of the protocol, so every result about runs holds of the methods |
| ChatRuns.RunsKeepOneOwner | src/stores/chatStore.ts:382-427 | for calls in the hooks' order the streaming owner is the sending owner and the latest run, controller and session exist only under an owner, and the bubble is live exactly then |
| ChatRuns.StaleStepsAreErasable | src/stores/chatStore.ts:506-731 | erasing every step of a run that owns nothing leaves the same store |
| ChatRuns.StreamIsTheOwners | src/stores/chatStore.ts:544-673 | bubble, controller and session are exactly what the owner alone would have produced since it opened its stream |
| ChatRuns.StopKeepsText | src/stores/chatStore.ts:675-731 | along any run, stopping the streaming owner leaves on screen exactly what it wrote, takes its stream away, and gives the sending state up in planning only |
| ChatRuns.KeptTextStays | src/stores/chatStore.ts:675-731 | what was kept stays on screen until the next stream opens, whatever calls still come in |
| ChatRuns.EndEmptiesText | src/stores/chatStore.ts:610-642 | along any run, ending empties the bubble, with the agent of the opening, and leaves the sending state of a chat run alone |
| ChatRuns.BeginTakes | src/stores/chatStore.ts:382-408 | a run that starts while nobody else sends becomes the sending and the latest one, any other changes nothing |
| ChatRuns.EndGivesUp | src/stores/chatStore.ts:410-425 | the sending run gives the state up, no other run does |
| ChatRuns.OpensWhen | src/stores/chatStore.ts:506-542 | exactly the sending run opens its stream, empty and without a previous controller or session |
| ChatRuns.LostIsLost | src/hooks/useChatSender.ts:325-328 | a run that is no longer latest, sending or streaming never is again |
| ChatRuns.StaysOneOwner | src/hooks/usePlanningMode.ts:2287-2307 | each stretch of either hook keeps one owner |
| ChatRuns.ChatStore.BeginSending | src/stores/chatStore.ts:382-408 | takes the sending state unless another run has it; other contexts are untouched |
| ChatRuns.ChatStore.EndSendingFor | src/stores/chatStore.ts:410-425 | gives it up for the owner only |
| ChatRuns.ChatStore.OpenStreaming | src/stores/chatStore.ts:506-542 | opens the stream for the sending owner, without the controller and session of a previous owner |
| ChatRuns.ChatStore.WriteStreaming | src/stores/chatStore.ts:544-673 | appends, replaces or stores for the streaming owner only |
| ChatRuns.ChatStore.CloseStreaming | src/stores/chatStore.ts:610-642 | empties the bubble and drops controller, session and owner |
| ChatRuns.ChatStore.StopStream | src/stores/chatStore.ts:675-731 | aborts the stored controller, names the session to cancel, and keeps the text |
| CheckpointFlusher.LostRightStaysLost | src/hooks/usePlanningMode.ts:861-871 | with new run ids a run that lost the right to publish never regains it |
| CheckpointFlusher.MayPublishExactly | src/hooks/usePlanningMode.ts:861-871 | with new ids a run may publish exactly from its start until another run starts, a cancellation is asked for, or it ends |
| CheckpointFlusher.AlwaysSound | src/hooks/usePlanningMode.ts:966-1006 | at most one flush is in flight, and what is dirty has a timer or a flush while the run may publish |
| CheckpointFlusher.SilentAfterLosingRight | src/hooks/usePlanningMode.ts:966-1006 | after losing the right at most the write in flight still lands |
| CheckpointFlusher.FinalRecordStaysFinal | src/hooks/usePlanningMode.ts:1862-1884 | for any writes, failed or still in flight: without progress callbacks after the loop settles no 'running' record follows the final one |
| CheckpointFlusher.NoOrphanLeft | src/hooks/usePlanningMode.ts:1862-1930 | without callbacks after the loop, a checkpoint that is still there when the run is over ends in its final record |
| CheckpointFlusher.KeptFinalSilences | src/hooks/usePlanningMode.ts:966-1017 | once the final record was kept nothing is written, whatever callbacks and timers still come |
| CheckpointFlusher.StaysFinalExactly | src/hooks/usePlanningMode.ts:966-1006 | when every returned write succeeded and none is in flight at the end, no 'running' record follows another one if and only if no write was ever in flight after something else was recorded |
| CheckpointFlusher.LateBeginsWhen | src/hooks/usePlanningMode.ts:995-1006 | such a write comes about exactly when the timer fires on unsaved progress of a live run after another record, or another record lands during a write |
| CheckpointFlusher.FlushStartsWhen | src/hooks/usePlanningMode.ts:966-1006 | a write starts exactly when the timer fires on unsaved progress of a run that may publish, is not finalized and has none in flight |
| CheckpointFlusher.LateProgressOverwrites | src/hooks/usePlanningMode.ts:995-1006 | one late callback is enough to put one there |
| CheckpointFlusher.FlusherCell.ScheduleFlush | src/hooks/usePlanningMode.ts:995-1006 | notes progress and arms the timer while the run may publish |
| CheckpointFlusher.FlusherCell.FlushCheckpoint | src/hooks/usePlanningMode.ts:966-993 | starts a write unless one is in flight |
| CheckpointFlusher.FlusherCell.OnFlushSettled | src/hooks/usePlanningMode.ts:974-990 | a returning write frees its slot and schedules again what became dirty |
| CheckpointFlusher.FlusherCell.StopFlushes | src/hooks/usePlanningMode.ts:1008-1017 | disarms the timer, forgets what is dirty, waits for the write in flight |
| HitlRendezvous.AlwaysSound | src/stores/hitlStore.ts:98-149 | stored messages and their visible marks coincide, no context has both a waiter and a message, resolvers belong to unsettled waits |
| HitlRendezvous.PausedMeans | src/stores/hitlStore.ts:151-158 | paused means asked to pause or a message not yet picked up |
| HitlRendezvous.PauseLasts | src/stores/hitlStore.ts:85-149 | a context stays asked to pause until a resume, an aborted wait, an abort of its wait or a cleanup answers |
| HitlRendezvous.StoredIsLastMessage | src/stores/hitlStore.ts:115-148 | what is stored is the last meaningful message among the unused resumes |
| HitlRendezvous.WaitReceivesLastMessage | src/stores/hitlStore.ts:160-208 | the next wait that is not aborted receives it, and suspends exactly when there is none |
| HitlRendezvous.SettledOnce | src/stores/hitlStore.ts:187-208 | a settled wait keeps its outcome in every run |
| HitlRendezvous.DeliveredAtMostOnce | src/stores/hitlStore.ts:106-114 | every resume reaches at most one wait |
| HitlRendezvous.WaiterIsStrandedWhen | src/stores/hitlStore.ts:193-230 | exactly which events cut a suspended wait off from later resumes |
| HitlRendezvous.NoWaiterIsStranded | src/stores/hitlStore.ts:160-230 | with one wait at a time per context every suspended wait stays registered |
| HitlRendezvous.ResumeWakes | src/stores/hitlStore.ts:98-114 | and the next resume delivers its message to it |
| HitlRendezvous.HitlStore.ResumeWith | src/stores/hitlStore.ts:98-149 | resolves the waiter or stores the message, never replacing a meaningful one by nothing |
| HitlRendezvous.HitlStore.StartWait | src/stores/hitlStore.ts:160-208 | rejects, consumes or registers |
| HitlRendezvous.HitlStore.OnAbort | src/stores/hitlStore.ts:193-199 | rejects an unsettled wait and cleans its context |
| HitlRendezvous.HitlStore.CleanupContext | src/stores/hitlStore.ts:210-229 | removes every mark, resolver and message of the context |
| FolderNames.FrontEndNamesRuns | src/hooks/usePlanningMode.ts:566-575 | the four passes name a folder by its maximal kept runs joined with underscores, or "unnamed" |
| FolderNames.BackEndNamesRuns | src-tauri/src/commands/agent.rs:385-407 | the map, split, filter and join form does the same |
| FolderNames.SanitizersAgree | src-tauri/src/commands/agent.rs:384-407 | under one notion of white space both name the same folder |
| FolderNames.SanitizingTwice | src-tauri/src/commands/agent.rs:385-407 | cleaning a clean name changes nothing |
| FolderNames.EndsAgreeExactly | src/hooks/usePlanningMode.ts:566-575 | with the white space each end really uses they agree if and only if U+0085 and U+FEFF do not occur |
| TextLaws.NameIsItsWords | src/hooks/usePlanningMode.ts:566-575 | a name is its words with one underscore between two, whatever separators lie between and around; without words it is "unnamed" |
| TextLaws.CleanNamesAreSafe | src/hooks/usePlanningMode.ts:566-575 | none of the nine refused characters and no white space is in a cleaned name of either end |
| TextBudget.TruncationIsExact | src/hooks/usePlanningMode.ts:590-604 | over-long text becomes a true prefix, the mark and a true suffix, of length exactly the budget or 19 |
| TextLaws.TruncationSplits | src/hooks/usePlanningMode.ts:590-604 | six tenths of what the mark of 19 characters leaves go to the head, the rest to the tail |
| TextLaws.TailKeepsTheNewest | src/hooks/usePlanningMode.ts:251-271 | behind the notice exactly what the budget leaves for the newest characters is kept, from a line start if one is in sight |
| TextLaws.TrimIs | src/hooks/usePlanningMode.ts:256 | trimming takes blanks off both ends, all of them and nothing else |
| TextLaws.MbSectionShows | src/hooks/usePlanningMode.ts:273-290 | the section of the main agent that fits is its header and its thoughts with blank lines between |
| TextLaws.MbSectionShares | src/hooks/usePlanningMode.ts:291-303 | one that does not fit gives every thought an equal share |
| TextLaws.SaSectionShows | src/hooks/usePlanningMode.ts:342-361 | the section of the sub-agents holds the last twelve lasting observations, each cut to 1200 characters |
| TextLaws.ProgressShowsBoth | src/hooks/usePlanningMode.ts:362-406 | both sections are in the progress text, a blank line between, the second cut from its older end to what the budget leaves; one alone gets it all |
| TextLaws.ReminderShows | src/hooks/chatAttachmentContext.ts:62-128 | the reminder is the header around the items, then the excerpts; one that does not fit is cut behind and closed with the notice |
| TextBudget.TailFits | src/hooks/usePlanningMode.ts:251-271 | the kept part is a true suffix behind the notice, within the budget when the notice fits |
| TextBudget.MbSectionFits | src/hooks/usePlanningMode.ts:273-303 | the section of the main agent stays within its budget |
| TextBudget.ProgressTextFits | src/hooks/usePlanningMode.ts:362-406 | progress text never exceeds its budget when the notice fits both section budgets |
| TextBudget.BuiltInLimitsHold | src/hooks/usePlanningMode.ts:51-54 | with the built-in limits any notice of up to 1798 characters fits |
| TextBudget.ReminderFits | src/hooks/chatAttachmentContext.ts:62-128 | reminder, separator and message stay 120 characters below the message limit when notice and separator are shorter than 320 |
| TextBudget.ReminderOfferedWhen | src/hooks/usePlanningMode.ts:122-150 | exactly when a reminder is offered: a stored attachment, enough tokens, and room beside the message |
| ImageSpans.ExtractGeneratedImages | src/hooks/useChatSender.ts:200-249 | the loop terminates and computes the cleaned text and images of the pieces below |
| ImageSpans.RemovalIsReversible | src/hooks/useChatSender.ts:209-246 | removed spans are ordered and disjoint, and putting them back gives the message |
| ImageSpans.SpansAreMarkup | src/hooks/useChatSender.ts:216-239 | every removed span is the markup of one image, from the nearest opening to the nearest closing |
| ImageSpans.ParseIsExact | src/hooks/useChatSender.ts:233-239 | a data URL is recognized exactly when it is built from an image type and data |
| ImageSpans.ExtractionInvertsRendering | src/hooks/useChatSender.ts:187-249 | from a message built of texts and images exactly those images and texts come out, in order |
| TextLaws.OneImageTakenOut | src/hooks/useChatSender.ts:200-249 | one image between two texts, in its literal markup: the placeholder takes its place, its type, jpeg for jpg, and data come out |
| MapCodec.EncodeIsJson | src/stores/widgetStore.ts:391-396 | what is written holds no map at any depth |
| MapCodec.RoundTripExactly | src/stores/widgetStore.ts:391-407 | a value is read back as written if and only if no plain object at any depth looks like a written map |
| TextLaws.MapIsWritten | src/stores/widgetStore.ts:391-396 | a map is written as an object with the literal tag and its entries as pairs in order |
| TextLaws.RepeatedKey | src/stores/widgetStore.ts:398-406 | of two written entries with one key the later value is read back in the earlier place |

## Left out

- Disk, database and other calls into the shell: a write is a suspension point whose content travels with the waiting
  operation; its answer is a parameter of the resumption.
- The later waits of a load (preview, fallback preview, snapshots, record, rebuild, probing for vanished files) are one
  suspension point that may be resumed any number of times, since each resumes by the same guard.
- `ContentMatcher`, `preview`, `myersDiff`, XML generation and status inference: their results are parameters.
- DiffStores.DiffStore.RejectModification: one step although the code rebuilds behind an `await`; what interleaves with that rebuild is in `LateReject`, beside the events of the protocol, with one or two rejects waiting.
- DiffStores.DiffStore.AcceptModification: one step although the code completes a file behind its writes; what interleaves with those is in `LateAccept`, beside the events of the protocol.
- `undoModification`, `skipModification`, `loadPersistedDiffs`, `deleteSnapshot`, `updateMessageId`, persistence of
  statuses and snapshot lists.
- File names, messages, descriptions, timestamps, error texts, the snapshot panel and the current context id.
- An empty string as a file id counts as a file here; `extractFileDiffEntry` treats it as no file.
- Context ids that continue one another with a colon: the protocol keys its registers by context and file, which is the
  same otherwise (`GenerationKeys`).
- Paths.NormalizePath: lower-cases ASCII letters only, because Dafny's characters have no case folding.
- Strings are sequences of Unicode scalar values; lengths of text outside the basic plane differ from the program's
  count of UTF-16 units.
- Fractions are exact: 0.6, 0.45 and 2.5 are computed without binary rounding.
- DeletedPaths.NoResurrection: covers runs whose rejects are not interrupted (`LateReject.ResurrectedExactly` says what an interrupted one does), and says nothing once a new load under the path starts, because such a load may rightly bring the file back; `NoOldLoadCommits` covers the old loads in that case.
- Approval.RunStaysCoherent: covers runs that stay on one file; a single accept is aimed at a block that is not rejected, because accepting a rejected block flips its verdict without rebuilding the text; and accepting all asks that no pending block has the id of one before it, because the code finds each block again by its id.
- FirstLoad.LoadedIsCoherent: the loaded text is assumed to be the rebuild, because the matcher that makes it so is a parameter.
- MyersRebuild.AllRejectedRestoresOld: asks that line-removing blocks touch a modification, because new lines that replace unassigned old ones may happen to equal them.
- MyersLaws.ScriptIsThePieces: covers scripts that remove and add each change as a whole, changes that replace some line, and lines that stay between two of them, because the script is a parameter and an added line counts as a change of the first line (`MyersRebuild.InsertionSurvivesRejection`).
- RebuildLaws.RebuildIsThePieces: covers blocks that lie one behind the other; overlapping ones are in `MatchRebuild.RebuildSplicesKeptBlocks`.
- CheckpointFlusher.NoOrphanLeft: asks that no progress callback fires after the loop settles, because a late write may bring the checkpoint back (`CheckpointFlusher.LateProgressOverwrites`).
- CheckpointFlusher.StaysFinalExactly: covers runs whose returned writes succeeded and that have none in flight at the end, because a write that fails or never returns leaves no record; `FinalRecordStaysFinal` needs neither.
- DiskTarget.DiskHoldsTarget: says nothing about a file from the moment a load, verdict, selection or deletion gives it another content until its next write by an undo, redo, rollback or repair, because a load takes its content from a file written elsewhere and verdicts write outside the model.
- Interleaved.InterleavedStaysCoherent: excludes committing rollbacks and rejecting all, which give the file another basis or, for mixed endings, another text.
- Interleaved.InterleavedStaysSound: excludes accepting all, because it pushes no entry (`History.AcceptAllSoundExactly`).
- Untagged `chatStore` calls other than the chat stop button; messages, search, selection, quotes and read markers.
- Two runs of one planning hook share a cancel mark per context; only the marks of one context are modelled.
- The formatting of sub-agent observations, and `buildQuotesContext`.
- The JSON text between writing and reading, map keys that are not strings, and values JSON drops.
- Components, themes, settings, schedulers and the other stores.
