# A model of fastwalk, and proofs about it

fastwalk is a Go library that walks a file tree with many goroutines at once. This project models its
hard parts in Dafny and proves what they promise:

- **The parallel walk.** `Protocol` is a transition system of the coordinator, the workers, the three
  bounded channels and the close-only `donec`. The scheduler may pick any enabled step, the number of
  workers is arbitrary, and the callback is a function of everything that has happened before, so it may
  have any internal state. `Ledger` gives sums over all that a state holds; nearly every proof about runs is
  an account kept with it. `Safety` holds what is true for any callback: the meaning of `out`, quiescence at a nil
  return, no deadlock, bounded shutdown. `SequentialWalk` is a plain recursive walk, and `Refinement`,
  `Results` and `Termination` show that every interleaving does what it does. `Walker.Walk` is the
  walk driven by an arbitrary scheduler. `Outcomes` and `Schedules` say exactly which errors Walk can
  return when several calls fail, and `SkipDirs` when it returns SkipDir. `WalkErrors` and `ErrorsKept` say
  what becomes of the errors that the callback answers and that the reading of directories ends in: the one
  exactly, against the recursive walk, the other in every run of a callback with a memory.
- **What answers mean.** `Consent`: nothing is read that the callback has not permitted, and what it prunes
  stays pruned. `SkippedFiles`: directories are opened once, and ErrSkipFiles is kept. `InOrder`: the entries
  of a directory are called for in the order of its listing, so in sorted order if it is sorted.
- **Paths.** `Ownership` (no path gets two calls without an error), `Paths` and `Strings` (nor does any path
  string; joining, root cleaning, `itoa`).
- **Cyclic file systems.** `Graph` is a static file system of inodes in which links are arbitrary edges.
  `Follow` shows that the check against ancestors ends every walk; `Depth` treats MaxDepth, and `Unpruned`
  says what is visited when nothing is pruned; `Possible` bounds what any callback can cause to be queued;
  `GraphWalks` applies the results about paths.
- **The adapters for duplicates.** `Adapters` and `GraphSearch` model them. `AtMostOnce` and
  `SearchTermination` count, for any callback they wrap, how often a directory is read and how long the walk
  takes. A wrapped callback that itself answers ErrTraverseLink under IgnoreDuplicateDirs has directories read
  again, without end if it likes (`ReadForever`); `AskedFor` shows that only such a callback does, by taking a
  walk in which it asks for a link and building another one in which the link leads back (`Regraft`, `Mimic`).
  `ReadOnce` shows, for a wrapped callback that prunes nothing, that the walk is a search of the graph, and
  when it fails; `EntryCalls` counts the calls of such a search, `Unreadable` has the walks that fail, and
  `FollowEffect` says when Follow makes a difference. `InnerAnswers`: what the wrapped callback answers
  reaches the walk.
- **Shared state.** `EntryFilters` and `StatCache` have the sharded filter and the cached stat results twice:
  as classes, for one goroutine, and as interleavings of the steps of any number of goroutines.
- **Reading a directory.** `Dirent` decodes raw records, `Sorting` is `sortDirents`, `DirReader` is the
  refill loop with its two ways of passing entries on, `EndlessLoop` takes it iteration by iteration and
  says when it does not end, and `DirectoryLoop` ties it to the walk.
- **Windows.** `LongPath` is `fixLongPath`.

In three places the code and its comments disagree, and the model follows the code. The comment on a
record that is cut off says that stopping there avoids an endless loop, but its caller does not stop: it
repeats for ever (`EndlessLoop.ReadDirLoopsExactly`). SkipDir is documented as never returned, but it can
be: when a callback answers SkipDir for a file and hands back the errors it gets
(`SkipDirs.SkipDirCanBeReturnedForFiles`); and with the library's own adapters around a callback that answers
nil to everything, exactly if a directory that cannot be read is reachable
(`Unreadable.SkipDirExactlyIfUnreadable`): the adapters take the report of the error for a second visit. And
Follow is documented to have no effect under IgnoreDuplicateDirs, but it keeps the walk out of the
directories above the root; it has no effect exactly if none of them can be reached
(`FollowEffect.FollowHasNoEffectExactly`).

Two more limits are exact: a MaxDepth is kept if and only if it is less than 2^32, since the depth of an entry
is held in 32 bits (`Depth.LimitHoldsExactly`), and a Linux record in use whose length field is 18 is the only
input on which `Parse` indexes out of range (`Dirent.PanicsExactly`).

## Model

| member | source | states |
|---|---|---|
| Safety.OutCountsUnfinishedItems | fastwalk.go:471-491 | at every point of every run before donec is closed, `out` is the number of items in workc, plus workers holding an item, plus results in resc |
| Safety.StepInv | fastwalk.go:470-527 | each step of coordinator or worker keeps the channel bounds, that count, that the coordinator never rests with nothing left, and that a nil return stays quiescent |
| Safety.NilReturnIsQuiescent | fastwalk.go:493-506 | when Walk takes `return nil`, the stack and all three channels are empty and every worker is idle or gone |
| Safety.DeadlockFree | fastwalk.go:472-555 | until Walk has returned, some goroutine can move in every reachable state, also with all workers blocked in enqueue |
| Safety.ShutdownIsBounded | fastwalk.go:513-555 | once donec is closed every schedule is over after a number of steps that leftover items and entries determine, even if workers keep taking items, and the error stays |
| Safety.ReturnedIsFinal | fastwalk.go:427-431 | after Walk has returned nothing can move, so no callback runs |
| Refinement.AdvanceKeepsFuture | fastwalk.go:611-663 | each step of a worker is exactly the next part of what the recursive walk does with its item |
| Refinement.StepConserves | fastwalk.go:470-663 | the step invariant: what is logged plus what stack, channels and unfinished directories still owe stays the same for every event; only a walk that is returning an error may drop work |
| Refinement.NothingExtra | fastwalk.go:470-663 | no run, not even one that fails, makes a call or opens a directory more often than the recursive walk |
| Refinement.NothingLost | fastwalk.go:493-506 | a run that returns nil did the same things as the recursive walk, equally often |
| Refinement.NilReturnPickedAll | fastwalk.go:470-555 | if Walk returns nil, the root and, with each item, everything queued for it has been picked up |
| Refinement.NilReturnIsSequentialWalk | fastwalk.go:347-509 | for any file system, pure callback, number of workers and interleaving: if Walk returns nil, the recursive walk terminates and the two did the same multiset of things |
| Results.StepKeepsResults | fastwalk.go:488-491 | results equal to a given error, still to come or waiting in resc, are only used up by the coordinator receiving them |
| Results.WhatWalkReturns | fastwalk.go:488-509 | for a pure callback Walk returns nil if and only if no call of walk in the recursive walk fails, and otherwise returns the error of one of them; which these are, the next rows say |
| WalkErrors.ResultsExactly | fastwalk.go:642-663 | for a pure callback: the errors that calls of walk result in are exactly those that the callback answers to the call for a directory (SkipDir is none) or to the report of an error |
| WalkErrors.ReportedExactly | fastwalk.go:611-663 | an error is reported for a directory if and only if the callback answers it to the call for one of its entries and it ends the reading (not nil or ErrSkipFiles; for a link not SkipDir or ErrTraverseLink either), or the directory was opened, no answer ended its reading, and its listing ends in the error |
| WalkErrors.HandedBackExactly | fastwalk.go:611-663 | so if the callback hands back the errors it gets, a call of walk results in an error exactly if the callback answers it for a directory or for an entry, or a listing ends in it, as in the two rows above |
| WalkErrors.WalkReturnsFailure | fastwalk.go:488-509 | and then Walk returns nil, in every interleaving, if and only if nothing fails in that sense, and otherwise an error with which something does |
| ErrorsKept.StepErrors | fastwalk.go:470-663 | the step invariant for any callback, also one with a memory: each answer that is an error is on its way to Walk or to its report, each opened directory with a read error is in work or reported, and nothing else is reported or returned |
| ErrorsKept.NilMeansNoResult | fastwalk.go:642-663 | for any callback: if Walk returns nil, every report of an error was answered with nil, and the call for every directory with nil or SkipDir |
| ErrorsKept.NilMeansReported | fastwalk.go:617-660 | and every answer for another entry that ends the reading of its directory was reported after it |
| ErrorsKept.NilMeansReadErrorReported | fastwalk.go:657-660 | and so was an error of every directory that was opened and whose listing ends in one |
| ErrorsKept.ReturnedWasAnswered | fastwalk.go:488-491 | for any callback: an error that Walk returns is one that the callback answered to the call for a directory or to a report |
| ErrorsKept.ReportedHasReason | fastwalk.go:657-660 | for any callback: an error that is reported is the one that the listing ends in, or an answer to the call for an entry of the directory |
| SkipDirs.SkipDirNotReturned | fastwalk.go:58-61 | if the callback, however stateful, answers no error with SkipDir, Walk does not return SkipDir |
| Outcomes.StepOutcome | fastwalk.go:470-555 | the step invariant that keeps other errors from being returned: before an error is delivered, each item is reached through at most as many failing calls as there are failing workers |
| Schedules.Climbs | fastwalk.go:470-555 | for each way down from the root with fewer failing calls than workers there is a schedule that brings a worker to its end before any of them returns |
| Schedules.ReturnsExactly | fastwalk.go:488-509 | for a pure callback and any file system, also if the recursive walk does not end: Walk can return an error if and only if some call of walk results in it and of the calls above that fewer fail than there are workers |
| SkipDirs.SkipDirReturnedExactly | fastwalk.go:642-663 | for a pure callback: Walk returns SkipDir only if some error reported to the callback is answered with it; then it fails in any case, with the result of some call of walk, and if no call has another error, with SkipDir |
| SkipDirs.SkipDirCanBeReturnedExactly | fastwalk.go:58-61 | for a pure callback: Walk can return SkipDir if and only if some call of walk reports an error that is answered with it, and of the calls above it fewer fail than there are workers |
| SkipDirs.SkipDirFromFilesExactly | fastwalk.go:617-660 | for a callback that hands back errors: some call of walk returns SkipDir if and only if an entry that is neither directory nor link is answered with it |
| SkipDirs.SkipDirReturnedForFiles | fastwalk.go:617-660 | so under such a callback Walk returns SkipDir only if such an entry is so answered; then it fails in any case, and if no call has another error, with SkipDir |
| SkipDirs.SkipDirCanBeReturnedForFiles | fastwalk.go:617-660 | and it can return SkipDir if and only if such an entry is so answered in a directory with fewer failing calls of walk above it than there are workers |
| SkipDirs.VisitReturnsSkipDir | fastwalk.go:642-663 | one call of walk returns SkipDir exactly if its second call of the callback does, whatever the first one answers |
| SkipDirs.SkipDirExample | fastwalk.go:657-660 | a callback that answers SkipDir for a file and hands back the errors it gets makes Walk return SkipDir in every run |
| Termination.RunIsBounded | fastwalk.go:470-527 | if the items that may be queued form a finite tree, every schedule is over after a number of steps given by that tree |
| Termination.TerminatesIfSequentialDoes | fastwalk.go:470-527 | if the recursive walk terminates, so does every parallel one, under any scheduler |
| Walker.Walk | fastwalk.go:414-509 | under any scheduler that moves when it can: fails with an error and without a call if the root cannot be statted, and otherwise ends, with the outcome and (on nil) exactly the events of the recursive walk |
| Possible.PossibleCovers | fastwalk.go:611-640 | whatever the callback answers, a worker only queues subdirectories and links that Follow or ErrTraverseLink may traverse |
| Possible.BoundedTree | fastwalk.go:611-663 | if those form a tree of a given depth, every run under any callback is finite and no path in it is longer |
| Ownership.CalledOnce | fastwalk.go:611-663 | for any callback, Follow on or off, and any file system with distinct names in each directory: a path is passed to the callback without an error at most once, as link and as directory together |
| Ownership.CallsAreDistinct | fastwalk.go:617-625 | two calls without an error have different paths |
| Consent.OpenedWithConsent | fastwalk.go:611-656 | for any callback, in any run: a directory is opened only after a call for its path that was answered so as to permit it (nil, or ErrTraverseLink for a link; with Follow also nil, if the check allows) |
| Consent.CalledForFound | fastwalk.go:611-663 | a call is made only for the root, for an entry of a directory opened before, or to report an error of such a directory |
| Consent.PrunedStaysPruned | fastwalk.go:370-371 | after an answer that does not permit reading, such as SkipDir, no call is ever made below that path, by any worker |
| SkippedFiles.OpenedOnce | fastwalk.go:611-663 | for any callback, in any run: no path is opened as a directory twice |
| SkippedFiles.SkipFilesIsKept | fastwalk.go:53-56 | once the callback has answered ErrSkipFiles for an entry of a directory, no file in that directory is passed to it |
| InOrder.CalledInListedOrder | fastwalk.go:611-640 | for any callback, in any run: of two calls without an error for entries of one directory that are no directories, the earlier is for the entry listed first |
| InOrder.CalledInSortedOrder | fastwalk.go:296-300 | so if the listing is sorted, those calls are made in the order of the sort mode, at whatever path and with whatever in between |
| Paths.EveryCall | fastwalk.go:593-612 | a property of paths that passes from a directory to its entries holds of every path the callback gets |
| Depth.DepthIsPathLength | fastwalk.go:652-656 | the depth of an entry is the length of its path below the root modulo 2^32, and under a limit that fits it never exceeds the limit |
| Depth.HugeLimitIsNoLimit | dirent_unix.go:48-55 | with a MaxDepth of 2^32 or more the runs are exactly those without a limit |
| Depth.LimitHoldsExactly | fastwalk.go:311-314 | MaxDepth m > 0 is kept in every run of every walk if and only if m < 2^32 |
| Depth.MaxDepthTerminates | fastwalk.go:652-655 | a limit that fits makes every run finite, also with cyclic links that the callback asks to traverse |
| Unpruned.VisitsExactly | fastwalk.go:611-660 | with a callback that prunes nothing, any MaxDepth or none, Follow on or off, links traversed or not, with read errors: every run that ends returns nil, each entry (at depth at most MaxDepth, if that is positive and fits) got exactly one call without an error, nothing else got one, and calls with an error report read errors |
| Traverse.ShouldTraverseLink | fastwalk.go:566-591 | the loop over lexical parents decides the predicate that the walk uses |
| Traverse.NoAncestorExactly | fastwalk.go:577-590 | that predicate: every proper prefix of the path can be statted and none is the target |
| Traverse.EntryIsQueuedExactly | fastwalk.go:611-640 | an entry that is no directory is queued exactly if it is a link and, without Follow, the callback asks for it, with Follow, the callback answers nil or asks and the link leads to a directory that no path above it names, all of which can be statted; SkipDir and ErrTraverseLink are no errors for a link, and any other answer is passed on |
| Follow.NoAncestorMeansNew | fastwalk.go:577-590 | a link that passes the check leads to a directory that no ancestor of the link names |
| Follow.StepHasLessRoom | fastwalk.go:634-637 | on each step down, to a real directory or over a followed link, the pair of (directories not yet on the path, height) falls |
| Follow.FollowTerminates | fastwalk.go:269-281 | with Follow on every run on a finite file system is finite under any callback, and path length is bounded by directories times (height + 1) |
| Graph.ResolveEntry | fastwalk.go:593-612 | the path of an entry names what the entry's link leads to |
| Adapters.SeenWasCalled | entry_filter_unix.go:36-59 | the filter holds only files that a call was made for |
| Adapters.InnerCalledOncePerSeen | adapters.go:75-91 | over any sequence of calls, IgnoreDuplicateFiles calls the inner callback exactly once for each file seen |
| GraphWalks.PathsOnce | fastwalk.go:611-663 | in every walk of a graph, with any callback and any link cycles, no path gets two calls without an error and none is opened twice |
| GraphWalks.NothingBelowPruned | fastwalk.go:370-371 | likewise, nothing below a path that the callback prunes is called |
| GraphSearch.CallClaims | adapters.go:42-91 | for any inner callback: a call puts at most its own file in the filter; it has a directory read exactly if it is the first call for it and passes, or if the inner callback asks for the link to be traversed; and a link to a directory is never answered with nil |
| GraphSearch.SkippedIsNotRecorded | adapters.go:45-53 | IgnoreDuplicateDirs records a directory with every call for it, unless the inner callback answers SkipDir |
| GraphSearch.DirsAnswer | adapters.go:42-64 | IgnoreDuplicateDirs passes every call on; an inner answer other than nil is the answer, and so is nil unless the call is for a directory, which is skipped if seen, and entered or traversed if new |
| GraphSearch.FilesAnswer | adapters.go:75-91 | IgnoreDuplicateFiles passes on exactly the calls for files that can be statted and have not been seen, and records those; the inner answer is the answer, but that nil has a new link to a directory traversed; otherwise directories are skipped and other files passed over |
| InnerAnswers.InnerErrorsKept | adapters.go:42-91 | around either adapter, in any run: if Walk returns nil, the inner callback has answered each report it got with nil and each call for a directory with nil or SkipDir, and its other errors have been reported |
| InnerAnswers.InnerSkipFilesIsKept | adapters.go:42-91 | after the inner callback has answered ErrSkipFiles for an entry of a directory, no file in that directory is called for |
| AtMostOnce.StepClaims | adapters.go:42-91 | for any inner callback each step keeps the account: the openings of a directory and the claims pending on it are at most as many as the first call that let it pass and the calls in which the inner callback asked for it |
| AtMostOnce.OpenedAtMostOnce | adapters.go:22-41 | with either adapter, for any inner callback, in every run, failing ones too, Follow on or off, with read errors: each directory is opened only if reachable, at most once, and once more for each call in which the inner callback asked for it; under IgnoreDuplicateFiles it cannot ask |
| AtMostOnce.OpenedAsGranted | adapters.go:42-91 | if Walk returns nil, Follow off and no depth limit, that is the exact number of openings |
| AskedFor.MimicRun | fastwalk.go:611-663 | as long as a link has not been called for, a run can be followed step by step by one with the same inner callback on files in which only that link leads elsewhere: the inner callback gets the same calls |
| AskedFor.AskedOpensTwice | adapters.go:48-53 | so if the inner callback asks for a link to a directory in one walk, there is a walk in which a directory is opened twice |
| AskedFor.OnceExactlyIfNeverAsked | adapters.go:22-64 | for any inner callback: IgnoreDuplicateDirs has every directory opened at most once, in all runs of all walks of all files, if and only if in none of them the inner callback answers ErrTraverseLink to a call without an error for a link to a directory |
| Regraft.Regrafted | fastwalk.go:593-612 | for any graph, root and link below it there is a graph in which that link leads to the directory that holds it, and every path from the root that does not follow it looks the same |
| ReadForever.ReadAnyNumberOfTimes | adapters.go:48-53 | a directory with a link to itself, and an inner callback that asks for it: for every number there is a run that opens the directory so often, so the walk need not end |
| SearchTermination.SearchTerminates | adapters.go:42-91 | with either adapter, for any inner callback: every run is over after twelve steps per directory entry, twelve more per entry of a directory each time that the inner callback asks for it, one per worker, and ten more |
| ReadOnce.SearchCall | adapters.go:42-91 | if the inner callback answers nil: a directory is entered by the first call for it and skipped by later ones, and exactly the tracked files are recorded |
| ReadOnce.ErrorCall | adapters.go:42-91 | the report of an error of a recorded directory is never answered with nil |
| ReadOnce.CalledEffect | fastwalk.go:618-640 | of all entries that are no directories exactly the links to new directories are queued |
| ReadOnce.EnterEffect | fastwalk.go:642-656 | a directory is read if its item has claimed it, by this call or before, and not if another has |
| ReadOnce.StepFails | fastwalk.go:657-660 | each step keeps the account of failures: every opened directory with a read error is a failure to come or on its way to the coordinator |
| ReadOnce.StepClaimsExactly | adapters.go:44-62 | until the walk fails, a directory is in the filter exactly if it has been read or one claim on it is pending |
| ReadOnce.StepCoverage | fastwalk.go:611-663 | until the walk fails, what has been linked to from a directory that was opened stays in the filter or ahead of some worker |
| ReadOnce.NilExactlyIfReadable | fastwalk.go:657-660 | Follow off, or no directory above the root reachable: in every interleaving Walk returns nil if and only if every reachable directory can be read; otherwise, if the inner callback lets errors pass, it returns SkipDir |
| Unreadable.SkipDirExactlyIfUnreadable | fastwalk.go:58-61 | around a callback that answers nil to everything: Walk can return SkipDir if and only if a directory that cannot be read is reachable, and then it can return nothing else |
| Unreadable.UnreadableExample | adapters.go:42-91 | with either adapter, on a root that cannot be read: a run that ends with SkipDir |
| ReadOnce.SeenExactly | adapters.go:22-41 | when Walk has returned nil, the filter holds exactly the tracked files reachable from the root |
| ReadOnce.EachReachableDirectoryReadOnce | adapters.go:22-64 | if they can all be read, on any finite file system with any link cycles, in every interleaving, Walk returns nil and has read each reachable directory exactly once and no other |
| ReadOnce.EachFileCalledAtMostOnce | adapters.go:66-91 | under IgnoreDuplicateFiles, in every run and for any inner callback, that is called at most once for each file and only for reachable ones |
| ReadOnce.EachReachableFileCalledOnce | adapters.go:66-91 | if all reachable directories can be read, exactly once for each file reachable through entries that are not broken |
| EntryCalls.StepCalls | adapters.go:22-26 | until the walk fails, each reading of a directory accounts for one call for each of its entries, made or to come |
| EntryCalls.EachEntryCalledOnce | adapters.go:22-26 | if all reachable directories can be read: the callback is called, without an error, exactly once for each entry of each reachable directory, by whatever path, and for no entry of another |
| EntryCalls.RootCalledOnce | adapters.go:22-26 | and exactly once for the root |
| EntryCalls.CalledForNothingElse | adapters.go:22-26 | and for nothing else, and never with an error |
| EntryCalls.InnerCalledForEachEntry | adapters.go:44-50 | IgnoreDuplicateDirs passes all these calls on, also those for directories that it then skips |
| FollowEffect.NeverOpensAbove | fastwalk.go:577-590 | with Follow on, if only links lead up, no run opens a directory above the root |
| FollowEffect.FollowHasNoEffectExactly | adapters.go:27-28 | if only links lead up and all reachable directories can be read: walks with Follow and without open each directory equally often if and only if no directory above the root is reachable |
| FollowEffect.FollowExample | adapters.go:27-28 | a directory with a link to the one above it, in which Follow does make a difference |
| Strings.CleanRootPath | fastwalk.go:667-685 | drops only trailing slashes, leaves a root that does not end in one unless it is "/", keeps a root that is not empty so, and changes no clean root |
| Strings.RenderIs | fastwalk.go:593-600 | the string of an entry is the root, unless that is "/", with "/" and the name for each name below it |
| Strings.RenderInjective | fastwalk.go:593-609 | below a cleaned root different entries have different path strings |
| Strings.NoPathStringTwice | fastwalk.go:611-663 | in any run no string is passed to the callback twice without an error |
| Strings.DigitsDenote | fastwalk.go:689-699 | the digits denote the number, without leading zero, and are at most as many as its decimal length |
| Strings.Itoa | fastwalk.go:689-699 | the loop yields those digits for every uint64, within its buffer of 20 bytes |
| EntryFilters.EntryFilter.constructor | entry_filter_unix.go:32-34 | a new filter holds no file |
| EntryFilters.EntryFilter.KeyInShard | entry_filter_unix.go:36-39 | a file is in the filter exactly if it is in the shard of its inode |
| EntryFilters.EntryFilter.Seen | entry_filter_unix.go:36-47 | the eight shards are one set: tells whether the file was in it, and puts it in |
| EntryFilters.EntryFilter.Entry | entry_filter_unix.go:52-59 | the same for an entry; what cannot be statted counts as seen and is not recorded |
| EntryFilters.Adapter.IgnoreDuplicateDirs | adapters.go:42-64 | the closure over its filter does to filter, inner calls and answer what the walk's proofs assume of it |
| EntryFilters.Adapter.IgnoreDuplicateFiles | adapters.go:75-91 | likewise |
| EntryFilters.ExactlyOneFirst | entry_filter_unix.go:36-47 | in any interleaving of any calls, of those for one file exactly one is told that it is new |
| EntryFilters.SeenOnlyAfterFirst | entry_filter_unix.go:36-47 | whoever is told "seen" comes after another caller who has been told "new" |
| EntryFilters.FilterDeadlockFree | entry_filter_unix.go:38-45 | as long as a call is unanswered, some caller can step |
| StatCache.UnixDirent.GetInfo | dirent_unix.go:29-35 | answers with the cached result if there is one, else with what Lstat reports, which is cached; at most one system call |
| StatCache.UnixDirent.GetStat | dirent_unix.go:37-46 | the same for Stat, which shares the result of Info unless the entry is a link |
| StatCache.StepInv | dirent.go:18-32 | each load, allocation, compare-and-swap and once.Do keeps: a published cell is fresh, being filled by one caller, or holds the one answer; offered cells are private |
| StatCache.StatsAtMostOnce | dirent_unix.go:29-46 | in any interleaving of Info and Stat on one entry at most one system call is made per slot, and none for the info of the root |
| StatCache.SameAnswer | dirent_unix.go:29-46 | all callers of a slot get the same cell and answer; for an entry that is no link, those of Info and Stat alike |
| StatCache.AnswerIsReported | dirent_unix.go:29-46 | and that answer is what the system reported at the one step of the schedule that made the call for the slot, or what the entry of the root started with |
| StatCache.CacheDeadlockFree | dirent.go:18-32 | as long as a caller has not finished, some caller can step |
| Dirent.ValueRoundTrip | internal/dirent/dirent.go:16-37 | reading an integer gives the one that was written, in either byte order |
| Dirent.ByteOrder | internal/dirent/dirent.go:16-37 | in little-endian order the first byte is the lowest, in big-endian order the last |
| Dirent.ParseRecord | internal/dirent/dirent.go:39-85 | the code with its scan for the NUL computes the function that the following rows are about |
| Dirent.PanicsExactly | internal/dirent/dirent.go:64-69 | indexes out of range if and only if the layout is Linux, the record length is 18 and the inode is not 0 |
| Dirent.PanicExample | internal/dirent/dirent_linux.go:19-25 | eighteen bytes on which it does |
| Dirent.ParseInBounds | internal/dirent/dirent.go:39-85 | on all other bytes it consumes no more than there is and finds a name without NUL that lies inside the record |
| Dirent.ConsumesNothingExactly | internal/dirent/dirent.go:41-46 | it consumes nothing exactly if the record is cut off or claims to be empty |
| Dirent.DragonFlyNeverRejects | internal/dirent/dirent_dragonfly.go:15-25 | the rounded length is a multiple of 8 with room for the name and its NUL, so a complete record is never rejected for its name |
| Dirent.ParseEncoded | internal/dirent/dirent.go:39-85 | round trip: whatever follows an encoded record, exactly that record is consumed, its name comes back, and the type of its kind of file, none if the kind is unknown |
| Sorting.NamesInByteOrder | dirent_unix.go:92-95 | of two names the first byte in which they differ decides, and a name comes before those it starts |
| Sorting.LessIsRankThenName | dirent_unix.go:92-145 | each comparator orders by class and then by name |
| Sorting.LessTransitive | dirent_unix.go:92-145 | the comparators are transitive |
| Sorting.LessTotal | dirent_unix.go:92-145 | they are asymmetric, and of two entries of different names one comes first |
| Sorting.SortIsDeterministic | dirent_unix.go:88-146 | for distinct names the sorted order depends on neither the directory order nor the algorithm |
| Sorting.ClassesAreContiguous | dirent_unix.go:97-144 | files, directories and the rest stand together, in the order of the mode |
| Sorting.OrderOfClasses | dirent_unix.go:97-144 | in a sorted listing: with SortDirsFirst directories, then regular files, then the rest; with SortFilesFirst regular files, then the rest, then directories; within these, and with SortLexical altogether, by name |
| Sorting.SortDirents | dirent_unix.go:88-146 | in these three modes leaves the array a permutation in that order, and in any other mode unchanged |
| DirReader.ReadDirent | fastwalk_unix.go:42-51 | refilling the buffer changes nothing in what is still to come |
| DirReader.NextEntry | fastwalk_unix.go:52-74 | parsing one record and filtering it takes exactly the first step of what is still to come |
| DirReader.ReadDir | fastwalk_unix.go:23-107 | streaming passes on the fold over the decoded entries, up to where decoding stops; sorting passes on the fold over the sorted entries, and nothing if decoding does not get to the end |
| DirReader.DecodingIsRoundTrip | fastwalk_unix.go:37-71 | however the kernel splits encoded records into whole-record chunks, decoding gives back, in order, the entries in use that are not called "", "." or "..", each with the type of its kind, or if that is unknown, the one Lstat finds (none if it has vanished; another error ends the reading), and ends with the error of the last read, if there is one |
| DirReader.NamesAreUseful | fastwalk_unix.go:52-57 | if all kinds are known, the names are exactly those of the records in use but for these three, in order |
| DirReader.NoDots | fastwalk_unix.go:55-57 | whatever bytes the chunks hold, no entry is called "", "." or ".." |
| DirReader.EmptyChunkIsTheEnd | fastwalk_unix.go:48-50 | a read of no bytes is the end of the directory, whatever would come after it |
| EndlessLoop.IterationMoves | fastwalk_unix.go:41-57 | an iteration that starts at a record that is cut off or claims to be empty changes nothing; any other ends the loop or leaves fewer chunks or fewer bytes |
| EndlessLoop.EndlessExactly | fastwalk_unix.go:41-87 | no number of iterations ends the loop if and only if it comes to such a record |
| EndlessLoop.ReadDirRefines | fastwalk_unix.go:23-107 | the loop, iteration by iteration, has the outcome that `ReadDir` returns, endless or not |
| EndlessLoop.ReadDirLoopsExactly | fastwalk_unix.go:52-57 | readDir never returns if and only if, the chunks before it decoding to their ends, the record lengths of some chunk lead to such a record, and, when streaming, no entry before it is answered with an error |
| EndlessLoop.StuckExample | fastwalk_unix.go:52-57 | a chunk of zero bytes makes it loop, in every mode and under every callback |
| DirReader.FoldAnswers | fastwalk_unix.go:94-105 | the loop ends with the first answer that is neither nil nor ErrSkipFiles, or at the end |
| DirReader.FoldSkipping | fastwalk_unix.go:96-98 | once files are skipped, the entries that are no files are still passed on |
| DirReader.FoldMeaning | fastwalk_unix.go:40-106 | every entry up to and including the first answered with ErrSkipFiles is passed on, and after that exactly those that are no files |
| DirectoryLoop.ReadDirIsReading | fastwalk_unix.go:23-107 | if readDir on a source returns, then in the walk of a directory with the decoded listing exactly the entries it passed on are called for and queued, and its error is reported |
| DirectoryLoop.ReadingIsTheLoop | fastwalk.go:611-663 | in the walk, a directory gets exactly the calls and queued items of what that loop passes on, and the second call if loop or reading failed |
| LongPath.FixLongPath | entry_filter_windows.go:86-156 | the rewriting in place, always within its buffer, yields the input or the extended form built from its components |
| LongPath.FixedExactly | entry_filter_windows.go:86-156 | a path is changed exactly if it has at least 248 bytes, does not start with two backslashes, is absolute, and has no component ".."; it becomes two backslashes and "?", then a backslash and the name for each component, and one more backslash if that has six bytes |
| LongPath.ComponentsSplit | entry_filter_windows.go:128-149 | the components of a path: it is split at each slash of either kind |
| LongPath.OneComponent | entry_filter_windows.go:128-149 | and what has no slash is a component unless it is empty or "." |
| LongPath.Rewrite | entry_filter_windows.go:128-149 | it gives up exactly if some component is "..", and else has written a backslash and each component |
| LongPath.ExtendedKeepsComponents | entry_filter_windows.go:104-114 | the extended form has the prefix, behind it the components of the path and no others, and is converted no further |
| LongPath.ComponentsOfJoined | entry_filter_windows.go:130-154 | splitting what was joined gives the components back, with or without the trailing backslash of a drive root |
| LongPath.JoinedHasNoSlash | entry_filter_windows.go:106-108 | all separators in the result are backslashes |
| LongPath.FixedIsIdempotent | entry_filter_windows.go:86-156 | fixing a fixed path changes nothing |

## Left out

- A file system that changes during the walk: directories and stat results are a fixed function of the path; a read error is part of a directory's listing.
- System calls and handles, the retries on EINTR, and the kernel: a directory is a list of chunks and the result of the call after the last one.
- Go's scheduler and memory model: one channel operation, one step of a mutex section, one atomic operation, or one callback (with the receive, the depth check or the opening of a directory that follows it) is one atomic step.
- The stat calls of Follow's check against ancestors take no step of their own in the parallel walk, since the file system is static.
- Refinement.NilReturnIsSequentialWalk: needs a callback that is a function of its arguments, as do the other comparisons with the recursive walk; Safety, Ownership, Consent, SkippedFiles, ErrorsKept, Possible, Follow and Depth do not.
- ReadOnce.NilExactlyIfReadable: for an inner callback that answers nil to every call without an error and a root that is a directory, like the other exact results about the search; not with a depth limit, under which what is found depends on the path by which a directory is reached first; and with Follow on only if no directory above the root is reachable, since otherwise Follow keeps the walk out of it (`FollowEffect`). AtMostOnce and SearchTermination need none of that.
- FollowEffect.FollowHasNoEffectExactly: if a real directory below the root were one above it (through a hard link, or a root path with links in it), whether it is read can depend on whether a link to it is called for before it.
- ReadForever.ReadAnyNumberOfTimes: has runs of any length, not the statement that no run of that walk returns.
- Depth.LimitHoldsExactly: paths are of any length in the model; a kernel that bounds them refuses to open the path of more than 2^32 names with which a larger limit is broken.
- Follow.FollowTerminates: real directories must form a hierarchy, which hard links to directories would break.
- Sorting.SortDirents: sort.Slice belongs to Go's library; an insertion sort stands for it, and the result is proved not to depend on the algorithm.
- LongPath.FixLongPath: the length of filepath.VolumeName is a parameter; idempotence holds for any volume of the result.
- Strings.RenderInjective: joinPaths on Unix only; the separators of Windows and ToSlash are not modelled.
- Roots are clean paths and lexical parents drop the last name: filepath.Clean and EvalSymlinks are not modelled.
- DirReader.DecodingIsRoundTrip: a record never straddles two chunks, since the kernel returns whole records.
- Records with inode 0 on wasip1, which are kept there: the model has the Linux and DragonFly layouts.
- The other dirent layouts, the Darwin, portable and Windows variants of readDir and of EntryFilter: near-duplicates of what is modelled.
- DefaultNumWorkers, DefaultToSlash, Config.Copy, IgnorePermissionErrors, SortMode.String and fmtdirent: one-branch facts or lookups.
- The reuse of slices through sync.Pool: it affects allocation only.
