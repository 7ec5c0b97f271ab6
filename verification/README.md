# agent-ops, verified

A Dafny model of the parts of the platform where being wrong loses an agent's work, a user's
message or a conversation's files, with proofs over every run, every interleaving or every
input. `dafny verify dfyconfig.toml` checks it.

## What is modelled

**The context-sync sidecar** (`platform/context-sync`). `ContextMachine` has one step for every
file-system operation of the sidecar, every write of the agent, every event of the work contract
and a crash; the file system is paths to inodes and inodes to content and mtime. A run is any
sequence of enabled steps. `ContextInvariant` holds what every step keeps whatever the deployment,
`ContextFidelity` what it keeps under a clock that never repeats an mtime on a path, and
`ContextMemory` what it keeps when every restore starts clean besides. `ContextTheorems`,
`ContextRetention`, `ContextRestore` and `ContextLabels` have what follows for crashes, links,
completions, prunes, restores and labels. `Sidecar` is the code: one class for the store, the
syncer and the proxy, with the loops of the source, the environment acting between any two
operations, and every method moving the machine's state by enabled steps only. `Globs`,
`GlobBases` and `Manifest` are the patterns and the scan.

**The console's watch cache** (`platform/console/cache.go`). `CacheMachine` and `CacheTheorems`
have the mirror, the bounded lossy queues and the resync each overflow owes; `WatchCache` has the
code against a nondeterministic API server.

**The console's transcript** (`transcript.go`, `rehydrate.go`). `OpIds`, `TranscriptStore` and
`TranscriptRuns` have the live buffer and its whole runs, `Transcripts` the class, and
`TranscriptMerge` the merge with the durable record and the order of a thread.

**Housekeeping** (`platform/housekeeping/reclaim.go`). `WorkspaceMachine` and `SessionMachine` put
the two reclaimers beside a running cluster; `Housekeeper` and `SessionKeeper` are their code.

**The Telegram adapter** (`channels/telegram`). `ByteStrings` has the string operations on bytes,
`HtmlSplitter`, `SplitterTermination`, `SplitterContent` and `SplitterBalance` the splitter,
`Packing` and `MessagePacking` the packing of blocks into messages, `Words`, `Blocks` and
`BlockPairs` the block grammar, `TokenBucket` the pacing, and `RetryBudget` the retry loop.

**The gateway** (`gateways/telegram`). `GatewayMachine` has the update pump with a crash possible
between any two steps, `TelegramGateway` its code over that machine, and `Decimal` the offsets it
stores.

## What the proofs found

Each of these is a promise of the code or its comments that holds only under a condition. The
code is modelled as it is; for each a lemma gives the input or the run that breaks the promise,
and another the condition under which it holds, which is exact.

- A copy takes its mtime from before the first read and its size from what was read, so a file
  torn between two writes of the same mtime can match a later scan and be linked onward
  (`platform/context-sync/store.go:253-286`; `ContextTheorems.CoarseClockFails`). A clock that
  never repeats an mtime on a path is exactly what incremental copies and links need
  (`IncrementalExactlyWhen`, `LinksExactlyWhen`); a fresh (size, mtime) pair for every change is
  not enough.
- A file that is live before the restore and is not in `current` is put in the remembered
  manifest by the restore, and no later checkpoint writes it while it does not change
  (`platform/context-sync/main.go:169-191`; `ContextTheorems.DirtyStartFails`). Durable
  completions need clean starts as well as that clock, and no more (`DurableExactlyWhen`).
- An interval checkpoint asks whether work is inflight before it copies, so a generation can be
  labelled quiesced and hold a torn file (`platform/context-sync/main.go:153-154`;
  `ContextLabels.IntervalLabelCanLie`). The label is true exactly when, besides that clock, the
  agent takes no step while a copy so labelled is filling (`LabelTrueExactlyWhen`).
- A directory a crash left unfinished counts towards Retain, so a prune can keep it and remove the
  last whole generation but the new one (`platform/context-sync/store.go:222-250`;
  `ContextRetention.PartialTakesThePlace`, `FallbacksLeft`).
- A backslash in a pattern's literal components escapes in the match and does not in the walk, so
  a file the pattern matches is not found (`platform/context-sync/manifest.go:75-137`;
  `Globs.BackslashMisses`, `NothingMissedExactlyWhen`). A wildcard before a final `**` is compared
  literally (`platform/context-sync/manifest.go:167-169`; `GlobBases.BaseIsPatternExactlyWhen`).
- A RESYNC carries the kind of the delta that happened to be published next, not of the one that
  was dropped, so reading only the named kind again is not enough; and it is queued only when
  something is published again (`platform/console/cache.go:263-282`;
  `CacheTheorems.ResyncNamesAnotherKind`, `OwedMisses`, `QuietHoldsStoreExactlyWhen`). The
  console's browser reads nothing again: the stream passes the RESYNC on as an ordinary delta
  (`platform/console/api.go:470`), the browser returns at once on it
  (`platform/console/ui/src/api/apply.ts:79-83`), and only aggregates of the named kind are read
  again (`platform/console/ui/src/api/stream.ts:162-168`), so an object whose event was dropped
  stays missing (`WatchCache.ConsoleMissesObject`).
- The splitter does not end on every UTF-8 string: a quote tag whose length is within three bytes
  of the budget is closed, reopened and cut again for ever
  (`channels/telegram/render.go:585-609`; `SplitterTermination.WedgeLoops`,
  `SplitterFinishesExactlyWhen`). The tags rendering writes are 12 and 23 bytes long.
- A redelivered op shows twice once 4096 others have been recorded, if its bubble is still in the
  buffer (`platform/console/transcript.go:183-190`; `TranscriptRuns.LateRun`,
  `ShownOnceExactlyWhen`).
- The session grace has to exceed the longest run and also the time from the listing to the
  reading of the clock; the comment names only the run
  (`platform/housekeeping/reclaim.go:162-177`; `SessionMachine.ShortGraceHarms`,
  `SafeExactlyWhen`).
- The block parser's comment says a tag without a closer is literal text. The branch that looks
  for a closer and the one that does not are the same: the region runs to the end
  (`channels/telegram/blocks.go:81-154`; `BlockPairs.LoneOpenerIsStructure`,
  `AllPairedExactlyWhen`). The model follows the code.
- An operation is said always to end while its claim is its own. Half the claim goes to waits, and
  each call may run past the deadline by a round trip, so enough calls of slow requests outlast
  the claim (`channels/telegram/telegram.go:150-151`; `RetryBudget.CanTake`,
  `ClaimHoldsExactlyWhen`).
- An update whose forwarding fails is passed by like one that arrived; the comment beside it says
  that losing one would not be harmless (`gateways/telegram/main.go:225-267`;
  `GatewayMachine.FailedIsPassed`, `ConfirmedIsFinal`, `LosesNothingExactlyWhen`).

## Model

| member | source | states |
|---|---|---|
| `ContextTheorems.DurableExactlyWhen` | platform/context-sync/proxy.go:88-121 | in every interleaving, a completion whose checkpoint reported no error leaves `current` holding exactly the live files; if and only if no change repeats an mtime on a path and every restore finds only files that are in `current` |
| `ContextTheorems.CompletionIsDurable` | platform/context-sync/main.go:133-166 | the same for one reachable state about to forward a completion, skipped checkpoints included |
| `ContextTheorems.CurrentIsWhole` | platform/context-sync/store.go:123-184 | whatever happened, a crash between any two steps included, `current` is absent or names a generation whose files and metadata were all written and are as they were then |
| `ContextTheorems.FinishedGenerationsNeverChange` | platform/context-sync/store.go:261-314 | no write of the agent, restore, checkpoint or crash changes a byte, an mtime or the file list of a finished generation, and no inode of it is live; only a prune removes it |
| `ContextTheorems.NewNumberIsUnused` | platform/context-sync/store.go:210-220 | a new generation's number is above every number ever used, partial, pruned and crashed ones included, so a partial directory is never written again |
| `ContextTheorems.LinksComeFromCurrent` | platform/context-sync/store.go:139-152 | a link shares an inode of the finished current generation |
| `ContextTheorems.RetainHolds` | platform/context-sync/store.go:227-250 | after a checkpoint without error at most max(1, Retain) generation directories are left, and `current` is the newest |
| `ContextRetention.FallbacksLeft` | platform/context-sync/store.go:222-250 | those left are the highest numbers, none of them half removed by an earlier prune; as many of them are finished generations as Retain asks for if and only if there were that many directories and no unfinished one was among the highest |
| `ContextRetention.PartialTakesThePlace` | platform/context-sync/store.go:222-250 | a concrete run with two to retain that removes the whole older generation and keeps one a crash left unfinished |
| `ContextTheorems.IncrementalExactlyWhen` | platform/context-sync/store.go:139-160 | a checkpoint of a tree that did not change ends with that tree in `current`, in every run, whatever earlier checkpoints tore and however restores started; if and only if no change repeats an mtime on a path |
| `ContextTheorems.IncrementalIsFull` | platform/context-sync/store.go:139-160 | the same for one reachable state about to finish, with the manifest remembered that of the tree |
| `ContextTheorems.LinksExactlyWhen` | platform/context-sync/store.go:253-286 | what any link shares is the content the live file had under the stamp scanned, in every run; if and only if no change repeats an mtime on a path |
| `ContextTheorems.TornIsNeverLinked` | platform/context-sync/store.go:253-286 | the same for one link: a torn copy is never linked onward |
| `ContextTheorems.CoarseClockFails` | platform/context-sync/store.go:253-259 | a concrete run: two writes with one mtime and different sizes let a torn file become the current copy of a finished run |
| `ContextTheorems.DirtyStartFails` | platform/context-sync/main.go:169-191 | a concrete run: a file live before the restore and absent from `current` is remembered but never persisted |
| `ContextInvariant.StructureStep` | platform/context-sync/store.go:123-314 | every step keeps the invariant: generations closed, apart from the live tree and from each other's open copy, numbered, sealed ones intact, prune's victims never `current` |
| `ContextInvariant.StructureRun` | platform/context-sync/store.go:123-314 | so it holds after every run from a state that has it |
| `ContextInvariant.VictimsSpare` | platform/context-sync/store.go:227-250 | what a prune selects leaves the newest generation and max(1, Retain) in all |
| `ContextFidelity.KeptStep` | platform/context-sync/store.go:139-160 | under a clock that never repeats an mtime on a path every step keeps what makes copies faithful: links are clean, scans exact, and a filled generation agrees with the live tree wherever stamps agree |
| `ContextFidelity.KeptRun` | platform/context-sync/store.go:139-160 | so every run does |
| `ContextMemory.MemoryStep` | platform/context-sync/main.go:133-191 | with clean starts besides, every step keeps that the remembered manifest describes files `current` holds, and that a completion ready to be forwarded without error is of a tree `current` holds |
| `ContextMemory.RecallsRun` | platform/context-sync/main.go:133-191 | so every run does |
| `ContextRestore.QuietPodWritesNothing` | platform/context-sync/main.go:313-327 | while the agent writes nothing no tick, restore, shutdown or crash of a new pod changes a generation or `current`, and a restored tree is `current` with its manifest remembered |
| `ContextRestore.RestoreReproduces` | platform/context-sync/store.go:102-115 | a tree held by `current` comes back in the next pod with the same paths, contents, sizes and mtimes, so that the next scan is the remembered manifest |
| `ContextRestore.NoWorkBeforeRestore` | platform/context-sync/proxy.go:88-149 | every hand-out of work comes after a restore that succeeded in the same pod |
| `ContextLabels.LabelTrueExactlyWhen` | platform/context-sync/main.go:133-166 | no generation is labelled quiesced with a file in it that does not hold what its live path held under the mtime it carries, in every run; if and only if no change repeats an mtime on a path and the agent takes no step while a copy so labelled is filling |
| `ContextLabels.LabelledIsUntorn` | platform/context-sync/store.go:123-170 | and such a generation still holds those files wherever the run has come to since |
| `ContextLabels.LabelOrigin` | platform/context-sync/store.go:163-170 | every labelled generation was sealed, with its label and what it holds, by one metadata write of the run |
| `ContextLabels.BoundaryCopiesAreLabelled` | platform/context-sync/main.go:133-166 | a generation taken at a work boundary is labelled quiesced with its file and byte counts; under a clock that never repeats an mtime on a path it holds the live tree, file for file, and its manifest is that of the tree |
| `ContextLabels.IntervalLabelCanLie` | platform/context-sync/main.go:153-154 | a concrete run in which an interval checkpoint's quiesced label is false: a unit handed out after the question tears a file |
| `Sidecar.RestoredExactlyWhen` | platform/context-sync/store.go:289-314 | a restore gives a generation back if and only if no file of it bears the metadata file's name |
| `Sidecar.PrefixIsOldest` | platform/context-sync/store.go:236-245 | the first n of the sorted listing are the n lowest generations |
| `Sidecar.VictimsAreListed` | platform/context-sync/store.go:227-250 | walking the sorted listing with `current` passed over removes exactly the victims |
| `Sidecar.RunsAreOnRun` | platform/context-sync/main.go:252-308 | the class's states are those runs reach |
| `Sidecar.Sidecar.ScanTree` | platform/context-sync/manifest.go:97-137 | the scan visits every live path once while the agent goes on |
| `Sidecar.Sidecar.LinkIfUnchanged` | platform/context-sync/store.go:253-259 | links if and only if the previous generation has the path with the scanned size and mtime and the system makes the link, and then shares that inode |
| `Sidecar.Sidecar.CopyFile` | platform/context-sync/store.go:261-286 | the copy carries the mtime the live file had when it was opened, and holds what consecutive reads of that file took, each of what it held at the time, until one found its end; the bytes are counted |
| `Sidecar.CopyOfUnchanged` | platform/context-sync/store.go:261-286 | a copy of a file nobody changed between the first read and the last is that file |
| `Sidecar.Sidecar.WriteMetadata` | platform/context-sync/store.go:155-165 | the metadata has the manifest's length, the bytes the checkpoint copied and the label it was started with, and finishes the generation |
| `Sidecar.Sidecar.FillGeneration` | platform/context-sync/store.go:139-160 | every manifest entry is linked, copied or found gone |
| `Sidecar.Sidecar.Generations` | platform/context-sync/store.go:187-203 | the numbered directories in ascending order |
| `Sidecar.Sidecar.NextGenDir` | platform/context-sync/store.go:210-220 | one more than the highest |
| `Sidecar.Sidecar.MakeCurrent` | platform/context-sync/store.go:177-184 | the link is renamed over `current` in one step |
| `Sidecar.Sidecar.Prune` | platform/context-sync/store.go:227-250 | removes exactly the victims, entry by entry, `current` never |
| `Sidecar.Sidecar.WriteGeneration` | platform/context-sync/store.go:123-170 | a generation filled, sealed and made current, or nothing committed |
| `Sidecar.Sidecar.Checkpoint` | platform/context-sync/main.go:133-166 | skipped, written or failed; the remembered manifest moves only with success |
| `Sidecar.Sidecar.Restore` | platform/context-sync/main.go:169-191 | copies `current` into the live tree and remembers its manifest |
| `Sidecar.Sidecar.ServeWork` | platform/context-sync/proxy.go:88-149 | work is handed out only once a restore has succeeded, and refused otherwise |
| `Sidecar.Sidecar.ServeWorkDone` | platform/context-sync/proxy.go:88-121 | the completion waits for its checkpoint, and if that reported no error `current` holds the live files |
| `Manifest.Scan` | platform/context-sync/manifest.go:53-137 | the manifest is the sorted, duplicate-free listing of the files selected by the includes that end in a recursive wildcard or have no backslash before their first wildcard, and not excluded; where those cover the other includes, of the files testing every one against every pattern selects |
| `Manifest.FoundExactlyWhen` | platform/context-sync/manifest.go:75-137 | a file is found by some walk if and only if an include of that kind matches it and no exclude does |
| `Manifest.WalkingIsTestingExactlyWhen` | platform/context-sync/manifest.go:75-137 | walking finds what testing every file finds, in every tree; if and only if the includes of that kind cover the others |
| `Globs.ReachedExactlyWhen` | platform/context-sync/manifest.go:75-137 | a walk from the literal components comes to a file the pattern matches if and only if the pattern ends in a recursive wildcard or has no backslash before its first wildcard |
| `Globs.NothingMissedExactlyWhen` | platform/context-sync/manifest.go:75-137 | no file a pattern matches is missed, whatever files there are, if and only if it is of that kind or matches no file name |
| `Globs.BackslashMisses` | platform/context-sync/manifest.go:75-85 | a pattern and a file it matches that its walk does not come to |
| `GlobBases.BaseIsPatternExactlyWhen` | platform/context-sync/manifest.go:150-172 | a final `**` selects what lies at or under whatever its base matches; if and only if the base, after any recursive wildcards it begins with, is one itself, has no special character, or is no file name and matches none |
| `GlobBases.WildBaseIsLiteral` | platform/context-sync/manifest.go:167-169 | a wildcard before a final `**` matches only itself |
| `Globs.LiteralsFit` | platform/context-sync/manifest.go:75-85 | what a pattern matches has, component for component, what its literal components say, escapes taken out |
| `Manifest.Changed` | platform/context-sync/manifest.go:180-190 | true if and only if the listings differ |
| `Manifest.ChangedExactlyWhen` | platform/context-sync/manifest.go:180-190 | two listings in order are equal if and only if they list the same files with the same sizes and times |
| `Names.SortedIsUnique` | platform/context-sync/manifest.go:62-67 | a sorted duplicate-free listing is determined by its members |
| `CacheTheorems.ConvergesExactlyWhen` | platform/console/cache.go:246-282 | whoever drained its queue and owes no resync holds exactly the store, in every run; if and only if it answers a RESYNC by reading the whole snapshot again, not the named kind alone and not by nothing |
| `CacheTheorems.QuietHoldsStoreExactlyWhen` | platform/console/cache.go:263-282 | with an empty queue and everything published a subscriber is sure to hold the store if and only if it answers so and owes no resync |
| `CacheTheorems.OwedMisses` | platform/console/cache.go:263-282 | a concrete run that ends so, a resync owed and an object missed: the RESYNC is queued only when something is published again |
| `WatchCache.ConsoleMissesObject` | platform/console/ui/src/api/apply.ts:79-83 | a concrete run at the console's queue length and with its browser's answer, which changes nothing on a RESYNC: it has read everything and misses an object |
| `CacheTheorems.DrainedHoldsStore` | platform/console/cache.go:164-282 | whoever answers so agrees with the store on every published key while changes are pending |
| `CacheTheorems.StaleQueueOnlyDrains` | platform/console/cache.go:263-282 | no ordinary delta is queued between a dropped one and the RESYNC it owes |
| `CacheTheorems.ResyncNamesAnotherKind` | platform/console/cache.go:263-282 | a concrete run whose RESYNC names a kind other than the one dropped |
| `CacheTheorems.InvRun` | platform/console/cache.go:164-282 | in every run, replaying a queue's suffix after its last RESYNC over the store gives the store back |
| `WatchCache.Cache.Publish` | platform/console/cache.go:263-282 | offers one delta to every subscriber: queued, dropped with a debt, or the RESYNC owed |
| `WatchCache.Cache.Replace` | platform/console/cache.go:164-179 | the kind is what was listed, the other kinds are as they were, and a RESYNC is published |
| `WatchCache.Cache.Apply` | platform/console/cache.go:181-195 | one event applied and published |
| `WatchCache.Cache.Subscribe` | platform/console/cache.go:246-261 | a new subscriber with an empty queue that owes nothing |
| `WatchCache.Cache.OnFrames` | platform/console/cache.go:126-142 | after every callback the kind is the server's state at the version remembered, none lost or out of order |
| `WatchCache.Cache.RunKind` | platform/console/cache.go:106-152 | the kind is the server's state at the last version seen, through bookmarks, healthy closes, errors and expired versions; the backoff stays between 1 and 30 seconds |
| `WatchCache.StateAfterNext` | platform/console/kube.go:405-457 | the state after the next entry of the log is the state before with that entry applied |
| `WatchCache.StateUnchanged` | platform/console/kube.go:405-457 | a stretch of the log without the kind's entries changes nothing |
| `OpIds.InputRoundTrip` | platform/console/transcript.go:272-284 | the input id comes back out of its delivery id, colons in it or not |
| `OpIds.RunRoundTrip` | platform/console/transcript.go:294-300 | the run id comes back out of its delivery id |
| `OpIds.OneOrTheOther` | platform/console/transcript.go:272-300 | no id stands for both |
| `TranscriptMerge.RecordedShowsOnce` | platform/console/rehydrate.go:46-106 | a recorded input with text and a recorded answer show exactly once, buffered still or not |
| `TranscriptMerge.MergedLines` | platform/console/rehydrate.go:46-106 | for every id: what the buffer shows stays, and only what it does not show comes from the record |
| `TranscriptMerge.ForgettingIsHarmless` | platform/console/rehydrate.go:46-106 | dropping from the buffer a message the record covers changes neither the inputs nor the runs shown |
| `TranscriptMerge.OrderedIsStable` | platform/console/rehydrate.go:206-215 | with every time readable the thread is in time order and messages of one time keep theirs |
| `TranscriptMerge.OrderedLines` | platform/console/rehydrate.go:206-215 | ordering adds and loses no message |
| `TranscriptMerge.MarkedExactly` | platform/console/rehydrate.go:116-141 | a message is marked internal exactly when its run had inputs and all came back up from a member |
| `TranscriptMerge.MergeTranscript` | platform/console/rehydrate.go:46-106 | the loops compute that thread |
| `TranscriptMerge.SortByTime` | platform/console/rehydrate.go:206-215 | the insertion sort in place computes that order |
| `TranscriptMerge.MarkInternalRounds` | platform/console/rehydrate.go:116-141 | the loop computes those marks |
| `TranscriptStore.DeliveryDoublesExactlyWhen` | platform/console/transcript.go:175-221 | a delivery leaves no double if and only if it is known, makes no bubble, or the buffer no longer holds a message for what it stands for |
| `TranscriptStore.TypingIsUnique` | platform/console/transcript.go:306-310 | typing never doubles anything |
| `TranscriptRuns.ShownOnceExactlyWhen` | platform/console/transcript.go:175-190 | every delivery shows once in every run whose redeliveries come while fewer than w others were recorded; if and only if w is at most 4096 |
| `TranscriptRuns.OrderlyIsSound` | platform/console/transcript.go:175-346 | in such runs the ids seen are the last 4096 recorded, and every bubble was delivered to its thread |
| `TranscriptRuns.ThreadShowsOnce` | platform/console/rehydrate.go:46-106 | and the merged thread shows each recorded input and answer once |
| `TranscriptRuns.LateRun` | platform/console/transcript.go:183-190 | a run of 4098 deliveries that shows a message twice |
| `Transcripts.TypedOrderHolds` | platform/console/transcript.go:175-252 | in every run of typing and deliveries of all kinds no message stands for its delivered copy while an earlier one of its sender waits |
| `Transcripts.DeliveryKeepsOrder` | platform/console/transcript.go:231-252 | one delivery, of whatever kind, keeps that order |
| `Transcripts.ConfirmingKeepsOrder` | platform/console/transcript.go:231-252 | a copy confirms the earliest message it can stand for |
| `Transcripts.Transcripts.AppendOp` | platform/console/transcript.go:175-221 | the buffer after a delivery, and whether it was new |
| `Transcripts.Transcripts.ConfirmLocal` | platform/console/transcript.go:231-252 | the first unconfirmed message of a compatible sender stands for the copy, nothing else changes |
| `Transcripts.Transcripts.Append` | platform/console/transcript.go:315-346 | the thread with the message added, at most 200 kept, at most 200 threads kept, waiting messages cleared when told to |
| `Transcripts.Transcripts.AppendLocal` | platform/console/transcript.go:306-310 | a pending message that stands for nothing yet |
| `WorkspaceMachine.SafeExactlyWhen` | platform/housekeeping/reclaim.go:94-160 | in every interleaving no existing conversation's workspace is removed; if and only if the disk is scanned before the API is listed, names are not reused, and a conversation predates its directory |
| `WorkspaceMachine.ListFirstHarms` | platform/housekeeping/reclaim.go:105-107 | a concrete run that harms when the order is reversed |
| `WorkspaceMachine.InvRun` | platform/housekeeping/reclaim.go:94-160 | what every step keeps: a name found on disk and missing from the later listing is gone for good |
| `WorkspaceMachine.ForeignIsSpared` | platform/housekeeping/reclaim.go:14-37 | a directory no conversation could have is never removed, in any order |
| `Housekeeper.Housekeeper.ReclaimWorkspaces` | platform/housekeeping/reclaim.go:108-160 | removes of what was on disk and not listed the first names up to the bound, nothing on a dry run, and reports it; harms nobody under the two assumptions |
| `Housekeeper.ReportAddsUp` | platform/housekeeping/reclaim.go:67-77 | every name scanned is removed, retained or skipped, and something is skipped only when the bound was reached |
| `Housekeeper.BoundedRunsProgress` | platform/housekeeping/reclaim.go:140-157 | k bounded runs over a quiet claim remove the first k times bound orphans |
| `Housekeeper.OrphansAreWithoutConversation` | platform/housekeeping/reclaim.go:140-144 | the orphans are exactly the names without a listed conversation |
| `SessionMachine.SafeExactlyWhen` | platform/housekeeping/reclaim.go:162-246 | no transcript of a running or referenced session is removed in any run; if and only if the grace covers the longest run and the time from the listing to the reading of the clock |
| `SessionMachine.ShortGraceHarms` | platform/housekeeping/reclaim.go:222-227 | a concrete run that harms with any shorter grace |
| `SessionMachine.InvRun` | platform/housekeeping/reclaim.go:162-246 | what every step keeps: what is seen, unlisted and alive was written no longer than a run before the listing |
| `SessionKeeper.SessionKeeper.ReclaimSessions` | platform/housekeeping/reclaim.go:178-246 | removes of the transcripts unlisted and older than the cutoff the first up to the bound, and reports them |
| `SessionKeeper.ReportMeans` | platform/housekeeping/reclaim.go:222-245 | the counts and bytes reported are those of the files removed, kept and skipped |
| `SplitterTermination.SplitterFinishesExactlyWhen` | channels/telegram/render.go:570-614 | splitting ends on every UTF-8 string whose quote tags are at most k bytes long, if and only if k + 3 + 13 is below the limit |
| `SplitterTermination.ShortTagsEnd` | channels/telegram/render.go:585-609 | where every tag leaves room for one more character each turn shortens the remainder |
| `SplitterTermination.WedgeLoops` | channels/telegram/render.go:585-609 | a valid string on which the loop never ends: a tag that fills the budget up to the last character boundary |
| `SplitterTermination.TagSurvives` | channels/telegram/render.go:603-606 | every tag of the remainder already stood in the input, put back or not |
| `HtmlSplitter.ShrinksOrStays` | channels/telegram/render.go:585-609 | a turn shortens the remainder or leaves it exactly as it was |
| `HtmlSplitter.OtherwiseForever` | channels/telegram/render.go:585-609 | where the recursion does not end, the loop's test holds after any number of turns |
| `HtmlSplitter.SplitHTMLTo` | channels/telegram/render.go:570-614 | the loop computes those chunks |
| `HtmlSplitter.CutPoint` | channels/telegram/render.go:586-599 | the last blank line in the budget, else the last newline, else the nearest character boundary |
| `SplitterContent.SplitKeepsContent` | channels/telegram/render.go:570-614 | taken apart, the chunks are the input in order less newlines at the cuts, and all that was added are closers and the tag of the quote that was open |
| `SplitterContent.SplitFits` | channels/telegram/render.go:576-584 | every chunk is within the limit, closer included |
| `SplitterBalance.ShortLinesStayBalanced` | channels/telegram/render.go:544-614 | well-formed un-nested quotes on lines that fit beside a tag and a closer split into chunks that are well-formed, have as many closers as openers, and fit |
| `SplitterBalance.ChunksAreBalanced` | channels/telegram/render.go:544-614 | the same whenever every cut of the run falls at a newline |
| `SplitterBalance.InsideIsOpen` | channels/telegram/render.go:549-565 | counting finds the quote a reader is in, and its whole tag |
| `MessagePacking.FoldPiecesFit` | channels/telegram/render.go:384-404 | the pieces of an oversize fold each fit, wrapper included, and are whole quotes, wherever the cuts fall |
| `MessagePacking.MessagesAreTheBlocks` | channels/telegram/render.go:339-380 | for blocks in UTF-8 with the tags rendering writes: splitting ends, every message fits the limit, the messages read in order as the blocks do, and the pieces of an oversize one tell it |
| `MessagePacking.OversizeTells` | channels/telegram/render.go:384-404 | the pieces of an oversize block, taken apart, are its text in order less newlines at the cuts, each in the block's wrapper, with only closers and the tag of the open quote added |
| `MessagePacking.RenderedTagsFinish` | channels/telegram/render.go:384-404 | the two tags rendering writes leave room at each limit in use: 4096, 4060 and 4071 |
| `MessagePacking.SplitBlocks` | channels/telegram/render.go:350-380 | the loop computes those messages |
| `MessagePacking.SplitOversizeBlock` | channels/telegram/render.go:384-404 | the wrapper is put around every piece of the inner text |
| `Packing.PackingKeepsContent` | channels/telegram/render.go:350-380 | packing moves no text |
| `Packing.FirstMessageHolds` | channels/telegram/render.go:342-345 | leading blocks that fit one message together are all in the first |
| `Blocks.Parse` | channels/telegram/blocks.go:91-169 | the words of the blocks are, as a multiset, those of the lines that are not structure; there is a block, the title first, the fold last, one of each at most; named sections in the order written; else the reply as one section |
| `Blocks.TagExactlyWhen` | channels/telegram/blocks.go:57-77 | a line is a tag if and only if it is that tag written out at its start with only blanks after |
| `BlockPairs.AllPairedExactlyWhen` | channels/telegram/blocks.go:81-154 | every line that is structure is an opener or the closer of its name that is the next structure after it; if and only if every opener met outside a region has such a closer somewhere after it |
| `BlockPairs.LoneOpenerIsStructure` | channels/telegram/blocks.go:81-154 | the reply of one opener alone: it is structure in no pair, and nothing of the reply is text |
| `BlockPairs.UnpairedOpenRuns` | channels/telegram/blocks.go:142-154 | an opener without a closer is structure all the same, and its region runs to the end |
| `Blocks.NormalizedKeepsWords` | channels/telegram/blocks.go:213-254 | ordering loses and makes up no word |
| `Blocks.NormalizedShape` | channels/telegram/blocks.go:209-254 | one title first, one fold last, and it says something |
| `Blocks.NormalizedNames` | channels/telegram/blocks.go:209-254 | named sections keep their order |
| `Blocks.Normalize` | channels/telegram/blocks.go:213-254 | the loop computes that order |
| `Blocks.FencedLines` | channels/telegram/blocks.go:189-201 | a line is fenced if it is a fence or stands inside an open one |
| `Words.OneLineKeeps` | channels/telegram/blocks.go:205-207 | a heading on one line has the same words |
| `Words.TrimKeeps` | channels/telegram/blocks.go:108-120 | trimming loses no word |
| `Words.LinesKeep` | channels/telegram/blocks.go:91-92 | splitting into lines loses no word |
| `TokenBucket.WindowBound` | channels/telegram/limiter.go:64-85 | in every window the grants are at most the capacity and what flows in meanwhile |
| `TokenBucket.SleeperSucceedsExactlyWhen` | channels/telegram/limiter.go:79-85 | who sleeps the pause returned finds a token; if and only if the capacity is at least one |
| `TokenBucket.Bucket.Take` | channels/telegram/limiter.go:64-85 | refills by the time passed up to the capacity, and grants or says how long to wait |
| `TokenBucket.Bucket.Wait` | channels/telegram/limiter.go:90-103 | one token, or the context ended; alone at the bucket nobody sleeps twice |
| `TokenBucket.Pacer.Wait` | channels/telegram/limiter.go:140-160 | one token of the bot's bucket and one for each chat named, in order, until one is refused |
| `TokenBucket.Pacer.Bounds` | channels/telegram/limiter.go:21-33 | so neither the bot nor a chat is sent more in any window than its burst and its rate |
| `TokenBucket.Pacer.ForChat` | channels/telegram/limiter.go:129-138 | each chat has a bucket of its own |
| `RetryBudget.ClaimHoldsExactlyWhen` | channels/telegram/telegram.go:148-219 | every operation of so many calls ends inside its claim, whatever its requests come back with; if and only if the latest end of a wait, at the deadline or after as many whole seconds as fit, and a round trip for each call fit the claim |
| `RetryBudget.EvenClaimHoldsExactlyWhen` | channels/telegram/manager.go:138-150 | for a claim of an even number of seconds: if and only if a round trip for each call fits its other half |
| `RetryBudget.CanTake` | channels/telegram/telegram.go:152-219 | an operation that takes exactly that long |
| `RetryBudget.Operation.Bounds` | channels/telegram/telegram.go:60-107 | requests are at most the calls and the whole seconds of the budget, and the operation is over by the deadline and one round trip for each call |
| `RetryBudget.Operation.ClaimHolds` | channels/telegram/manager.go:138-150 | an operation still holds its claim when it ends, where that fits |
| `RetryBudget.Operation.Call` | channels/telegram/telegram.go:152-207 | the retry loop ends, having done only what is allowed: one request to a turn, each wait inside the one deadline |
| `RetryBudget.Operation.Turn` | channels/telegram/telegram.go:152-207 | a turn that goes on waited a second or more and ended by the deadline |
| `RetryBudget.Operation.Pause` | channels/telegram/telegram.go:211-219 | waits only what ends by the deadline |
| `RetryBudget.Operation.SendWith` | channels/telegram/telegram.go:351-394 | sent as asked, again degraded when its quote is refused, and to the general surface when refused at all, with the text as it stood last |
| `RetryBudget.Operation.SendDocument` | channels/telegram/telegram.go:476-514 | sent to its topic and, refused, to the general surface |
| `GatewayMachine.LosesNothingExactlyWhen` | gateways/telegram/main.go:175-267 | every update below an offset confirmed to Telegram, stored or in memory was delivered, in every run with crashes, failed polls and failed reports; if and only if the adapters take every update forwarded to them |
| `GatewayMachine.FailedIsPassed` | gateways/telegram/main.go:251-267 | a concrete run whose failed forward is logged, passed, stored and confirmed, with the update delivered to nobody |
| `GatewayMachine.ConfirmedIsFinal` | gateways/telegram/main.go:225-241 | an update confirmed and not delivered is never delivered, in this life of the process or any other |
| `GatewayMachine.PassedWasTried` | gateways/telegram/main.go:225-241 | every update below an offset was forwarded at least once, and each life forwards in order and nothing twice |
| `GatewayMachine.InvStep` | gateways/telegram/main.go:175-267 | every step keeps it: what lies below each offset was tried, and the batch at hand begins where what was tried ends |
| `GatewayMachine.AdvanceCovers` | gateways/telegram/main.go:225-241 | an offset moved past an update just tried covers everything below it |
| `TelegramGateway.Router.Poll` | gateways/telegram/main.go:175-241 | so the pump, through any number of turns and crashes, has tried whatever it passed, in order and once per life, and delivered it when the adapters take what is forwarded |
| `TelegramGateway.Router.DeliverUpdates` | gateways/telegram/main.go:225-241 | updates forwarded in order, each once, the offset after each reported before the next, a failed report or a crash ending the batch |
| `TelegramGateway.Router.Route` | gateways/telegram/main.go:251-267 | a topic's update goes to the channel adapter, any other to the signal adapter; a failure is noted and no more |
| `TelegramGateway.Router.FetchUpdates` | gateways/telegram/main.go:209-219 | asking from an offset confirms what lies below it, and the answer begins where what lies below ends |
| `TelegramGateway.Router.PutOffset` | gateways/telegram/downstream.go:92-95 | an offset reported without error is stored; after an error it may be |
| `Decimal.OffsetRoundTrip` | gateways/telegram/main.go:195-206 | an offset stored is the offset read |

## Left out

Assumptions the theorems rest on, and parts of the repository the model does not have.

- Context-sync: regular files only, and no two live paths are one inode; opening a file and reading its stat is one step; the runtime is serial, one request in flight; include and exclude patterns select the same files in every pod, and the live tree stands for the files they select.
- Context-sync: no live file is named `.context-sync.json`, which a copy back skips; a crash is a process crash, not a loss of power with writes unsynced.
- Context-sync: restore and prune do not fail part-way, so nothing is said across a half-failed restore or a prune error reported after the swap; a copy that other writes outrun for ever counts as a failed checkpoint; the time in the metadata, the events reported and the coalescing of ticks are not part of the model, nor is a restart of the sidecar alone.
- Sidecar.Sidecar.ServeWork: the restored tree is stated for a tree whose live files are all in `current`, which is `cleanStart`; without it `ContextTheorems.DirtyStartFails` says what happens.
- Manifest.Scan: the tree does not change while it is scanned and every stat succeeds; the scan beside a writing agent is `Sidecar.Sidecar.ScanTree`. Patterns that climb out of the root are not followed outside it.
- Globs.ReachedExactlyWhen: filepath.Match is modelled by its documented grammar over characters, and a malformed pattern matches nothing, as matchGlob treats it.
- Watch cache: GetOrFetch, which may apply an object older than the store, is left out; so is the sorting of List. Of the browser only what it does with a delta and a RESYNC is modelled, the objects it holds being read whole when it connects; aggregates it derives are left out.
- WatchCache.Cache.RunKind: the server's log stands for all that ever happens to the kind, and each answer shows some stretch of it; turns are counted in place of the context.
- TranscriptMerge.RecordedShowsOnce: the text of a rebuilt card, the truncation note, payload and severity are not part of a message here.
- TranscriptMerge.OrderedIsStable: the library's sort is modelled as insertion, which is what it does on short threads; with a time that cannot be read nothing is claimed about order.
- TranscriptRuns.ShownOnceExactlyWhen: in one thread an input and a run have one delivery id each, as the manager forms them.
- Transcripts: subscribers, archiving, reopening and the pending timeout change no count and are left out; the ids recorded are history and not a field of the source.
- WorkspaceMachine.SafeExactlyWhen: the listing is one unpaginated request and shows the conversations of one moment; removing a tree is one step that may leave part of it.
- SessionMachine.SafeExactlyWhen: the cluster's clock, the file times and the reclaimer's clock are one clock; a session id is never given out twice.
- SessionKeeper.SessionKeeper.ReclaimSessions: a file whose stat fails is not seen, as in the source; the log line is left out.
- SplitterBalance.ShortLinesStayBalanced: says nothing of hard cuts inside a tag or an entity, of `<pre>` over several lines, or of nested quotes.
- MessagePacking.MessagesAreTheBlocks: rendering itself, markdown, tables and regular expressions are left out; a block is taken to come rendered, that is in UTF-8, not empty, and with no quote tags but the two rendering writes, and lengths count bytes as the source does, not the API's UTF-16 units.
- Blocks.Parse: the TypeScript copy of the parser is not part of this model.
- TokenBucket.Bucket.Take: reals in place of floating point, and a clock that does not run backwards.
- TokenBucket.Bucket.Wait: other callers of the same bucket are not interleaved, and no fairness is claimed.
- RetryBudget.Operation.Call: a sleep takes exactly as long as asked, or no time when the context ends it; a request takes no longer than a given round trip; the body of an HTTP exchange is an arbitrary answer.
- RetryBudget.ClaimHoldsExactlyWhen: is about operations of any number of calls; a send makes at most three and a document at most two.
- TelegramGateway.Router.Poll: updates arrive with rising ids, the store begins with nothing that reads as an offset, and a write from an earlier life does not arrive late. A batch that cannot be decoded is a failed fetch; that the same batch fails again is not ruled out. Acknowledging a selection is left out.
- Egress proxy, the MCP servers, signal deduplication, authentication, metrics, topology and the user interface: sockets, JSON and presentation.
