# dago: verified kernels

This project models, in Dafny 4.11, the stateful kernels under the dago agent
SDK and proves what they promise. `dafny verify dfyconfig.toml` checks all of
it. Each part below is one kernel; modules follow the program's own files.

**Store path locks and the store backend** (`PathLocks`, `StoreProtocol`,
`StoreProofs`, `StoreMeanings`). Concurrent Write, Edit, Delete and Upload calls on one store
backend, as atomic steps over a lock table, a store and a log of commits. Every
interleaving equals the serial run in commit order, no two holders cover one
path, no wake-up is lost, and no run gets stuck.

**Checkpoint saver** (`BoundedHeap`, `Checkpoint`, `CheckpointPrune`,
`CheckpointSteps`, `CheckpointMeanings`, `CheckpointSaver`, `CheckpointIds`,
`CheckpointRuns`). The
in-memory saver as a class over its three maps, against recursive definitions
over the parent chain: pruning, copying, bounded listing and the delta-history
walk, whatever the map iteration order; identifiers and versions sort in the
order of their making; and over whole runs of mixed calls the latest lookups
behave like a plain map of heads.

**Managed-memory guard** (`LineDiff`, `BlockRemoval`, `Markers`,
`ManagedMemory`, `MemoryMeanings`, `MemoryGuard`, `GuardMeanings`). The longest-common-subsequence table, the edit
script read from it, the removal of edits that touch the block, marker surgery,
and the guard over whole runs of tool calls, with reads and writes that fail,
writes that store something else, and files with several names.

**Permission globs** (`GlobPaths`, `GlobRules`, `GlobMeanings`,
`PathMeanings`). Brace expansion, `**`
matching, anchors, and the delete-overlap test that must over-approximate the
matcher. The segment matcher of Go's `path.Match` is a parameter with one law: a
segment without a wildcard matches only itself.

**Conversation history** (`Conversation`, `Cutoffs`, `Summaries`,
`SummaryRepairs`). Tool-call pairing, its one-pass check and its repair loop; cut
points; summarization events over a log that grows and is repaired in place.

**Cost ledger** (`CostSums`, `CostTracker`, `CostInvariant`, `CostMeanings`, `CostRuns`,
`CostLedger`, `CostDrift`, `ReportRows`, `CostReports`, `ReportMerge`,
`MergeProofs`, `TrackerReports`, `ReportMeanings`, `DriftReports`, `CostSnapshots`,
`CostExamples`). The retract-and-replace ledger with its totals and group-by
buckets, the drift that its snaps leave in the costs, validation and merging of
reports. Counts are integers within 64 bits, costs are reals with the 1e-15 snap
written out.

**Virtual files** (`Lines`, `PageReader`, `FileValues`, `VirtualPaths`,
`StateFiles`, `StateRaces`). The streaming page reader against the slicer, and the state
backend's delta against its file map, one call at a time and interleaved.

**ACP sessions** (`AcpSessions`, `AcpProofs`, `AcpRuns`, `AcpShutdown`,
`AcpClosing`, `AcpSwitching`).
Creating, loading, switching, closing and shutting down sessions that own a
closer, as interleaved steps, and what shutdown guarantees.

`Text`, `Occurrences`, `Ordering` and `Numerals` hold Go's string operations and
what they mean, orders and machine integers, `Collections` what several modules need of sequences and sets.

## What turned out false of the code

Each of these has a lemma with a concrete run and a theorem that says exactly
when the property holds.

- A summary taken at the very end of the log while calls are still open leaves
  later tool results as orphans at the head of the view
  (`Summaries.CompactionSwallowsOpenCall`, `Summaries.LastingExactly`).
- Repairing the log in place after such a summary puts the made-up results at the
  head of the view (`SummaryRepairs.HalfIsExposed`,
  `SummaryRepairs.RepairedViewPairedExactly`); in general the event keeps its
  meaning exactly when repair does not change the length of the summarised part
  (`SummaryRepairs.RepairAlignsExactly`).
- The streaming reader and the slicer differ exactly when `offset + limit`
  overflows: the slicer panics, the reader returns an empty page with a negative
  end (`PageReader.LargestLimitDiffers`, `PageReader.StreamIsSlice`).
- Repricing can drive a tracker's kept cost below zero through snaps, so that its
  own report is refused (`CostExamples.CostGoesNegative`). Each kept cost is its
  exact sum plus a drift that the run's retractions determine
  (`CostDrift.KeptCost`), and the report validates exactly when that drift is
  harmless (`DriftReports.ReachableReportValid`); a run none of whose retractions
  lands within the snap has none (`DriftReports.GentleReportValid`).
- Merging valid reports can give an invalid one, because tolerances add up
  (`CostExamples.MergeCanFailValidation`, `MergeProofs.MergedIsValid`).
- Versions stop increasing exactly when the counter grows a digit beyond its 32
  padded ones (`CheckpointIds.LastPaddedVersionDecreases`,
  `CheckpointIds.VersionsIncrease`). A negative counter is padded in front of its
  sign and then no longer read (`CheckpointIds.NegativeVersionStops`).
- A delete that runs beside a write can leave the written file in the state
  backend's delta although it is gone from the files
  (`StateRaces.DeleteOverlooksWrite`). It does exactly when some removal takes a
  name that the delete had not noted, after that name's write was recorded, and
  no later store or mark covers it (`StateRaces.DeltaAtRest`).
- An upload under a path that is not clean is stored under its normalised name and
  looked up for recording under the raw one, so it is missing from the delta
  (`StateFiles.RawPathUploadIsLost`, `StateFiles.Session.Upload`).
- A tool call can destroy a guarded block without a word when it reaches the file
  under a name the guard does not see through, such as the directory that a
  guarded link leads into (`MemoryGuard.DirectoryDeleteSlips`); such calls, and no
  others, slip by (`MemoryGuard.SlipLosesBlock`, `MemoryGuard.StepKeepsBlock`).
- A session whose creation or loading is under way during shutdown is put into the
  table afterwards, and its closer stays open
  (`AcpShutdown.LateSessionStaysOpen`); the table stays empty exactly when
  shutdown finds no such call (`AcpShutdown.ShutdownExactly`).

## Model

| member | source | states |
|---|---|---|
| PathLocks.ConflictIffSharedPath | dabackend/store.go:86-98 | the pairwise lock test holds exactly when some path is covered by both locks |
| PathMeanings.BelowIsPrefix | dabackend/store.go:96-98 | between clean paths, below means that the segments go on from the other path's |
| PathLocks.ClashIffSharedPath | dabackend/store.go:73-84 | two lock lists clash exactly when some path is covered by both |
| PathLocks.AcquiredExclusive | dabackend/store.go:41-71 | granting an unblocked request keeps the holders pairwise disjoint |
| PathLocks.StorePathLocks.Conflicts | dabackend/store.go:73-84 | the nested loops find a conflict exactly when the table blocks the request |
| PathLocks.StorePathLocks.TryAcquire | dabackend/store.go:41-71 | one pass of acquire grants a fresh ticket and the locks exactly when nothing conflicts, and otherwise changes nothing |
| PathLocks.StorePathLocks.Release | dabackend/store.go:52-62 | release removes the holder and moves the broadcast on to a new generation |
| StoreProofs.StepKeepsInv | dabackend/store.go:41-98 | every step of every call keeps locks exclusive, waiters blocked, remembered reads fresh, and store and log in agreement |
| StoreProofs.EveryRunIsSerial | dabackend/store.go:280-379 | in every state of every run the store is what the committed operations leave when run one at a time in commit order, with the same answers, each in the log exactly once |
| StoreProofs.CommitIsSerial | dabackend/store.go:280-337 | a commit prepared from an earlier read is the whole operation run at the instant of the commit |
| StoreProofs.DeleteMissesNothing | dabackend/store.go:339-379 | from a delete's batch until its release nothing exists at or below its path |
| StoreProofs.HoldersNeverOverlap | dabackend/store.go:41-98 | in no reachable state is a path covered by two active holders |
| StoreProofs.NoLostWakeUp | dabackend/store.go:41-71 | a waiter parked on the current channel still conflicts with some active holder |
| StoreProofs.NeverStuck | dabackend/store.go:41-71 | while some call is unfinished, some call can take a step |
| StoreProtocol.SerialFrame | dabackend/store.go:394-474 | an operation changes nothing outside the paths its locks cover |
| StoreMeanings.RefusedAtOnce | dabackend/store.go:305-346 | an edit that looks for nothing or would change nothing and a delete of the root are refused before they ask for a lock, and no other call is |
| StoreMeanings.WriteMeans | dabackend/store.go:280-304 | a write stores the given content as UTF-8 text, keeps the creation time of a file that was there, and changes nothing else; a file that does not decode stops it |
| StoreMeanings.EditNeedsText | dabackend/store.go:305-338 | an edit is answered as missing, undecodable or binary exactly in those cases, and only a successful one changes anything |
| StoreMeanings.EditMeans | dabackend/store.go:305-338 | with the text cut at every occurrence of the old string into n + 1 pieces, an edit stores the pieces joined by the new string, is not found exactly when n is 0 and ambiguous exactly when n > 1 and not all were asked for |
| StoreMeanings.DeleteMeans | dabackend/store.go:339-379 | a delete removes exactly the file and everything below it, and is answered as missing exactly when there was nothing |
| StoreMeanings.UploadMeans | dabackend/store.go:394-474 | each upload is answered by whether it was accepted, read and decodable, and under each name the last such upload is stored |
| BoundedHeap.Up | dacheckpoint/memory.go:45-52 | sifting a new key up restores the heap order and keeps the keys |
| BoundedHeap.Down | dacheckpoint/memory.go:45-52 | sifting the replaced root down restores the heap order and keeps the keys |
| BoundedHeap.BoundedKeys.Add | dacheckpoint/memory.go:39-52 | after any offers, in any order, the heap holds the first keys of all that were offered, up to the limit |
| BoundedHeap.SelectionIsFirst | dacheckpoint/memory.go:54-59 | sorting the selection gives the first keys of the sorted offers |
| BoundedHeap.SelectFirst | dacheckpoint/memory.go:244-295 | offering candidates in any order and sorting returns the first of the sorted chosen candidates |
| Checkpoint.HistoryMeaning | dacheckpoint/memory.go:432-510 | a channel's history is seeded by the nearest strict ancestor with a present blob and lists the writes from that ancestor down to the parent, oldest first |
| CheckpointPrune.PruneRemovesExactly | dacheckpoint/memory.go:363-430 | keep-latest pruning removes exactly the checkpoints of the listed threads that are on no latest checkpoint's parent chain |
| CheckpointPrune.PrunePreservesSurvivors | dacheckpoint/memory.go:363-430 | a survivor keeps its tuple and the delta history of every channel |
| CheckpointPrune.PruneLeavesTheRest | dacheckpoint/memory.go:363-430 | threads that are not listed keep everything, and the latest lookups are unchanged everywhere |
| CheckpointPrune.WithoutThreadIsExact | dacheckpoint/memory.go:297-315 | deleting a thread touches no other thread |
| CheckpointPrune.CopyIsFaithful | dacheckpoint/memory.go:317-361 | a copied thread shows the source's tuples, chains and histories under its own name |
| CheckpointPrune.CopyOtherThreads | dacheckpoint/memory.go:317-361 | copying leaves every other thread as it was |
| CheckpointSteps.SortWrites | dacheckpoint/checkpoint.go:204-214 | the sort returns the same writes, by task path, then task, then index, whatever order they came in |
| Ordering.StringLessMeans | dacheckpoint/checkpoint.go:204-214 | one string is less than another exactly when at the first difference it ends or has the smaller character |
| CheckpointMeanings.PendingMeans | dacheckpoint/memory.go:233-242 | the pending writes of a checkpoint are exactly the recorded ones, pairwise in order of path, task and index |
| CheckpointMeanings.WritesKeepTheirOrder | dacheckpoint/memory.go:142-181 | two ordinary writes of one call come back in the order they were given |
| CheckpointMeanings.WritesAtMeans | dacheckpoint/memory.go:432-510 | a checkpoint adds to a channel's history exactly its pending writes on that channel, in that order |
| CheckpointSteps.PutKeepsWellFormed | dacheckpoint/memory.go:100-140 | a put keeps parents older than their children if and only if its own parent id is empty or smaller |
| CheckpointSteps.PutThenLookup | dacheckpoint/memory.go:100-140 | looking up what was put shows each changed channel's new value, or none when it was cleared, with the metadata and the parent |
| CheckpointMeanings.PutShows | dacheckpoint/memory.go:100-140 | a checkpoint is read back as it was put, with version 4 where none was given |
| CheckpointMeanings.PutShowsEarlier | dacheckpoint/memory.go:100-140 | a channel without a new version shows what was stored earlier under the version it has |
| CheckpointSteps.ReplayedWritesKeepTheFirst | dacheckpoint/memory.go:142-181 | writes that arrive again for a task leave the first ones in place, except on the special channels |
| CheckpointMeanings.ReservedIndexes | dacheckpoint/checkpoint.go:15-36 | exactly the four control channels have an index of their own, in front of all positions |
| CheckpointMeanings.RecordedMeans | dacheckpoint/memory.go:142-181 | an ordinary write goes to the slot of its position in the call unless that is taken, and other tasks' writes stay |
| CheckpointMeanings.RecordedSpecial | dacheckpoint/memory.go:142-181 | on a control channel the last write wins over earlier ones and over what was there |
| CheckpointSteps.PutWritesKeepsWellFormed | dacheckpoint/memory.go:142-181 | adding writes keeps the store well formed exactly when the checkpoint exists |
| CheckpointSaver.MemorySaver.Put | dacheckpoint/memory.go:100-140 | the record, its blobs for the new versions and nothing else are stored |
| CheckpointSaver.MemorySaver.PutWrites | dacheckpoint/memory.go:142-181 | the pending writes become those of the specification; an empty thread, checkpoint or task id is refused and changes nothing |
| CheckpointSaver.MemorySaver.GetTuple | dacheckpoint/memory.go:183-231 | the tuple is that of the named or the latest checkpoint, with sorted pending writes |
| CheckpointSaver.MemorySaver.List | dacheckpoint/memory.go:244-295 | the listing is exactly the first keys, in listing order, of the records that pass the filters, where a wanted nil is also met by missing metadata |
| CheckpointMeanings.ListingMeans | dacheckpoint/memory.go:244-295 | a listing holds wanted checkpoints only, below `before`, larger ids first within each namespace; what it leaves out comes after all it holds, and only when the limit is reached |
| CheckpointSaver.MemorySaver.DeleteThread | dacheckpoint/memory.go:297-315 | exactly the thread's records, writes and blobs are removed |
| CheckpointSaver.MemorySaver.CopyThread | dacheckpoint/memory.go:317-361 | every record, write and blob of the source appears under the target, or the call is refused, exactly on empty, equal or taken names, and changes nothing |
| CheckpointSaver.MemorySaver.Prune | dacheckpoint/memory.go:363-430 | the loops compute the pruned store of the specification for either strategy |
| CheckpointSaver.MemorySaver.GetDeltaChannelHistory | dacheckpoint/memory.go:432-510 | the single walk for all channels returns each channel's own recursive history |
| CheckpointIds.LaterIdIsLarger | dacheckpoint/id.go:23-46 | an id of a later timestamp is larger as a string, whatever the step and random part |
| CheckpointIds.FormatIdMeans | dacheckpoint/id.go:23-46 | the hexadecimal groups of an id read back as the timestamp under version 6, the step modulo 2^14 under the variant bits, and the random part |
| CheckpointIds.IdClock.NewId | dacheckpoint/id.go:23-46 | the clock always advances, so each id is formatted from a fresh timestamp |
| CheckpointIds.TwoIds | dacheckpoint/id.go:23-46 | two successive ids are strictly increasing |
| CheckpointRuns.StepKeepsInv | dacheckpoint/memory.go:100-430 | every put with a fresh id under no parent or an issued one, every addressed write, prune, copy and deletion keeps the saver well formed and its latest lookups equal to the heads |
| CheckpointRuns.RunKeepsHeads | dacheckpoint/memory.go:100-430 | so over every run of such calls, refused ones included: a put moves one head, a copy shares a thread's heads, deletion forgets them, nothing else matters |
| CheckpointRuns.LatestIsLastPut | dacheckpoint/memory.go:195-203 | the latest lookup finds the last checkpoint put into the namespace, through any writes, keep-latest prunes, copies and deletions of other threads |
| CheckpointIds.NextVersionCounts | dacheckpoint/id.go:48-73 | the next version carries the successor of the current counter |
| CheckpointIds.NegativeCounts | dacheckpoint/id.go:48-73 | a negative counter counts up, too |
| CheckpointIds.NegativeVersionStops | dacheckpoint/id.go:48-73 | the version that comes out can be counted on if and only if it needed no padding in front of its sign |
| CheckpointIds.VersionsIncrease | dacheckpoint/id.go:48-73 | the next version is larger as a string if and only if the counter does not grow a digit beyond 32 |
| CheckpointIds.LastPaddedVersionDecreases | dacheckpoint/id.go:48-73 | the version that follows counter 10^32 - 1 is not larger |
| LineDiff.LcsIsUpperBound | managed_memory.go:363-373 | no common subsequence is longer than the recursive length |
| LineDiff.FillTable | managed_memory.go:363-373 | every table cell holds the longest common length of the two suffixes |
| LineDiff.Traceback | managed_memory.go:374-388 | following the table gives the trace of the specification |
| LineDiff.TraceIsOptimal | managed_memory.go:363-388 | kept and deleted steps spell the before lines, kept and added steps the after lines, and no common subsequence has more lines than the trace keeps |
| BlockRemoval.BlockLineRange | managed_memory.go:427-443 | the range found is the lines on which the block's bytes begin and end |
| BlockRemoval.LineRangeUnique | managed_memory.go:427-443 | there is only one such range |
| BlockRemoval.MarkRemoved | managed_memory.go:389-417 | the cursor loop flags exactly the after lines of hunks and matches that touch the block |
| BlockRemoval.RemoveBlockEdits | managed_memory.go:351-425 | the output is the after lines that are not flagged, in order, and nothing is returned for inputs over the limits |
| BlockRemoval.MatchedLinesDecide | managed_memory.go:351-425 | an after line aligned to a before line is kept exactly when that line is outside the block |
| Lines.SplitLosesNothing | managed_memory.go:445-460 | the lines with their ends concatenate to the text |
| Markers.CountedOnce | managed_memory.go:265-281 | a marker counted once, at its index, is the only occurrence |
| Markers.JoinAfterEnd | managed_memory.go:251-263 | no marker straddles a join behind an end marker |
| ManagedMemory.InspectMeans | managed_memory.go:265-281 | inspection reports a block exactly when there is one start marker, one end marker, in that order |
| ManagedMemory.SpliceRestores | managed_memory.go:251-263 | splicing the original block over the block found leaves exactly one block, the original |
| ManagedMemory.AppendRestoresIff | managed_memory.go:329-335 | re-appending the block gives a valid file exactly when no marker was left behind |
| ManagedMemory.RestorationHoldsBlock | managed_memory.go:228-263 | whatever branch restored it, text reported as kept holds the block byte for byte |
| ManagedMemory.RestoreContent | managed_memory.go:251-263 | the branches compute a restoration of the specification |
| MemoryMeanings.StripMeans | managed_memory.go:251-263 | stripping cuts out the start markers, then the end markers, and leaves text without markers as it is |
| MemoryMeanings.TrimMeans | managed_memory.go:329-335 | the text kept in front of the block is the longest part that does not end in a blank |
| MemoryMeanings.NewlineMeans | managed_memory.go:337-345 | CRLF is written exactly when either text holds one |
| MemoryMeanings.RestorationMeans | managed_memory.go:251-263 | a restoration replaces the block found and nothing else, or rolls back, or writes what the edit left, without markers and trailing blanks, an empty line and the block |
| MemoryMeanings.AlignedLineSurvives | managed_memory.go:251-263 | every after line aligned to a before line outside the block stands in the restored file, whatever markers the edit left elsewhere |
| MemoryMeanings.AlignedLinesInOrder | managed_memory.go:251-263 | such lines keep their order |
| MemoryGuard.StepKeepsBlock | managed_memory.go:82-183 | a call that does not slip by keeps a valid block byte for byte or reports the file as not restored, whatever the handler did to the files it reaches, under whatever name |
| MemoryGuard.SlipLosesBlock | managed_memory.go:82-183 | a call that slips by, that is, reaches the file and is let through, can lose the block and report nothing |
| MemoryGuard.OwnNamesNeverSlip | managed_memory.go:185-201 | no call slips by a guarded file that has no other name |
| MemoryGuard.DirectoryDeleteSlips | managed_memory.go:105-127 | deleting the directory that a guarded link leads into slips by |
| MemoryGuard.RunKeepsBlock | managed_memory.go:82-183 | over any run in which no call slips by, the block stays byte for byte unless some call reported its file as not restored |
| MemoryGuard.Guard.Restore | managed_memory.go:228-249 | restoring takes the step of the specification, including failed reads, failed writes and writes that store other text, which the verifying read catches |
| MemoryGuard.Guard.WrapToolCall | managed_memory.go:82-183 | the wrapped call takes a guard step |
| GuardMeanings.InspectionMeans | managed_memory.go:265-281 | a file is without markers, holds one pair in order, or is malformed |
| GuardMeanings.BlocksMeans | managed_memory.go:82-183 | a path stops a call exactly when it is a link, cannot be read or holds broken markers |
| GuardMeanings.RefusedExactly | managed_memory.go:82-183 | a call is refused, and changes nothing, exactly when it aims at marked text under a name that is not guarded, concerns an unsafe guarded path, or would delete a block |
| GuardMeanings.PassedMeans | managed_memory.go:82-183 | a write or edit of a guarded file with a block is followed by its restoration, and any other call that was let through is left alone |
| GlobPaths.NormalizeIdempotent | filesystem.go:1490-1495 | normalising a path twice is normalising it once and keeps its segments |
| GlobPaths.WithinIsPrefix | filesystem.go:1645-1648 | containment of paths is the prefix order on their segments |
| PathMeanings.SegmentsGrow | filesystem.go:1490-1495 | a path is cleaned segment by segment: empty ones and dots add nothing, two dots take one away, anything else is added |
| PathMeanings.BackslashIsSlash | filesystem.go:1490-1495 | a backslash separates like a slash |
| PathMeanings.SplitMatchMeans | filesystem.go:1497-1503 | leading and trailing slashes do not count, and between them every slash does |
| GlobRules.GroupShrinks | filesystem.go:1519-1538 | each alternative of a brace group leaves one closing brace fewer, so expansion terminates |
| GlobRules.ExpansionKeepsPrefix | filesystem.go:1519-1538 | expansion keeps a brace-free prefix and adds no slash behind it |
| GlobRules.LiteralPrefix | filesystem.go:1505-1517 | a literal head matches exactly the values that start with it |
| GlobRules.MatchGlob | filesystem.go:1479-1488 | the loop over expansions decides whether some expansion matches |
| GlobMeanings.GroupIsFound | filesystem.go:1519-1538 | the scan finds exactly the first brace group with two or more alternatives |
| GlobMeanings.ExpansionExactly | filesystem.go:1519-1538 | a pattern with such a group expands exactly to what its alternatives expand to |
| GlobMeanings.NoExpansion | filesystem.go:1519-1538 | a pattern without one stands for itself |
| GlobMeanings.MatchIsAcceptance | filesystem.go:1479-1488 | a glob matches exactly the values that its normalised pattern accepts |
| GlobMeanings.GroupMatches | filesystem.go:1479-1538 | a brace group matches exactly what some alternative in its place matches |
| GlobMeanings.MatchSegmentsExactly | filesystem.go:1505-1517 | segments match exactly when the value can be dealt out in order, a run to each `**` and one matching segment to each other |
| GlobMeanings.StarsCollapse | filesystem.go:1505-1517 | inside a segment two stars are one |
| GlobRules.GlobAnchor | filesystem.go:1629-1643 | the anchor is the path of the leading segments without wildcards |
| GlobMeanings.WildMeans | filesystem.go:1629-1643 | a segment ends the anchor exactly when it holds one of `*?[{` |
| GlobRules.PatternOverlaps | filesystem.go:1601-1627 | the branches and the ancestor loop decide the overlap test of the specification |
| GlobRules.OverlapMissesNothing | filesystem.go:1601-1627 | a pattern that matches the target, anything above it or anything below it is reported as overlapping |
| GlobRules.PermissionDecision | filesystem.go:1439-1461 | the first applicable rule with a matching pattern decides |
| GlobMeanings.DecisionMeans | filesystem.go:1439-1461 | the mode is that of the first rule for the operation with a matching pattern, allowing where the rule names no mode or no rule applies |
| GlobRules.FindDeletePatterns | filesystem.go:1562-1599 | the result lists exactly the overlapping patterns of the write rules of the mode, or for a plain file is non-empty exactly when the decision has the mode |
| GlobRules.EmptyResultDeniesNothing | filesystem.go:1562-1599 | without overlapping deny patterns no path at or below the target is denied |
| GlobRules.DeleteIsPermitted | filesystem.go:1562-1599 | an empty deny result lets through no removed path that the write rules deny |
| Conversation.FastCheckIsExact | features.go:246-277 | the one-pass check passes exactly the histories in which every batch of calls is followed by one result for each of its ids and nothing else answers |
| Conversation.CheckNeedsRepair | features.go:246-277 | the loop with its early exits decides that |
| Conversation.RepairIsExact | features.go:171-244 | repair always yields a well-paired history, changes exactly those that were not, and is idempotent |
| Conversation.RepairKeepsSpoken | features.go:171-244 | every message that is not a tool result survives in order |
| Conversation.RepairTurn | features.go:171-244 | in each turn the first result for each opened id is kept, others are dropped, and one error result follows for each call left unanswered |
| Conversation.SyntheticMeans | features.go:180-199 | the stand-in is a failed tool result with the call's id and name, and says that the call was malformed or that it was cancelled |
| Conversation.FirstResultsSnoc | features.go:204-213 | a result is kept exactly when its id was opened and no earlier result of the turn bears it |
| Conversation.RepairDropsStrays | features.go:204-213 | results in front of the first turn are dropped |
| Conversation.AsksAreOpen | features.go:217-236 | a message's waiting calls are listed once for each non-empty id it opens, valid or invalid |
| Conversation.RepairLoop | features.go:175-244 | the loop over map and order list computes the repaired form and reports a change exactly when the history was not well paired |
| Conversation.RepairToolCallHistory | features.go:171-244 | with the fast exit in front, the same, and unchanged input is returned as it is |
| Conversation.CutIsSafeExactly | features.go:1945-1961 | a well-paired history splits into two well-paired halves exactly in front of a message that is no tool result |
| Cutoffs.ValidCutoff | features.go:1945-1961 | the result is the least safe boundary at or after the desired one |
| Cutoffs.SafeKeepsTurns | features.go:1945-1961 | no safe boundary separates a result from the message its turn belongs to, whatever the history |
| Cutoffs.SafeCutKeepsPairs | features.go:1945-1961 | cutting a well-paired history at a safe boundary gives two well-paired halves |
| Cutoffs.KeptFrom | features.go:1965-1976 | the backward loop finds the longest tail within the token budget, or a single message |
| Cutoffs.SeparatelyMeans | features.go:1965-1976 | the loop charges every message its own estimate and three tokens |
| Cutoffs.SummaryCutoff | features.go:1963-1978 | with a budget the cut is the least safe boundary whose tail fits; both halves of a well-paired history are well paired |
| Cutoffs.ConstrainedCutoff | compaction.go:154-172 | the least safe boundary at or after the desired one that the caller allows; 0 only when the desired one is past the end |
| Summaries.RunMeaning | features.go:974-990 | over any run of appends and compactions the view is the latest summary and the log from the cutoff on, verbatim; the cutoff never falls and never passes the log's end |
| Summaries.CompactKeepsTail | features.go:1113-1156 | recompacting at index e leaves exactly the view's tail from e |
| Summaries.CompactTwice | features.go:984-990 | two compactions in a row are one compaction at the combined index |
| Summaries.ViewPairedExactly | features.go:974-982 | a view of a well-paired log is well paired exactly when its verbatim part does not begin with a tool result |
| Summaries.LastingExactly | features.go:1113-1156 | a compaction keeps the views of all well-paired continuations well paired exactly when it did not swallow open calls |
| Summaries.RunKeepsViewsPaired | features.go:1113-1156 | over any run without such a compaction, no view of a log that needs no repair needs repair |
| Summaries.FreshRunKeepsViewsPaired | features.go:1113-1156 | so for every such run of a conversation that starts without a summary |
| SummaryRepairs.RepairKeepsPaired | features.go:171-244 | repair keeps a well-paired beginning as it is and repairs the rest by itself |
| SummaryRepairs.RepairAlignsExactly | features.go:147-159 | a repair of the log leaves the event cutting where it did, now and after any continuation, if and only if it does not change the length of the summarised part |
| SummaryRepairs.RepairedViewPairedExactly | features.go:147-159 | after a repair the view is well paired exactly when the compaction swallowed no open calls |
| SummaryRepairs.HalfIsExposed | features.go:1205-1240 | a log with one of two calls answered, cut at its end: after repair a tool result leads the view |
| SummaryRepairs.ClipKeepsPairs | features.go:1083-1093 | clipping the text of a tool result changes nothing about pairing |
| SummaryRepairs.RepairedRunMeaning | features.go:974-990 | over any run of appends, compactions of well-paired logs, repairs and clippings: the summarised part grows and is never rewritten, every message that is no tool result stays in order, and the view is the latest summary and the log from the cutoff on |
| SummaryRepairs.RepairedRunKeepsViewsPaired | features.go:147-159 | in such runs the view of a log that needs no repair needs none, nor does any view right after a repair |
| Summaries.PairedLogIsCareful | features.go:730-748 | compacting a well-paired log never swallows open calls |
| Summaries.CompactionSwallowsOpenCall | features.go:1205-1240 | a run in which a view needs repair although the log does not |
| CostSums.CacheTokenCounts | dacost/pricing.go:33-56 | cache buckets are disjoint, within the input, and cut short only once the input is used up, in their order of service |
| CostMeanings.InclusiveInputMeans | dacost/pricing.go:60-68 | the inclusive input is the least number at or above zero, the reported input and, when anything but the total was reported, the total without the output |
| Numerals.WrapMeans | dacost/pricing.go:64 | the difference of total and output is the one 64-bit integer that differs from it by a multiple of 2^64 |
| CostMeanings.ReportedCacheMeans | dacost/pricing.go:33-46 | reads, five-minute and one-hour writes are the details of those names, and generic writes count only without the latter two |
| CostMeanings.ClampedCacheMeans | dacost/pricing.go:33-56 | the clamped buckets are the only ones that serve reads, generic, five-minute and one-hour writes in this order from the inclusive input |
| CostMeanings.CachedUsage | dacost/pricing_test.go:14-25 | the usage of 20 input tokens with 80 cached counts as 100, with 80 read and 20 written |
| CostSums.SumSane | dacost/tracker.go:316-361 | sums of recorded requests are never negative and cache tokens never exceed input tokens |
| CostSums.AddKeepsBalance | dacost/tracker.go:316-331 | recording keeps every total and bucket equal to the sum over the requests it summarises |
| CostSums.RemoveKeepsBalance | dacost/tracker.go:333-386 | retracting does too, deletes emptied buckets, and costs at most one snap of accuracy |
| CostSums.RemoveKeepsExact | dacost/tracker.go:333-386 | where costs share a grain no finer than the snap, costs stay exact |
| CostTracker.MergeDetails | dacost/tracker.go:431-450 | details add up key by key, and success does not depend on the order of the keys |
| CostTracker.MergeUsage | dacost/tracker.go:401-429 | raw usage accumulates within 64 bits or the merge fails |
| CostMeanings.MergedExactly | dacost/tracker.go:401-450 | a merge succeeds exactly when every sum stays within 64 bits and the details within their number |
| CostTracker.ValidateObservation | dacost/types.go:140-169 | the checks in their order decide exactly the valid observations: short, unpadded names without controls, a known purpose, no negative counts when complete, few details, costs in range |
| Text.TrimmedAlready | dacost/types.go:141 | trimming space leaves alone exactly the names that neither begin nor end with it |
| Text.Utf8Means | dacost/types.go:141 | the byte limits count for each character the fewest bytes of UTF-8 that hold its code |
| Text.Utf8Adds | dacost/types.go:141 | and add them up |
| CostInvariant.InvMeaning | dacost/tracker.go:316-361 | counts equal the ledger's size, cache never exceeds input, totals fit 64 bits, and the cost is within one snap per retraction of its exact sum |
| CostInvariant.BucketMeaning | dacost/tracker.go:316-386 | a bucket exists exactly when some request belongs to it, equals that group's sums, and never exceeds the totals |
| CostInvariant.ReplacedModels | dacost/tracker.go:275-294 | the row check admits a request if and only if replacing it leaves no more model rows than allowed |
| CostInvariant.RecordKeepsInv | dacost/tracker.go:76-177 | recording keeps the ledger invariant, whatever the observation |
| CostInvariant.AnonymousIsNew | dacost/tracker.go:90-99 | an observation without an id is never taken for a replay |
| CostInvariant.RecordReturnsTheChange | dacost/tracker.go:158-177 | a record returns exactly the change of the token totals |
| CostInvariant.RecordReturnsTheCost | dacost/tracker.go:158-177 | it returns the change of the cost up to one snap, and other outcomes leave the books alone |
| CostMeanings.RecordMeans | dacost/tracker.go:109-165 | a recorded observation leaves a request with the figures of its usage, reported or estimated cost, names and purpose as the source picks them, and touches no other request |
| CostMeanings.DeltaMeans | dacost/tracker.go:166-177 | the answer is what the request gained, all the tokens it has by now, and the change of its cost if it has or had one |
| CostMeanings.OutcomeMeans | dacost/tracker.go:100-121 | an observation is a replay exactly when its request is known and complete on either side, and is ignored only without counts |
| CostMeanings.AdmissionExactly | dacost/tracker.go:100-145 | it leads to a request exactly when it is no replay, there is room, its sums fit, it tells something and its price is in range |
| CostMeanings.RecordedExactly | dacost/tracker.go:146-160 | the request is recorded exactly when the resulting totals fit 64 bits and the model rows their limit |
| CostRuns.FinalizeKeepsInv | dacost/tracker.go:203-214 | finalizing keeps the invariant |
| CostRuns.RepriceKeepsInv | dacost/tracker.go:238-273 | repricing a request keeps the invariant |
| CostRuns.RunKeepsInv | dacost/tracker.go:76-273 | every run keeps the invariant, with one snap for each retraction |
| CostRuns.ReachableLedger | dacost/tracker.go:76-273 | from an empty tracker the invariant holds and the token totals are the sums of all returned deltas |
| CostRuns.RunKeepsExact | dacost/tracker.go:333-386 | with a common grain every cost total and bucket of every run is exact |
| CostDrift.RunDrifts | dacost/tracker.go:333-386 | over every run each kept cost is its exact group sum plus the slot's drift: what each snap moved, forgotten when the bucket is deleted |
| CostDrift.KeptCost | dacost/tracker.go:76-386 | so in every reachable tracker, where drift starts at nothing |
| CostDrift.RemovalStaysExact | dacost/tracker.go:333-386 | one retraction leaves exact costs exact if and only if no slot that outlives it lands strictly within the snap of zero |
| CostDrift.GentleRunIsExact | dacost/tracker.go:333-386 | a run of such retractions keeps every cost exact |
| CostDrift.GrainedRunIsGentle | dacost/tracker.go:333-386 | runs whose costs share a grain no finer than the snap are of that kind |
| CostLedger.RepricedRequests | dacost/tracker.go:238-273 | whatever the order, unreported requests get their new estimate and nothing else about a request changes |
| ReportMeanings.NewPriceMeans | dacost/tracker.go:238-262 | the estimator is asked about the request's provider, model and usage, and an answer outside 0 to 10^9 stops the repricing |
| CostLedger.RepricedAllKeepsInv | dacost/tracker.go:263-271 | repricing in any order keeps the invariant |
| CostLedger.Tracker.Record | dacost/tracker.go:76-177 | outcome and new state are those of the specification, and the ledger stays the one its history of calls leads to |
| CostLedger.Tracker.FinalizeAll | dacost/tracker.go:203-214 | every request is finalized and nothing else changes |
| CostLedger.Tracker.RepriceAll | dacost/tracker.go:238-273 | all or nothing: an unusable estimate changes nothing, otherwise every unreported request is repriced once and the change is returned |
| CostLedger.Tracker.AddWallTime | dacost/tracker.go:216-233 | wall time accumulates, and a negative or overflowing duration is refused |
| CostReports.SumRows | dacost/report.go:268-297 | the row loop accepts exactly rows with good, distinct keys, sane figures and sums within 64 bits |
| CostReports.ValidateReport | dacost/report.go:245-330 | validation decides exactly the validity of counts and costs |
| ReportRows.ListingRoundTrip | dacost/report.go:68-93 | listing a table and reading the rows back gives the table |
| ReportRows.AddedTableSum | dacost/report.go:178-224 | a merged table sums to the two sums |
| MergeProofs.MergeReports | dacost/report.go:137-243 | the loops return the report of the summed tables exactly when every input is valid and the sums and rows fit |
| MergeProofs.MergedIsValid | dacost/report.go:137-243 | a merge of valid reports is valid in every count, and in its costs exactly when the inputs' slacks add up to no more than one report's tolerance |
| MergeProofs.MergeConcat | dacost/report.go:137-243 | merging a concatenation equals merging the two merges, failures included, for exactly summing rows |
| TrackerReports.ReachableReportCounts | dacost/report.go:52-93 | a reachable tracker's report validates in its counts exactly when its rows fit |
| DriftReports.ReachableReportValid | dacost/report.go:52-93 | after any run it validates altogether exactly when its rows fit, no drift outweighs the exact cost it is added to, and the rows' drifts stay within the tolerance of the total's |
| DriftReports.GentleReportValid | dacost/report.go:52-93 | after a run none of whose retractions lands within the snap it validates exactly when its rows fit, and its rows sum to its totals |
| DriftReports.GrainedReportValid | dacost/report.go:52-93 | so it does where all costs share a grain no finer than the snap |
| DriftReports.ComfortableIsValid | dacost/report.go:52-93 | its costs validate whenever each kept group costs at least one snap per retraction or has not moved, and one snap per retraction for each row and the total is within the tolerance |
| TrackerReports.ExactReportIsValid | dacost/report.go:52-93 | with exact costs the report is valid in its costs and its rows sum to its totals |
| CostSnapshots.TakeReport | dacost/report.go:52-93 | the method lists the rows in order whatever the map order; the report validates exactly when its rows fit and the drift of the tracker's own history is harmless, which it is after gentle runs and for comfortable figures |
| ReportMeanings.ReportMeans | dacost/report.go:52-67 | a report carries the tracker's figures, and every request without a price as unpriced |
| ReportMeanings.ReportRowsMean | dacost/report.go:68-93 | it has one row for each model, by provider and model, and one for each purpose, in their fixed order |
| CostExamples.CostGoesNegative | dacost/tracker.go:238-361 | three recorded requests and two reprices, each by one estimator that goes by the output tokens, after which every request is free, the kept total is below zero and the report is refused |
| CostExamples.MergeCanFailValidation | dacost/report.go:317-329 | a row cost above half the tolerance over the total is valid once and invalid when merged with itself |
| Lines.SplitSnoc | dabackend/filesystem.go:959-963 | one more character extends the open line or opens a new one |
| PageReader.OnePass | dabackend/filesystem.go:980-982 | normalising character by character equals the two replacements |
| PageReader.BetweenIsCut | dabackend/filesystem.go:945-976 | the characters kept while streaming are the lines a slice keeps |
| PageReader.StreamIsSlice | dabackend/filesystem.go:824-906 | reader and slicer agree on every text, offset and limit exactly when the end index does not overflow |
| PageReader.LargestLimitDiffers | dabackend/filesystem.go:824-976 | on the second of two lines with the largest limit they differ |
| PageReader.ReadTextPage | dabackend/filesystem.go:824-906 | the rune loop reports binary exactly when some byte is not UTF-8 and otherwise computes the streamed page: content, line numbers, next offset, blank, zero-limit and past-end cases |
| PageReader.PageMeans | dabackend/filesystem.go:824-906 | a page holds lines offset + 1 to end of the normalised text, counted from one, and names the next offset exactly when lines are left |
| PageReader.PagesJoin | dabackend/filesystem.go:824-906 | following next offsets from 0 with any positive limit yields exactly the normalised text |
| StateFiles.ReduceConcat | dabackend/state.go:298-321 | reducing a concatenation reduces the parts in turn |
| StateFiles.ReduceIsOverlay | dabackend/state.go:298-321 | a run of deltas has the effect of one, in which the last word on each name wins |
| StateFiles.ReduceStateFiles | dabackend/state.go:298-321 | the loops compute the reduction whatever the order of a delta's entries |
| StateFiles.RecordingExactly | dabackend/state.go:286-296 | recording names brings the delta in step with the files if and only if no other name has changed |
| StateFiles.RecordingTracks | dabackend/state.go:286-296 | recording the names that changed keeps the delta in step with the files |
| StateFiles.MarkingTracks | dabackend/state.go:215-240 | marking the names that went away does too |
| StateFiles.Memory.Write | dabackend/memory.go:118-135 | the file is replaced and keeps its time of creation |
| StateFiles.Memory.Edit | dabackend/memory.go:137-165 | an edit is answered by the edit contract, and every refusal leaves the files alone |
| Occurrences.ReplaceTextMeans | dabackend/filesystem.go:986-1007 | the edit contract: with the old string's occurrences, found left to right, cutting the text into n + 1 pieces free of it, a single replacement or all of them join the pieces by the new string; none is not found, several without `all` are refused |
| Occurrences.EditCut | dabackend/filesystem.go:986-1007 | there is always such a cut, its pieces are free of the old string, and it has one piece exactly when the old string occurs nowhere |
| Occurrences.SplitIsUnique | dabackend/filesystem.go:986-1007 | and only one |
| StateFiles.EditMeans | dabackend/memory.go:137-165 | the edited file holds the joined pieces, keeps its creation time and encoding, and no other file changes |
| StateFiles.Memory.Delete | dabackend/memory.go:167-192 | exactly the file and everything below it go, and an empty result is an error |
| StateFiles.Memory.Upload | dabackend/memory.go:288-315 | the named uploads are stored in order |
| StateFiles.Session.Write | dabackend/state.go:191-201 | after a write, the delta applied to the bound files gives exactly the session's files |
| StateFiles.Session.Edit | dabackend/state.go:203-213 | the same after an edit, and a refused edit records nothing |
| StateFiles.Session.Delete | dabackend/state.go:215-240 | the same after a delete |
| StateFiles.Session.Upload | dabackend/state.go:258-272 | the same after uploads if and only if no name stored under and not among the raw paths has changed |
| StateFiles.CleanUploadsAreRecorded | dabackend/state.go:258-272 | uploads under clean paths leave no such name |
| StateFiles.UncleanUploadIsLost | dabackend/state.go:258-272 | an upload to an empty session under any other accepted path is stored and leaves the delta empty |
| StateFiles.RawPathUploadIsLost | dabackend/state.go:258-272 | so is an upload to `/a//b`, stored as `/a/b` |
| VirtualPaths.NormalizedIsClean | dabackend/memory.go:344-354 | normalising is idempotent |
| PathMeanings.NormalizeVirtualMeans | dabackend/memory.go:344-354 | a path is refused exactly when it is empty, holds a NUL, starts with a tilde or goes up; otherwise it becomes absolute with its naming parts between single slashes |
| StateFiles.SessionsCompose | dabackend/state.go:117-151 | the whole log of deltas reduces to the last session's files |
| StateRaces.StepKeepsInv | dabackend/state.go:191-240 | at every point of every interleaving, where delta and files disagree a call in flight will see to it or the name is stale |
| StateRaces.StaleMeans | dabackend/state.go:191-240 | a name is stale exactly when some removal overlooked it and no later store or mark covered it |
| StateRaces.DeltaAtRest | dabackend/state.go:191-240 | once all calls returned, delta and files agree at a name exactly when the schedule did not leave it stale, and altogether exactly when it left none |
| StateRaces.SightedRunAgrees | dabackend/state.go:215-240 | a run in which every removal finds only names its delete had noted always agrees at rest |
| StateRaces.DeleteOverlooksWrite | dabackend/state.go:215-240 | a run in which the delta brings a deleted file back |
| AcpProofs.EffectKeepsInv | daacp/agent.go:341-455 | a step confined to its own call, closers and sessions keeps the lifecycle invariant |
| AcpRuns.StepKeepsInv | daacp/agent.go:86-181 | every step of create, load, switch, close, shutdown and turn does |
| AcpRuns.ClosedAtMostOnce | daacp/agent.go:642-668 | in every run each closer made by the factory is closed at most once |
| AcpRuns.OpenClosersAreOwned | daacp/agent.go:243-269 | an open closer belongs to a registered session, to a call in flight, or to a session that a call in flight is about to close |
| AcpRuns.NothingLeaks | daacp/agent.go:479-505 | with an empty table and no call in flight every closer was closed exactly once |
| AcpShutdown.ShutdownExactly | daacp/agent.go:479-505 | after shutdown, with no further call to open a session, the table stays empty in every run if and only if no call in flight was on its way to register one |
| AcpShutdown.ShutdownClosesEverything | daacp/agent.go:479-505 | then the calls in flight take a bounded number of steps in whatever order, never block one another for good, and at the end all have returned with every closer closed exactly once |
| AcpShutdown.LateSessionStaysOpen | daacp/agent.go:86-113 | a session being made during shutdown ends up in the table with its closer open |
| AcpRuns.InstallsWithoutTurn | daacp/agent.go:341-421 | a switched runner is installed only while its session has no active turn and no other switch |
| AcpSwitching.SessionReopens | daacp/agent.go:341-455 | in every run a registered session accepts turns and switches unless a call in flight is switching it |
| AcpClosing.CloseWaitsForTurn | daacp/agent.go:243-268 | once a close began, whatever else goes on, the session never comes back, no turn begins on it, and as long as it has one the close is still waiting for exactly that turn |

## Left out

- Composite routing (dabackend/composite.go): longest-prefix routing and batching would only add easy members.
- Shell, sandbox, event bus, credentials and configuration files: the behaviour lives in the operating system and in libraries.
- Transports, prompts, tool descriptions and profiles: plumbing and text.
- The QuickJS interpreter: its snapshot code is not part of this model.
- The paginated search of the store backend is one atomic read, and one batch is one atomic write; a put or batch that fails leaves the store as it was.
- CheckpointRuns.RunKeepsHeads: pending writes go to stored checkpoints; `CheckpointSteps.PutWritesKeepsWellFormed` says that others break well-formedness.
- CheckpointSaver.MemorySaver.Prune: requires a well-formed store (every parent id is empty or smaller than its child's), as does the history walk; without it the parent loops need not end. `CheckpointSteps.PutKeepsWellFormed` says exactly which puts keep it.
- CheckpointIds.LaterIdIsLarger: requires a timestamp below 2^60, the width of the UUIDv6 time fields.
- LineDiff.FillTable: uses a two-dimensional array where the source indexes one flat slice.
- MemoryGuard.StepKeepsBlock: the handler is taken to leave alone the guarded files that its call reaches under no name; a call without a clean path reaches none. A name stands for a file, not for a whole directory.
- MemoryGuard.RunKeepsBlock: the same, and the names of files stay as they are during a run.
- MemoryGuard.Guard.WrapToolCall: one lock covers each whole call, so calls are modelled one after another.
- GlobRules: bracket and star matching inside one segment stays a parameter that satisfies the literal law.
- Summaries.RunMeaning: the log only grows in these runs; `SummaryRepairs.RepairedRunMeaning` adds its repair and the clipping of tool results in place. What clipping writes, and the truncation of old arguments in a single request, are not modelled.
- Cutoffs.SummaryCutoff: a message's own token estimate is a parameter; the fixed trailer of a separate estimate is kept.
- CostReports.ValidateReport: names are valid UTF-8; errors carry no text.
- CostLedger.Tracker.RepriceAll: IEEE rounding is not modelled; costs are reals.
- PageReader.PagesJoin: requires a text shorter than half the integer range, so that no page end overflows; a longer text does not fit in memory.
- PageReader.ReadTextPage: what is then read of a binary file (its bytes in base64, or an error on a file over the limit) is not modelled.
- StateRaces.DeltaAtRest: a write and its later recording are two steps and a delete is three; the read lock that lets reads run meanwhile is not modelled.
- AcpRuns: workflow subscriptions and turns already superseded by a newer prompt are not tracked by the session and are not modelled; a new session's random id is taken to be unused.
- Timestamps, base64, JSON and regular expressions are opaque values.
