# Prosiak: a verified model of the backup server

Prosiak stores backups as deduplicated chunks that are replicated over storage nodes. A server cuts
an uploaded stream into content-defined chunks, spreads copies over the nodes, keeps manifests and
chunk locations in tables, and runs a scheduler that deletes orphaned chunks, prunes extra copies
and repairs missing ones. A node keeps its chunks in a directory with a reserved capacity. A client
packs directories into an archive, leaving out what its exclude patterns match.

This project models those parts in Dafny and proves what they keep over whole runs, with node calls
that may fail, lose their answers, stop halfway or return made-up data in any pattern. One thing the
claims about physical copies do need, as a named hypothesis: no deletion of a chunk takes effect while
its answer is lost (`DeletesAnswered`). Inductive proofs are written out; automatic induction is off.

- `Types`, `Ordering`, `Sums`, `Bits`: sequences, ordered listings, totals over maps, machine words.
- `Splitting`, `Gear`, `Chunker`: splitting a stream by a rule, the gear table, the rolling hash, the
  chunk reader and its loops.
- `Model`, `Queries`, `Operations`: the tables and the nodes' disks, the scheduler's SQL as real
  joins, and every operation as a function of the cluster.
- `Server`: the same operations as they run, on a `Cluster` whose tables are updated in place, with
  loops over tasks and nodes. Each method is proved equal to the function of the same name.
- `Invariants`, `Scheduler`, `Uploads`, `Placement`, `LoadShare`, `Files`, `Removal`, `Downloads`, `Runs`,
  `Convergence`: what single steps, operations, phases and runs keep.
- `UploadOutcome`, `FreedChunks`, `RequestOutcome`, `PassOutcome`, `OnePass`, `RepairRoom`: what operations
  achieve, mostly for every pattern of answers: when an upload is stored, which copies it leaves, what a
  deletion frees, what each task of a scheduler pass ends with, and when one pass is enough.
- `FailingRuns`, `CalmExample`, `StuckExample`: concrete runs and clusters.
- `ChunkNames`, `ChunkStore`, `NodeStore`, `StoreLaws`, `NodeGate`, `BackupNode`,
  `NodeRefinement`: the node's store with its files, faults and cached counter, its capacity gate, and
  the proof that a plain node is the node of the cluster model.
- `Regex`, `Globs`, `LineBreaks`, `Excludes`, `Archive`: the pattern compiler with a parser and a semantics
  for the text it emits, what line breaks do to it, the exclude matcher, and the pruned walk.

## Terms

- `InUse(w)`: hashes of some listed file; `Active(w, h)`: online nodes recorded as holding `h`;
  `Desired(w, h)`: the largest replication over the files with `h`.
- `Accounted`: every location is physically held, stores hold what their names say, a node's cached total
  covers its chunks and is within its capacity, recorded sizes are true, and free + recorded bytes fit in
  the capacity on each node. `Sane`: the part of this that does not need honest registrations, and unique
  versions, positive replications and true byte counts of all manifests.
- `DeletesAnswered`: no deletion of a chunk takes effect without an answer. Lost answers to uploads and to
  purges are in the model without any hypothesis.
- `Calm`: all nodes are online and obey, report honestly, no chunk in use is lost, and for each chunk with
  missing copies there are as many nodes without it, as copies are missing, that have room for all missing
  copies they lack. How full the other nodes are does not matter (`Convergence.CalmWithSpareNodes`,
  `CalmExample.CalmWithFullNode`), and where no copy is missing no room is asked for
  (`Convergence.CalmWithoutSpare`).
- `Quiet`: the part of this that does not speak of room: all nodes are online and obey, the accounting holds
  and no chunk in use is lost. `Settled`: no orphan, exactly the desired copies of every chunk in use, empty
  task lists and an idle pass.
- `Truthful`: the free space in the rows of the online nodes is there on their disks. `Answering`: all calls
  from some point on are obeyed.
- `Lost(w, w')`: the chunks that some file used in `w` and none uses in `w'`. `Denied`: a call to the node to
  delete a chunk was not answered with success.
- `HarmlessRun`: no purge in the run reported an error after taking a recorded chunk from the node.
- `Injective`: different contents have different digests. It is a hypothesis only where named.

## Where the code does not keep a promise

- An upload with replication below 1 is stored with no copy: the loop uses the raw number
  (`internal/server/handlers.go:339`), the manifest the default 3 (`internal/server/state.go:359`).
  `Runs.StoredUploadIsLocated` gives the exact condition, `Runs.ZeroReplicationUploadIsLost` an upload
  that can never be downloaded.
- A purge whose answer is lost, or that fails halfway, keeps the node's row and all its locations
  (`internal/server/handlers.go:124-127`) although chunks are gone. `Runs.RemoveKeepsIff` and
  `Runs.RunSaneIff`: the invariants hold throughout a run if and only if it is a `HarmlessRun`.
  `Runs.LostPurgeBreaksSpace` is the failing case, `FailingRuns.LostPurgeRun` a run from the empty cluster.
- A deletion that takes effect without an answer leaves its location recorded
  (`internal/server/replicator.go:106-111`). `FailingRuns.DiscardGroundedIff`: the tables stay true to the
  disks if and only if there is none of a recorded copy. `FailingRuns.LostDeletionLosesChunk`: in the prune
  loop one such deletion costs a chunk in use its last two copies.
- A scheduler pass plans all repairs by the free space before the first copy, so one node may be planned for
  more than it can take (`internal/server/state.go:680-683`). `RepairRoom.OnePassIff`: with uncut task lists
  one pass settles a quiet cluster if and only if each chunk is planned for as many nodes as it misses copies
  and each planned node's disk has room, when its turn comes, for what was planned for it up to there.
  `StuckExample.OnePassIsNotEnough` is a calm cluster of three nodes that needs two passes;
  `OnePass.OnePassWithRoomEverywhere` is a condition on the tables that makes one enough.
- A node's cached byte count drifts after a failed size lookup or a half-done clearing.
  `StoreLaws.PutExact`, `StoreLaws.DeleteExact` and `StoreLaws.ClearExact` say on the call's inputs exactly
  when it stays right; `NodeGate.LostSizeIsClamped` shows a count that is later clamped at zero.
- The capacity gate counts plain bytes and only looks at declared lengths. `NodeGate.GateKeepsCapacityIff`:
  it keeps the capacity in every run if and only if chunk files take nothing beyond their data and all
  uploads declare their length. `NodeGate.RunWithin` is the bound for sealed stores, and
  `NodeGate.BoundIsReached` a run that reaches it. `NodeGate.UndeclaredFitsIff` says which single uploads
  without a length still fit.
- Two stars in an exclude pattern do not cross a line break in a path. `Globs.FaithfulOnLines`: on a given
  path all compiled patterns mean their globs if and only if the path has no line break.
  `LineBreaks.FaithfulPattern`: a given pattern means its glob on all paths if and only if it has no two stars
  in a row.
- The root "/" is walked under a made-up path that its children do not carry
  (`cmd/backupctl/main.go:594-596`, `cmd/backupctl/main.go:633-637`), so a pattern for that path prunes
  everything. `Archive.OpenPatternsAtTop` gives the exact condition, `Archive.RootPatternEmptiesArchive` an
  archive that comes out empty.

## Model

| member | source | states |
|---|---|---|
| `Chunker.NextPowerOfTwo` | internal/server/handlers.go:679-688 | for 1 ≤ v ≤ 2^62 the smeared word plus one is 2^⌈log2 v⌉; 1 below that range, and the wrapped minimum above it |
| `Chunker.HashIsWindowSum` | internal/server/handlers.go:659-672 | the wrapping hash of n bytes is the sum of gear[b(n-1-j)]·2^j modulo 2^64 |
| `Chunker.OnlyWindowCounts` | internal/server/handlers.go:671-672 | modulo 2^k bytes older than the last k contribute nothing |
| `Chunker.LowBits` | internal/server/handlers.go:671-672 | masking the hash with k ones reads the sum over the last k bytes |
| `Chunker.HitIsLocal` | internal/server/handlers.go:671-674 | two chunks that end in the same window pass or fail the cut test together |
| `Chunker.WindowIsFull` | internal/server/handlers.go:642-655 | every accepted chunk size has a mask of at most 26 bits, below the minimum size of at least 8192, so the window is always full when tested |
| `Chunker.CutParameters` | internal/server/handlers.go:639-655 | the computed sizes and mask are those of the cutter for the target size, whose mask is all ones |
| `Chunker.ReadContentDefinedChunk` | internal/server/handlers.go:638-677 | reading yields exactly the prefix up to the first closing position, end of input for an empty rest, and an error without a chunk when the stream fails first; the reader moves past the chunk |
| `Chunker.FillChunk` | internal/server/handlers.go:657-677 | the byte loop stops where the chunk first closes |
| `Chunker.CutIsFirstClosing` | internal/server/handlers.go:660-676 | the cut is the first position that passes the test at or above the minimum, or the maximum, or the end |
| `Chunker.FirstClosingUnique` | internal/server/handlers.go:660-676 | there is only one such position |
| `Chunker.ChunksPartition` | internal/server/handlers.go:320-331 | the chunks of a stream that ends concatenate to the stream; those of a failing stream to a prefix |
| `Chunker.DeliveredChunks` | internal/server/handlers.go:320-331 | a stream that ends delivers all its chunks, one that fails loses at most its last |
| `Chunker.ChunkSizes` | internal/server/handlers.go:643-676 | every chunk is non-empty and at most the maximum; each but the last is at least the minimum and ends at the first closing position |
| `Chunker.ShortStreamIsOneChunk` | internal/server/handlers.go:660-667 | a stream below the minimum size is one chunk |
| `Chunker.CutterFigures` | internal/server/handlers.go:639-655 | for an accepted size the minimum is a quarter of it but at least 8192, the maximum four times it but at least 8192, and the mask has the bits of the least power of two not below it, 19 bits for size 1 |
| `RequestOutcome.ChunkLengths` | internal/server/handlers.go:643-676 | no chunk of an upload is empty or longer than four times the requested size (or 8192), none but the last shorter than a quarter of it or than 8192 |
| `Splitting.SameTailAfterCommonCut` | internal/server/handlers.go:321-331 | streams with a common tail that are both cut at one offset of it have identical chunks from there on, and the earlier ones cover what is before |
| `Chunker.ContentCutResynchronises` | internal/server/handlers.go:657-676 | a content-defined cut of one stream at least a window into the common tail is a cut of the other as soon as its open chunk has the minimum size, and all later chunks agree; the chunks up to the cut cover what is before it |
| `Gear.MakeGearTable` | internal/server/handlers.go:692-703 | the loop fills entry i with the mixed multiple i + 2 of the golden constant modulo 2^64 |
| `Gear.GearIsValid` | internal/server/handlers.go:692-703 | 256 entries, all words: the table meets what every chunker result asks of its table |
| `Gear.GearDistinct` | internal/server/handlers.go:692-703 | no two bytes share an entry: shifts, exclusive-ors and odd factors lose nothing |
| `Gear.LastByteMatters` | internal/server/handlers.go:670-671 | streams that differ only in the last byte have different hashes |
| `Queries.GroupsAreInUse` | internal/server/state.go:656-660 | the joined rows group into exactly the hashes in use |
| `Queries.DesiredIsMax` | internal/server/state.go:651-660 | MAX over the multiplied rows is the largest replication of a file with the hash |
| `Queries.ActiveIsHolders` | internal/server/state.go:655-660 | COUNT DISTINCT over the multiplied rows is the number of active holders |
| `Queries.OrphanRowsAreOrphans` | internal/server/state.go:744-758 | the anti-join yields exactly the online locations of hashes without a file, each once |
| `Queries.OrphanTasksAre` | internal/server/state.go:738-786 | the orphan list has no duplicates, only orphans, and as many as the limit allows, 100 if none is given |
| `Queries.PruneTasksAre` | internal/server/state.go:687-736 | the prune list is of overfull chunks, each with its true figures and all its active holders, least free space first, then longest unseen, then smallest id; as many as the limit allows |
| `Queries.ReplicationTasksAre` | internal/server/state.go:645-685 | the repair list is of underfull chunks, each with its true figures, its active sources and its plan |
| `Queries.TaskListsDisjoint` | internal/server/state.go:649-761 | the three lists never name the same hash |
| `Queries.NoWorkIff` | internal/server/state.go:645-786 | all lists are empty if and only if no orphan is left and every chunk in use has exactly its desired copies |
| `Queries.PruneTasksWorstFirst` | internal/server/state.go:704-705 | the prune list goes from most to least copies above the desired ones, then by hash, and the limit cuts off only what comes after all of it |
| `Queries.RepairTasksWorstFirst` | internal/server/state.go:662-663 | the repair list goes from most to fewest missing copies, then by hash, and the limit cuts off only what comes after all of it |
| `Queries.OrphanTasksInOrder` | internal/server/state.go:759-760 | the orphan list is in order of hash and node, and the limit cuts off the last |
| `Server.Cluster.PutChunk` | internal/server/handlers.go:513-529 | a stored and answered put, a refused one, or one whose answer is lost; success means the node holds these bytes and they hash to the name |
| `Server.Cluster.DeleteChunk` | internal/server/handlers.go:531-550 | deleting what is missing succeeds; a lost answer counts as a failure although the chunk is gone; success means the node does not hold the chunk, and failure, if deletions are answered, that no store changed |
| `Server.Cluster.ClearNodeStorage` | internal/server/handlers.go:552-567 | a clearing that is answered, refused, done without an answer, or stopped halfway |
| `Server.Cluster.FetchFromAny` | internal/server/handlers.go:569-597 | the body of the first node that answers |
| `Server.Cluster.RegisterNode` | internal/server/state.go:145-166 | the row takes the reported figures and the current time, no other row changes; the node is online and no other goes offline |
| `Server.Cluster.DeleteNode` | internal/server/state.go:196-221 | the node and its locations go together |
| `Server.Cluster.RemoveNode` | internal/server/handlers.go:111-140 | with purge nothing is removed unless the node was cleared |
| `Server.Cluster.ConfirmChunk` | internal/server/state.go:276-304 | succeeds exactly for a registered node; a first confirmation records the copy with its size, lowers free space by it but not below 0 and refreshes last_seen, a second changes nothing; no other location changes |
| `Server.Cluster.RemoveChunkLocation` | internal/server/state.go:631-643 | exactly this copy is forgotten and its bytes are given back, all of them while they fit the capacity |
| `Server.Cluster.PlanChunkSpread` | internal/server/state.go:227-274 | the sorted and cut list of eligible nodes |
| `Server.Cluster.OrphanChunkTasks` | internal/server/state.go:738-786 | the rows of the anti-join in hash and node order, cut at the limit |
| `Server.Cluster.PruneTasks` | internal/server/state.go:687-736 | the grouped query followed by the loop that fills in the locations |
| `Server.Cluster.ReplicationTasks` | internal/server/state.go:645-685 | the grouped query followed by the loop that fills in sources and candidates |
| `Server.Cluster.CleanupOrphanChunks` | internal/server/replicator.go:35-46 | the loop over orphan tasks, failed calls skipped |
| `Server.Cluster.PruneExtraCopies` | internal/server/replicator.go:92-115 | the loops over tasks and holders with both stopping tests, failed calls skipped |
| `Server.Cluster.ReplicateMissingCopies` | internal/server/replicator.go:48-90 | the loops over tasks and targets, digest check included |
| `Server.Cluster.RunReplicationOnce` | internal/server/replicator.go:28-33 | one scheduler pass; from a physically sound state and with deletions answered every chunk in use ends between its copies before and its desired copies |
| `Server.Cluster.CreateFile` | internal/server/state.go:338-392 | the manifest gets the next version and normalised figures; a taken id changes nothing; name and version stay unique |
| `Server.Cluster.UpdateReplication` | internal/server/handlers.go:252-271 | replication below 1 is refused, otherwise the file gets exactly this figure and no other file changes |
| `Server.Cluster.DeleteFile` | internal/server/state.go:513-548 | the loop over the manifest with its seen set lists, without duplicates, the hashes in use before and not after |
| `Server.Cluster.ApplyRetention` | internal/server/state.go:550-621 | removes the versions beyond keep and lists, without duplicates, the hashes in use before and not after |
| `Server.Cluster.DeleteUnusedChunks` | internal/server/handlers.go:441-456 | deletes every copy recorded when the call started, counting successes and listing failures |
| `Server.Cluster.RemoveFile` | internal/server/handlers.go:423-439 | deleting a file, then the chunks nobody uses; with deletions answered all invariants and the copies of chunks still in use are kept |
| `Server.Cluster.StoreChunk` | internal/server/handlers.go:334-367 | one round of the upload loop: counts the chunk, places missing copies, appends it |
| `Server.Cluster.StoreStream` | internal/server/handlers.go:313-368 | the upload loop over the reader, its counters and its three ways to end |
| `Server.Cluster.BackupFile` | internal/server/handlers.go:273-392 | checks, upload loop, manifest, retention, deletion of unused chunks; with deletions answered all invariants and the copies of chunks in use are kept however it ends |
| `Server.Cluster.DownloadFile` | internal/server/handlers.go:394-421 | the chunks in manifest order, each fetched, checked and written, stopping at the first failure, which may have written a part of a chunk; tables and stores are left alone |
| `Invariants.DiscardEvolves` | internal/server/replicator.go:106-111 | with deletions answered, dropping one copy of an overfull or unused chunk loses no last copy and undershoots nothing |
| `Invariants.CopyEvolves` | internal/server/replicator.go:78-86 | adding one copy of an underfull chunk overshoots nothing |
| `Invariants.DiscardAccounted` | internal/server/state.go:631-643 | dropping a copy keeps the accounting on every node |
| `Invariants.CopyAccounted` | internal/server/state.go:276-304 | adding a copy keeps it, although free space was planned with before |
| `Invariants.GiveBackFits` | internal/server/state.go:637-641 | giving space back never reaches the capacity clamp |
| `Scheduler.PruneMends` | internal/server/replicator.go:98-113 | with deletions answered, pruning a chunk ends between its copies before and its desired copies, under any other failures, and touches no other chunk |
| `Scheduler.RepairMends` | internal/server/replicator.go:63-88 | repairing a chunk ends between its copies before and its desired copies, under any failures, and touches no other chunk |
| `Scheduler.PassKeepsCopies` | internal/server/replicator.go:28-115 | with deletions answered, after a pass under any other failures every chunk in use has between its copies before and its desired copies, from whichever side it came, and loses no last copy |
| `Scheduler.PassAccounted` | internal/server/replicator.go:28-115 | with deletions answered a pass keeps the space accounting although all targets are planned before the first copy |
| `PassOutcome.CleanupOutcome` | internal/server/replicator.go:35-46 | whatever the nodes answer, exactly the listed orphans whose own call is answered with a deletion lose their location, and are gone from the node; no other location goes and no chunk in use leaves a disk |
| `PassOutcome.ObeyedCleanup` | internal/server/replicator.go:35-46 | with obedient nodes none of the listed orphans is left, and none at all if the list was not cut off |
| `PassOutcome.PruneOutcome` | internal/server/replicator.go:92-115 | whatever the nodes answer, a prune task takes the first copies of its list whose own call is answered with a deletion, no more than are extra, and leaves max(desired, active - answered) active copies; other chunks are not touched |
| `PassOutcome.PrunePhaseOutcome` | internal/server/replicator.go:92-115 | the phase works through its whole list: each listed chunk ends as its task leaves it when its turn comes, and no other chunk loses a copy |
| `PassOutcome.ObeyedPrune` | internal/server/replicator.go:92-115 | with obedient nodes every listed chunk ends with exactly its desired copies |
| `PassOutcome.RepairOutcome` | internal/server/replicator.go:48-90 | whatever the nodes answer, once the chunk is fetched a repair task brings it to the first candidates that obey their call and have disk room, no more than are missing, and leaves min(desired, active + willing) active copies; the new locations carry the size, the disks the bytes, and other chunks are not touched |
| `PassOutcome.RepairPhaseOutcome` | internal/server/replicator.go:48-90 | the phase works through its whole list: each listed chunk ends as its task leaves it when its turn comes, and no other chunk gets a copy |
| `Uploads.LoopTracks` | internal/server/handlers.go:320-368 | under any failures the loop only adds copies; when it ends well the list names every chunk by digest and size and, with replication of at least 1, each is located |
| `Uploads.DedupAccounting` | internal/server/handlers.go:315-337 | the total is the stream's length, new and reused bytes add up to it, and new is the total size of the distinct chunks no file used before, each as long as where it first occurs |
| `Uploads.FreshHashes` | internal/server/handlers.go:332-337 | those chunks are the ones of the stream that no file used before |
| `Uploads.FreshSize` | internal/server/handlers.go:332-337 | each counts with the length of its first occurrence |
| `UploadOutcome.PlaceSucceedsIff` | internal/server/handlers.go:350-359 | placing succeeds if and only if every planned node obeys its call and its disk has room, whatever the others do |
| `UploadOutcome.ChunkSucceedsIff` | internal/server/handlers.go:334-367 | whatever the nodes answer, a round goes through if and only if no copy is missing or as many nodes may get one as are missing and the chosen ones all take it; then the chunk has max(before, replication) active copies and every other chunk as many as before |
| `UploadOutcome.UploadStoredIff` | internal/server/handlers.go:273-392 | which of its five ends an upload comes to, for every pattern of answers: refused for its figures alone and without a trace, chunk failed, stream failed, id taken, or else stored; unless stored, the manifests are as they were |
| `UploadOutcome.StoredCopies` | internal/server/handlers.go:338-359 | a stored upload leaves each of its chunks, stored before or not, with exactly max(before, replication) active copies, and every other chunk in use with as many as before |
| `UploadOutcome.TruthfulUploadStoredIff` | internal/server/handlers.go:338-359 | with obeying nodes and true rows, an upload with acceptable figures, a stream that ends and a free id is stored if and only if in every round as many online nodes without the chunk have room by their row as copies are missing |
| `UploadOutcome.UploadWithDiskRoomIsStored` | internal/server/handlers.go:338-359 | so it is, true rows or not, when in every round that many nodes have room by their row and all that do have it on disk |
| `UploadOutcome.RoomyUploadIsStored` | internal/server/handlers.go:338-359 | so it is when there are as many online nodes as copies asked for and each has room for the chunk in every round that places one |
| `UploadOutcome.UploadWithRoomIsStored` | internal/server/handlers.go:338-359 | so it is when each online node has room for the whole stream at the start |
| `Placement.PlanIsLeast` | internal/server/state.go:227-274 | the plan has min(k, n) of the n nodes seen in the last 45 seconds, with the size free and without the chunk (k the wanted copies, 3 if not positive); earlier before later, and chosen before left out, by fewer copies given, then more free space, then smaller id |
| `Placement.PlanPrefersIdle` | internal/server/state.go:255-272 | no chosen node had more copies in this upload than one left out |
| `Placement.LeastFirstKeepsBalance` | internal/server/state.go:255-272 | adding one to the least counts keeps counts within 1 of each other |
| `Placement.UploadBalances` | internal/server/handlers.go:338-359 | if no chunk of the stream is stored beforehand and every online node has room for the chunk in each round that places one, the counts of any two nodes differ by at most 1 after every round, repeated chunks included |
| `Placement.RoomForAllIsEnough` | internal/server/state.go:236-237 | room for the whole stream on every online node is more than that |
| `LoadShare.ShareBalances` | internal/server/handlers.go:338-359 | the same balance when each of n online nodes has room for copies / n + 2 chunks of the largest size, copies being replication times the distinct chunks |
| `Files.NextVersionIsNewest` | internal/server/state.go:375 | the assigned version exceeds all of that name |
| `Files.CreateKeepsVersions` | internal/server/state.go:338-392 | name and version stay unique |
| `Files.DeleteFileListsUnused` | internal/server/state.go:513-548 | the returned hashes are, without duplicates, exactly those in use before and not after |
| `Files.RetentionListsUnused` | internal/server/state.go:600-620 | the same for retention over all removed versions |
| `Files.RetentionKeepsNewest` | internal/server/state.go:550-598 | exactly the min(keep, count) highest versions of the name remain and no other file changes |
| `Files.NewestSurvives` | internal/server/handlers.go:387 | the newest version survives retention with any keep |
| `RequestOutcome.StoredRowIs` | internal/server/state.go:338-392 | the manifest of a stored upload, column by column: names, one above the highest version of the name, retention, chunk size, time, the requested replication or 3, the length and the chunks of the stream |
| `RequestOutcome.DeletedVersionsAre` | internal/server/handlers.go:387-391 | the answer to a stored upload lists, newest first and once each, exactly the versions that went |
| `RequestOutcome.ReplicationIsSet` | internal/server/state.go:407-418 | a positive replication is stored as given for a listed file, every other column and file staying as it was |
| `RequestOutcome.ReplicationIsWanted` | internal/server/state.go:651-660 | the file's chunks are then desired at least that often, and chunks it does not use as often as before |
| `Removal.DeletionReport` | internal/server/handlers.go:441-456 | a copy of a listed hash is still recorded exactly if its failure is reported, no other location changes, and the count is the number of locations that went |
| `Removal.DropUnusedEvolves` | internal/server/handlers.go:441-456 | with deletions answered, deleting unused chunks harms no chunk in use, under any other failures |
| `FreedChunks.FileRemovalFrees` | internal/server/handlers.go:423-456 | deleting a listed file removes it and, whatever the nodes answer, a location of a chunk it was the last to use stays if and only if it is reported as failed, which takes a denied deletion; the count is the number of locations that went, those chunks are gone from their nodes and their bytes given back; nothing else changes |
| `FreedChunks.ObeyedFileRemoval` | internal/server/handlers.go:423-456 | with obeyed deletions no recorded copy of such a chunk is left, in the tables or on its node |
| `FreedChunks.RetentionFrees` | internal/server/handlers.go:387-390 | a stored upload's retention does the same: of the chunks that lost their last file a location stays only if its node denied a deletion, a chunk whose location went is gone from the node, and all other locations stay |
| `Downloads.DownloadSound` | internal/server/handlers.go:407-420 | whatever nodes return, the output is a prefix of the stored stream, chunk-aligned or, if a write failed, exactly what the client takes, and, chunks being non-empty, the whole of it if and only if the download completes |
| `Downloads.DownloadEnds` | internal/server/handlers.go:394-421 | how a download ends, whatever nodes return: not found exactly for an unlisted id, else after some chunks because all are out, nobody delivers the next, its digest is wrong, or the client takes no more |
| `Downloads.FetchIsFirst` | internal/server/handlers.go:569-597 | nodes are asked in order until one answers, whose body is returned; none is only if none answers |
| `Downloads.DownloadExact` | internal/server/handlers.go:394-421 | with one answering holder per chunk the download completes with exactly the stored bytes |
| `Runs.UploadStep` | internal/server/handlers.go:273-392 | with deletions answered, an upload, stored or failed, keeps all invariants, the copies of chunks in use and the other files; a stored one lists exactly the stream's chunks |
| `Runs.StoredManifest` | internal/server/handlers.go:370-389 | a stored upload's manifest has the stream's length and the true new and reused bytes, and with retention k only the min(k, count) newest versions of its name remain |
| `Runs.DeleteStep` | internal/server/handlers.go:423-439 | with deletions answered, deleting a file keeps all invariants and every copy of chunks still in use |
| `Runs.HeartbeatAccounted` | internal/server/state.go:145-166 | an honest heartbeat keeps the accounting |
| `Runs.RemoveKeepsIff` | internal/server/handlers.go:111-140 | removing a node keeps the invariants, and the accounting, if and only if a purge that reported an error took no recorded chunk |
| `RequestOutcome.RemoveNodeIff` | internal/server/handlers.go:111-140 | removing a node succeeds if and only if it is registered and any purge is answered; then exactly its row and locations are gone, otherwise no table changes |
| `Runs.StepIsGood` | internal/server/handlers.go:50-68 | with deletions answered every operation, but for such a purge, keeps every invariant; only node removal can lose a location, only it and the clock active copies, only unsupervised registrations the accounting |
| `Runs.RunSaneIff` | internal/server/handlers.go:50-68 | with deletions answered the invariants hold in every state of a run if and only if it has no such purge; with honest heartbeats the accounting too |
| `Runs.RunSane` | internal/server/state.go:276-304 | with deletions answered the invariants hold in the state reached by a run without such a purge |
| `Runs.SpaceInvariant` | internal/server/state.go:295-301 | with honest heartbeats, answered deletions and no such purge free + recorded bytes never exceed a node's capacity, and the clamp on giving space back never fires |
| `Runs.LostPurgeBreaksSpace` | internal/server/handlers.go:124-127 | a purge whose answer is lost, then a heartbeat: free + recorded bytes exceed the capacity and giving back is clamped |
| `FailingRuns.LostPurgeRun` | internal/server/handlers.go:124-127 | heartbeat, upload, lost purge, heartbeat from the empty cluster: the tables promise more space than the node has |
| `FailingRuns.DiscardGroundedIff` | internal/server/replicator.go:106-111 | after a deletion every recorded copy is still held if and only if it was not an unanswered one of a recorded copy |
| `FailingRuns.LostDeletionLosesChunk` | internal/server/replicator.go:99-113 | of two copies of a chunk that should have one, an unanswered deletion of the first lets the loop delete the second: one location stays recorded and no node holds the chunk |
| `Runs.NoChunkIsLost` | internal/server/replicator.go:28-115 | over every run without node removal, whatever other calls fail as long as no deletion takes effect without an answer, each chunk of each listed file is recorded on a node that holds bytes with its digest |
| `Runs.RunKeepsFile` | internal/server/handlers.go:423-456 | with deletions answered, a file still listed after a run has the chunk list it had, and none of its chunks lost the last copy |
| `Runs.RestoreIsExact` | internal/server/handlers.go:273-421 | with deletions answered: store a stream, run anything without removing nodes, and if the file is still listed a download with one answering holder per chunk returns exactly the stream |
| `Runs.StoredUploadIsLocated` | internal/server/handlers.go:339 | all chunks of a stored upload are located if and only if replication was at least 1 or all of them were located before |
| `Runs.ZeroReplicationUploadIsLost` | internal/server/state.go:359 | a stored upload with replication 0 whose download fails |
| `Convergence.CalmWithoutSpare` | internal/server/state.go:233-240 | a cluster without missing copies is calm however full its nodes are |
| `Convergence.CalmWithSpareNodes` | internal/server/state.go:233-240 | a set of nodes with room, as large as the most missing copies of a chunk and without those chunks, is enough however full the others are |
| `Convergence.CalmWithRoomEverywhere` | internal/server/state.go:233-240 | so is room on every node if no file asks for more copies than there are nodes |
| `CalmExample.CalmWithFullNode` | internal/server/state.go:233-240 | a calm cluster with a missing copy whose only holder is full |
| `Convergence.PassProgress` | internal/server/replicator.go:28-115 | on a calm cluster a pass lowers the distance (orphans plus the sum of deviations) while it is not 0, despite the task limits, and changes nothing once it is |
| `Convergence.ZeroIsSettled` | internal/server/state.go:645-786 | at distance 0 every chunk has its desired copies, no orphan is left, all task lists are empty and a pass is idle |
| `Convergence.PassesConverge` | internal/server/replicator.go:17-24 | as many passes as the initial distance settle a calm cluster, and further passes leave it settled |
| `OnePass.ClearRepair` | internal/server/replicator.go:48-90 | on a calm cluster where every node that may be planned has room for all the missing copies it lacks, each listed chunk ends with exactly its desired copies |
| `OnePass.OnePassSettles` | internal/server/replicator.go:28-33 | then one pass settles the cluster if no list is cut off |
| `OnePass.OnePassWithRoomEverywhere` | internal/server/replicator.go:28-33 | so it does an orderly cluster with room on every node for the missing copies it lacks and as many nodes as desired copies, a condition on the tables before the pass |
| `RepairRoom.RepairEndsIff` | internal/server/replicator.go:48-90 | on a quiet cluster all chunks listed for repair end with exactly their desired copies if and only if each is planned for as many nodes as it misses copies and each node's disk has room for what is planned for it, in turn |
| `RepairRoom.OnePassIff` | internal/server/replicator.go:28-33 | one pass with uncut lists settles a quiet cluster if and only if the plans made before its repair phase work out in that sense |
| `StuckExample.OnePassIsNotEnough` | internal/server/state.go:680-683 | a calm cluster that one pass does not settle and two do: one node is planned for two chunks and has room for one |
| `ChunkNames.HexRoundTrip` | internal/chunkstore/store.go:317-320 | decoding the digits of a digest gives the digest back |
| `ChunkNames.SamePath` | internal/chunkstore/store.go:112-121 | two accepted names share a file exactly when they differ at most in the prefix |
| `ChunkNames.PathAcceptsIff` | internal/chunkstore/store.go:112-121 | accepted are exactly the names with, after an optional sha256:, an even number of at least two hexadecimal digits |
| `ChunkNames.PathStaysInside` | internal/chunkstore/store.go:117-120 | an accepted name has one slash, after two digits, and one dot, before the suffix |
| `ChunkNames.TempIsNoChunkName` | internal/chunkstore/store.go:80-82 | temporary files are never counted |
| `NodeStore.Store.constructor` | internal/chunkstore/store.go:54-60 | the count starts as what a walk finds |
| `NodeStore.New` | internal/chunkstore/store.go:35-62 | opening fails exactly if the directory, the key length or the walk fails |
| `NodeStore.Store.ScanUsed` | internal/chunkstore/store.go:71-91 | the walk adds up the sizes of exactly the chunk files |
| `NodeStore.Store.PutPlain` | internal/chunkstore/store.go:141-181 | temporary file, checks, rename and count, with every failure on the way |
| `NodeStore.Store.PutSealed` | internal/chunkstore/store.go:185-221 | hash check on the plain data, nonce before the sealed data, rename and count |
| `NodeStore.Store.Open` | internal/chunkstore/store.go:223-250 | the file as it is, or unsealed behind its nonce, or an error |
| `NodeStore.Store.Delete` | internal/chunkstore/store.go:252-266 | removes the file and its bytes from the count; a missing file counts as deleted |
| `NodeStore.Store.Clear` | internal/chunkstore/store.go:268-307 | counts all files, then removes them, stopping where it fails and resetting the count only at the end |
| `StoreLaws.PutAccepts` | internal/chunkstore/store.go:141-221 | a body is accepted if and only if nothing fails and it hashes to its name |
| `StoreLaws.PutAnswers` | internal/chunkstore/store.go:132-221 | a bad name is answered for exactly the names that are not accepted, a wrong hash exactly if the body could be read and, unsealed, written |
| `StoreLaws.PutCases` | internal/chunkstore/store.go:159-178 | a rejected body leaves the chunk files and the count as they were |
| `StoreLaws.PutThenOpen` | internal/chunkstore/store.go:132-250 | after an accepted call opening the name returns the data, every other name opens as before, and after a rejected one all do |
| `StoreLaws.DeleteThenOpen` | internal/chunkstore/store.go:252-266 | deleting takes away that chunk and nothing else |
| `StoreLaws.DeleteSucceedsIff` | internal/chunkstore/store.go:252-266 | deleting succeeds exactly for an accepted name unless the removal fails, and then changes nothing |
| `StoreLaws.ClearSucceedsIff` | internal/chunkstore/store.go:268-307 | clearing succeeds exactly if the root is safe and nothing fails; then nothing opens and the count is 0 |
| `StoreLaws.ServedHashes` | internal/chunkstore/store.go:223-250 | whatever is served under a digest's name has that digest |
| `StoreLaws.PutExact` | internal/chunkstore/store.go:174-179 | the count stays exact if and only if the body is not accepted (it meets a failure or has another hash) or the failed lookups miss equally many bytes of the old and the new file |
| `StoreLaws.DeleteExact` | internal/chunkstore/store.go:257-264 | deleting keeps the count exact unless the lookup fails, the removal does not, and the file has data |
| `StoreLaws.ClearExact` | internal/chunkstore/store.go:297-305 | clearing keeps it exact if and only if it is refused, fails to walk, succeeds, or what it fails to remove includes every chunk file with data |
| `StoreLaws.ClampIdle` | internal/chunkstore/store.go:94-101 | while the count covers the disk its clamp at zero never fires |
| `NodeGate.RunCovers` | internal/chunkstore/store.go:141-307 | over every run the count covers the disk and each chunk file opens to data that hashes to its name |
| `NodeGate.RunExact` | internal/chunkstore/store.go:309-315 | from a restart on the count equals the rescan while no lookup fails and no clearing stops halfway |
| `BackupNode.HandlePut` | cmd/backup-node/main.go:267-294 | the gate looks at declared lengths only, then stores |
| `BackupNode.RegisterRequest` | cmd/backup-node/main.go:222-237 | reports what the count leaves of the capacity, at least 0 |
| `NodeGate.ReportIsHonest` | cmd/backup-node/main.go:222-237 | free space reported is really there, and all of it exactly if the count is exact |
| `NodeGate.RunWithin` | cmd/backup-node/main.go:273-283 | over every run of uploads with declared length a plain store stays within its capacity and a sealed one within its capacity plus twice the overhead of one chunk |
| `NodeGate.GateKeepsCapacityIff` | cmd/backup-node/main.go:273-283 | the gate keeps the capacity in every run if and only if files take nothing beyond their data and every upload declares its length |
| `NodeGate.BoundIsReached` | cmd/backup-node/main.go:273-283 | a run of uploads with declared length that fills the disk to the capacity plus twice the overhead |
| `NodeGate.UndeclaredFitsIff` | cmd/backup-node/main.go:273-284 | an accepted upload without a length fits if and only if its file, for the one it replaces, does |
| `NodeGate.SealedExceedsCapacity` | cmd/backup-node/main.go:279 | a sealed chunk as large as the capacity passes the gate and overfills it |
| `NodeGate.UndeclaredExceedsCapacity` | cmd/backup-node/main.go:273 | an upload without declared length passes whatever its size |
| `NodeGate.LostSizeIsClamped` | internal/chunkstore/store.go:103-110 | a size lookup that fails after the rename leaves bytes uncounted, and deleting the chunk would be clamped |
| `NodeRefinement.PutRefines` | cmd/backup-node/main.go:267-294 | on a plain node a declared upload is accepted exactly when it goes through and the cluster model accepts it, and under any failure but that of a size lookup the contents agree |
| `NodeRefinement.DeleteRefines` | internal/chunkstore/store.go:252-266 | deleting is erasing in the cluster model, a failed removal is nothing |
| `NodeRefinement.ClearRefines` | internal/chunkstore/store.go:268-307 | every way a clearing can go is an answer of the cluster model with the same store left behind |
| `NodeRefinement.OpenRefines` | internal/chunkstore/store.go:223-250 | opening returns what the cluster model says is held |
| `Globs.GlobToRegexp` | cmd/backupctl/main.go:720-746 | the loop over characters emits the concatenated text of the pattern's tokens |
| `Globs.Compiles` | cmd/backupctl/main.go:698 | the anchored text of every pattern parses, to the expression of its tokens |
| `Globs.TokenwiseIsGlob` | cmd/backupctl/main.go:720-746 | cutting a pattern into tokens, a star taking a second star and a slash with it, gives what its characters mean |
| `Globs.CompiledMatches` | cmd/backupctl/main.go:698-746 | the parsed text matches exactly the paths that the pattern means, read character by character: two stars and a slash, two stars, one star, a question mark, anything else |
| `Globs.FaithfulOnLines` | cmd/backupctl/main.go:730 | all compiled patterns mean their globs on a path if and only if it has no line break |
| `LineBreaks.FaithfulPattern` | cmd/backupctl/main.go:725-734 | a compiled pattern means its glob on every path if and only if it has no two stars in a row |
| `Globs.OpenEnd` | cmd/backupctl/main.go:725-734 | a pattern that ends in an even, positive number of stars goes on matching whatever is appended within the line |
| `Globs.LastOpenIff` | cmd/backupctl/main.go:725-734 | stars are read two by two: the last token is two stars if and only if the pattern ends in an even, positive number of them |
| `Excludes.NewExcludeMatcher` | cmd/backupctl/main.go:690-705 | trims, drops blank patterns and compiles the rest in order, failing at the first that does not compile |
| `Excludes.TrimIff` | cmd/backupctl/main.go:690-692 | the result of trimming is the one string with such characters gone from both ends and nothing else |
| `Excludes.NormalisedIff` | cmd/backupctl/main.go:690-692 | a pattern is used without white space, and then without slashes, at its ends |
| `Excludes.MatcherBuilds` | cmd/backupctl/main.go:690-705 | none ever fails to compile, so exactly the patterns that are not blank are kept |
| `Excludes.Match` | cmd/backupctl/main.go:707-718 | true exactly if some pattern matches the trimmed path, or for a directory the path with a slash |
| `Excludes.ExcludedIsGlob` | cmd/backupctl/main.go:707-718 | a path is excluded exactly if one of the kept globs means it, or means it as a directory |
| `Globs.SlashStarsEndOpen` | cmd/backupctl/main.go:725-734 | every pattern ending in a slash and two stars is of that kind |
| `Excludes.BelowExcluded` | cmd/backupctl/main.go:707-718 | if every pattern ends in an even number of stars, everything below an excluded directory whose path there has no line break is excluded on its own |
| `Archive.Tar.AddRoot` | cmd/backupctl/main.go:625-643 | the walk writes the entries of the pruned tree, in order |
| `Archive.PrunedWalkIsFilter` | cmd/backupctl/main.go:638-643 | below a kept root the pruned walk is the tree filtered by "neither the entry nor a directory above it is excluded" |
| `Archive.PrunedRootIsFilter` | cmd/backupctl/main.go:625-643 | for every root but "/" the archive is the whole tree, root included, filtered that way, the root being above all else |
| `Archive.PrunedTopIsFilter` | cmd/backupctl/main.go:633-643 | for "/" the archive is empty if the root's made-up path is excluded, and filtered that way otherwise |
| `Archive.OpenPatternsPruneNothing` | cmd/backupctl/main.go:638-643 | if every pattern ends in an even number of stars and no path has a line break, the archive of every root but "/" holds exactly the entries that do not match on their own |
| `Archive.OpenPatternsAtTop` | cmd/backupctl/main.go:633-643 | for "/" that is so if and only if the made-up path is not excluded or everything below is excluded anyway |
| `Archive.RootPatternEmptiesArchive` | cmd/backupctl/main.go:594-596 | with the pattern root/** the archive of "/" is empty although "etc" does not match |

## Left out

- Interleavings: each handler and each scheduler pass runs alone; in the code a new chunk has a location but no manifest until the upload ends, which a scheduler pass in between would take for an orphan.
- Runs.NoChunkIsLost: with `DeletesAnswered` only, as are the other claims about physical copies; what one unanswered deletion does is in `FailingRuns`.
- Server.Cluster.PutChunk: a node that answers success has stored the chunk; nodes that lie about that are not modelled. Reads may return anything.
- Server.Cluster.RegisterNode: nodes are told apart by id, and a node's disk belongs to its id; changes of address and two ids at one address are not modelled.
- Clock: whole seconds, frozen during one operation; with fractions a node can count as online for the query and as offline for the derived status.
- Text keys: hashes, node ids, file ids and names of the cluster are ordered numbers; the text form of hashes appears on the node only.
- Server.Cluster.CreateFile: the random file id is a parameter, and of the database errors only a taken id is modelled; all other database calls succeed.
- Cluster nodes store plain data and their uploads declare a length, so the cluster's capacity claims do not cover sealed stores; `NodeGate.RunWithin` states what holds for those on the node.
- Server.Cluster.BackupFile: the upload size ceiling is a stream that fails; the response body is the result value only.
- Server.Cluster.DownloadFile: the error text appended to the response after a failed chunk is not part of the output.
- Digest and cipher: opaque functions; the cipher opens what it sealed and adds a tag of fixed size.
- Byte counts are unbounded: sums near 2^63 bytes are not modelled. The rolling hash and the mask are 64-bit words that wrap.
- Concurrent calls for one hash on a node.
- Chunk files put under the root by hand are counted by the scan, but are not assumed to hash to their name.
- Globs.CompiledMatches: patterns and paths are sequences of characters; bytes that are not valid UTF-8 are not modelled. The parser covers the syntax the compiler emits and rejects the rest.
- Archive.Tar.AddRoot: file contents, link targets and read errors during the walk; a directory's trailing slash in the archive is the entry's directory flag.
- Direct confirmation of chunks and direct creation of manifests by clients, which trust the client's claims.
- Schema migration and legacy rows without versions: the database starts empty with cascading deletes.
- HTTP routing, JSON, multipart parsing, TLS, bearer tokens, configuration, capacity parsing, the dashboard, file availability, address normalisation, archive root prefixes and restoring an archive: no state that the claims above depend on.
