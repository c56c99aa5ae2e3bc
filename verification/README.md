# ACBackup: the flat-volume store and the snapshot chain

ACBackup keeps a directory tree as a chain of snapshots. Two components decide whether a backup can be restored.

* **The flat-volume store** packs the bytes of all new files of a snapshot into volume files of bounded size. Many
  threads write at once: `FindStream` gives a writer the volume it owns, else a free one, else a fresh one;
  `WriteBytes` splits data over volumes; `BytesWereWrittenToVolume` records a block in the index and drops full volumes;
  `CloseFile` frees the volume. A node is read back by walking its recorded blocks through a reference-counted cache of
  volume handles.
* **The snapshot chain** compares the source with the last index, backs up what is new, copies metadata for what is
  not, and turns moves into back-references. `FindDataSnapshot` follows back-references through older snapshots.

Verify with `dafny verify dfyconfig.toml`.

## How the program is modelled

| modules | source |
|---|---|
| `Prelude`, `Blocks` | blocks of a node, `AddBlock` |
| `VolumePool`, `FlatVolumes` | the locked sections as functions on values, and the class whose methods compute them |
| `Store`, `StoreContents`, `StoreLayout`, `StoreTheorems`, `Progress`, `Interference` | all interleavings of any number of writers |
| `HandleCache`, `HandleCacheRuns`, `CacheRefinement`, `BlockReader`, `ReadBack` | reading: reference counts, open handles, the block stream |
| `Nodes`, `Difference` | indexes, hash index and the comparison of two indexes |
| `Snapshots`, `SnapshotChain`, `NewIndex`, `Verification`, `ReturnValue` | `AddSnapshot` as a relation, the new index field by field, whole runs, restoring, verifying, and what `AddSnapshot` returns |
| `IndexArchive`, `BackupIndex` | the index as an object and as a document |
| `SnapshotManager`, `SnapshotVolumes`, `SnapshotNames` | adding a snapshot as it executes, its volumes, reading the chain in |
| `StaleTargets`, `RunsExist` | runs in which a stale back-reference does harm; the existence of runs |
| `CompressionStatistics` | learning of compression rates |

*Writers.* The store is a state machine over atomic steps of each writer: enter `WriteBytes`, `FindStream` (locked), the
offset query, the file write (both unlocked), `BytesWereWrittenToVolume` (locked), `CloseFile`. Between file write and
index update the bytes are in the file and in no block; the invariants name this window (phase `Appended`). The same
sections are executed by the class `FlatVolumesFileSystem`, whose methods are proved to compute exactly the functions
that the machine steps with; `Progress.RoundIsFourSteps` says that one pass of the loop is four steps.

*Readers.* The handle cache is a state machine over the steps of any number of streams and of sweeps that look at one
volume at a time. The methods of `BlockReader` are proved to take the cache through steps of this machine.

*Runs.* A run is a sequence of source states. Each step relates the last index, the source, what the threads did (the
`Outcome`: any run of the store, with any assignment of writers) and the new snapshot, which is the index after being
written to its document and read again. The class `SnapshotManager.Manager` executes such a step: it writes the index
file, forgets all snapshots, reads the index directory again, and is proved to extend a run.

*What the environment promises*, as named hypotheses: `GoodCodec` (decompression undoes compression, and nothing
non-empty compresses to nothing), `HashSeparates` (no two contents of consecutive sources collide),
`SameFactsSameContent` (same path, type, size and modification time mean same content), `ValidSource` (distinct paths,
contents of the size they claim; the source does not change during one backup). File writes write everything.

## What was found

* **A copied back-reference can be stale.** `BackupNodeMetadata` (src/backup/Snapshot.cpp:161-164) copies the
  back-reference of the old node and never clears it, although it refers to the snapshot before that one. After a move
  and one uneventful backup the newest snapshot has lost the file (`StaleTargets.UnchangedAfterMoveIsLost`). If a new
  file of the same size has taken the old path, the newest snapshot restores the moved file with the *other* file's
  content, and the verification at the end of `AddSnapshot` reports nothing (`StaleTargets.ReplacedAfterMoveIsWrong`).
  Both runs exist (`RunsExist`). Three conditions on the last index and the source, all before the call, are exact:
  * everything is restored as it was if and only if every copied back-reference is usable, its path being in the last
    index with the hash of the node (`SnapshotChain.RestoreExactly`);
  * every `AddSnapshot` returns true if and only if every copied back-reference leads to some file or link of the last
    index (`ReturnValue.SuccessExactly`);
  * every `AddSnapshot` returns true and yet something is lost if and only if all of them lead to files or links and one
    to another hash (`ReturnValue.SilentLossExactly`).

  When `BackupNodeMetadata` clears the field (variant `TargetCleared`), everything is restored and every call returns
  true, without condition.
* **The volume size must be below 2^32.** `WriteBytes` casts `leftSize` to 32 bits
  (src/backupfilesystem/FlatVolumesFileSystem.cpp:175). Nothing unsafe happens for any size, but exactly when
  0 < volumeSize < 2^32 every undisturbed call finishes (`Progress.TerminationExactly`), every round under interference
  writes something (`Progress.ProgressExactly`), and no writer ever goes round more often than it was given bytes
  (`Interference.RoundsExactly`).
* **A change of permissions alone never reaches a snapshot.** Permissions are neither compared nor copied
  (src/indexing/FileSystemNodeAttributes.hpp:92-108); `SnapshotChain.PermissionsExactly` says which nodes keep old
  permissions, `StaleTargets.ChmodIsLost` is an instance.
* **`ownsBlocks` is not initialised** (src/backup/BackupNodeAttributes.hpp:112). The model lets it start as any value:
  it only survives for nodes without blocks, which are empty files and directories, and these count as having data in
  any case (`SnapshotChain.RereadKeepsData`).

## Model

| member | source | states |
|---|---|---|
| Blocks.BackupNodeAttributes.AddBlock | src/backup/BackupNodeAttributes.cpp:23-36 | the node owns its blocks, and the list is the one whose meaning the next three rows give |
| Blocks.RecordedMeaning | src/backup/BackupNodeAttributes.cpp:23-36 | merged or not, the content grows by exactly the bytes of the new block |
| Blocks.RecordedCoverage | src/backup/BackupNodeAttributes.cpp:26-35 | each byte of each volume is covered as often as before, and once more by the new block |
| Blocks.RecordedSize | src/backup/BackupNodeAttributes.cpp:31 | the sizes add up to the old sum plus the new block |
| Blocks.BackupNodeAttributes.ComputeSumOfBlockSizes | src/backup/BackupNodeAttributes.cpp:38-44 | the loop adds the sizes of all blocks |
| Blocks.ContentLength | src/backup/BackupNodeAttributes.cpp:38-44 | that sum is the length of the content that the blocks stand for |
| VolumePool.FirstOwned | src/backupfilesystem/FlatVolumesFileSystem.cpp:251-257 | the first open volume of a writer, or none |
| VolumePool.LastFree | src/backupfilesystem/FlatVolumesFileSystem.cpp:250-260 | the last open volume without owner, or none |
| VolumePool.FindStreamExactly | src/backupfilesystem/FlatVolumesFileSystem.cpp:246-289 | told by the open volumes alone: the writer's own volume, else the last one nobody owns, which then is the writer's, else a new empty one of full size |
| FlatVolumes.FlatVolumesFileSystem.FindStream | src/backupfilesystem/FlatVolumesFileSystem.cpp:246-289 | the search loop yields own, else last free, else new volume, and changes nothing else |
| FlatVolumes.FlatVolumesFileSystem.BytesWereWrittenToVolume | src/backupfilesystem/FlatVolumesFileSystem.cpp:209-226 | one block is recorded for the writer's node, its volume shrinks or leaves the pool; no other node changes |
| FlatVolumes.FlatVolumesFileSystem.CloseFile | src/backupfilesystem/FlatVolumesFileSystem.cpp:52-63 | the writer's volume becomes free, nothing else changes |
| FlatVolumes.FlatVolumesFileSystem.AppendFile | src/backupfilesystem/FlatVolumesFileSystem.cpp:176-177 | the offset is the old end of the file, and the data follows it |
| FlatVolumes.FlatVolumesFileSystem.WriteRound | src/backupfilesystem/FlatVolumesFileSystem.cpp:172-181 | one pass of the loop; the writer's node owns blocks afterwards |
| FlatVolumes.FlatVolumesFileSystem.WriteBytes | src/backupfilesystem/FlatVolumesFileSystem.cpp:167-183 | whenever the loop of an undisturbed call ends, the store is the one its passes lead to, and only the writer's node may have become an owner |
| Store.StepSound | src/backupfilesystem/FlatVolumesFileSystem.cpp:167-289 | every step of every writer keeps the invariant: owners, volume capacities with the window between write and record, and what each writer believes about its volume |
| StoreContents.StepStored | src/backupfilesystem/FlatVolumesFileSystem.cpp:167-226 | at every moment a writer's blocks hold what it was asked to write, less what its running call still has to record |
| StoreTheorems.RoundTrip | src/backupfilesystem/FlatVolumesFileSystem.cpp:167-289 | for every interleaving, the blocks of a writer between its calls hold exactly the bytes passed to it, in order; there are none only if there was nothing to write |
| StoreTheorems.Tiling | src/backupfilesystem/FlatVolumesFileSystem.cpp:167-226 | at every moment recorded blocks and windows partition the volume files, without overlap or gap |
| StoreTheorems.Conservation | src/backupfilesystem/FlatVolumesFileSystem.cpp:167-226 | with nothing in flight: sum of block sizes = sum of volume lengths = bytes passed to the store |
| StoreTheorems.Fragmentation | src/backupfilesystem/FlatVolumesFileSystem.cpp:209-289 | a node has at most one block per volume, and only its last block may end before the end of its volume |
| StoreTheorems.Capacity | src/backupfilesystem/FlatVolumesFileSystem.cpp:175-182 | no volume outgrows the volume size, whatever it is; a volume that left the pool is exactly full |
| StoreTheorems.PoolBound | src/backupfilesystem/FlatVolumesFileSystem.cpp:246-289 | a live writer owns at most one volume, the pool is never larger than the peak of live writers, and so volumes * size <= bytes + peak * size |
| StoreTheorems.DenseNumbering | src/backupfilesystem/FlatVolumesFileSystem.cpp:278 | between calls the blocks name exactly the volumes 0 to next number - 1 |
| StoreLayout.StepTidy | src/backupfilesystem/FlatVolumesFileSystem.cpp:209-289 | the normal form of fragmentation is kept by every step of every writer |
| Progress.RoundIsFourSteps | src/backupfilesystem/FlatVolumesFileSystem.cpp:170-182 | one pass of the loop is the four steps find, locate, append, record of the machine |
| Progress.TerminationExactly | src/backupfilesystem/FlatVolumesFileSystem.cpp:170-182 | every call that no other writer disturbs, from any reachable state, finishes if and only if 0 < volumeSize < 2^32 |
| Interference.RoundsExactly | src/backupfilesystem/FlatVolumesFileSystem.cpp:170-182 | termination under interference: in every interleaving each writer goes round at most as often as it was given bytes, if and only if 0 < volumeSize < 2^32 |
| Progress.ProgressExactly | src/backupfilesystem/FlatVolumesFileSystem.cpp:175 | under interference, no pass writes nothing if and only if 0 < volumeSize < 2^32 |
| Progress.RoundSizeExactly | src/backupfilesystem/FlatVolumesFileSystem.cpp:175-177 | in every interleaving and for any volume size a round writes the smaller of what is left and the room of the volume cut to 32 bits; with a practical size it finishes its call or fills the volume |
| Progress.WriteBytesStores | src/backupfilesystem/FlatVolumesFileSystem.cpp:167-183 | an undisturbed call that ends appends its bytes to the content of its own node and leaves the content of all others |
| BlockReader.VolumeReader.IncrementVolumeCounters | src/backupfilesystem/FlatVolumesFileSystem.cpp:291-300 | each volume gains one reference per block in it |
| BlockReader.VolumeReader.DecrementVolumeCount | src/backupfilesystem/FlatVolumesFileSystem.hpp:65-70 | one reference less, on an unsigned 64-bit counter |
| BlockReader.VolumeReader.LockVolumeStream | src/backupfilesystem/FlatVolumesFileSystem.cpp:302-314 | the volume's handle is open; the 16-bit handle count keeps counting the open handles |
| BlockReader.VolumeReader.CloseUnusedVolumes | src/backupfilesystem/FlatVolumesFileSystem.cpp:228-244 | exactly the handles without references are closed if more than 100 are counted, none otherwise |
| BlockReader.VolumeReader.ReadBytes | src/backupfilesystem/FlatVolumesFileSystem.cpp:148-165 | returns the bytes at that place of the volume file; afterwards at most 101 handles are open or none but its own is open without need; while at most 100 are open none is closed, and no other is opened |
| HandleCache.ReadLimitsHandles | src/backupfilesystem/FlatVolumesFileSystem.cpp:228-244 | the same of the handles alone: a needed handle is never closed, the handle read through is open |
| HandleCache.DecrementedExactly | src/backupfilesystem/FlatVolumesFileSystem.hpp:65-70 | one reference less in this volume, wrapping round at 0, and the others as before |
| BlockReader.FlatVolumesBlockInputStream.ReadBytes | src/backupfilesystem/FlatVolumesBlockInputStream.cpp:33-60 | for any block list, also with empty blocks: terminates, returns the next bytes of the concatenated blocks, fewer only at the end, releases exactly the blocks it passed, and takes the handle cache through sweeps, uses and passes of this stream |
| CacheRefinement.OpeningSteps | src/backupfilesystem/FlatVolumesFileSystem.cpp:106-111 | opening a stream and counting its blocks is a run of the handle cache's machine |
| CacheRefinement.ReadSteps | src/backupfilesystem/FlatVolumesFileSystem.cpp:148-165 | reading from a block is a sweep and, unless nothing is read, the use of its handle; no use comes without a sweep right before it |
| CacheRefinement.PassSteps | src/backupfilesystem/FlatVolumesBlockInputStream.cpp:42-49 | leaving a block is one step of the machine |
| BlockReader.FlatVolumesBlockInputStream.LeaveBlock | src/backupfilesystem/FlatVolumesBlockInputStream.cpp:42-49 | leaving a block loses no byte and gives back its one reference |
| BlockReader.FlatVolumesBlockInputStream.ReadFromBlock | src/backupfilesystem/FlatVolumesBlockInputStream.cpp:50-56 | reads as many of the wanted bytes as the block still has; the clamp to 32 bits loses none |
| BlockReader.FlatVolumesBlockInputStream.constructor | src/backupfilesystem/FlatVolumesFileSystem.cpp:106-111 | a stream over counted blocks starts at their whole content |
| BlockReader.DecrementReleases | src/backupfilesystem/FlatVolumesFileSystem.hpp:65-70 | giving back a counted block never underflows |
| HandleCacheRuns.CacheInvariant | src/backupfilesystem/FlatVolumesFileSystem.cpp:228-314 | for any streams in any interleaving, with sweeps that look at one volume at a time: a volume's counter is the number of pending blocks in it, the handle count is exact below 2^16 volumes, and the volume of a stream's current block is protected |
| HandleCacheRuns.SweepIsItsLooks | src/backupfilesystem/FlatVolumesFileSystem.cpp:232-243 | the undisturbed sweep is the sequence of its looks at all volumes |
| HandleCacheRuns.SweepBound | src/backupfilesystem/FlatVolumesFileSystem.cpp:228-244 | after an undisturbed sweep at most 100 handles are open or all open ones are needed; no needed handle was closed |
| ReadBack.CountVolumes | src/backupfilesystem/FlatVolumesFileSystem.cpp:38-47 | the constructor counts the distinct volume numbers over all blocks |
| ReadBack.ReaderArrayLargeEnough | src/backupfilesystem/FlatVolumesFileSystem.cpp:38-47 | whatever back-references the index holds besides, the array has an entry for every volume of the store |
| ReadBack.ReadNode | src/backupfilesystem/FlatVolumesFileSystem.cpp:106-183 | for every interleaving of writers and any read counts: what is read is what was written |
| SnapshotVolumes.OwnedBlocksAddressable | src/backupfilesystem/FlatVolumesFileSystem.cpp:38-47 | after re-reading, the reader's array is in range for every block that the snapshot owns |
| SnapshotVolumes.OwnedIsStored | src/backup/BackupNodeIndex.cpp:151-164 | conservation in every finished snapshot: the sum over owning nodes is the total length of its volume files |
| Nodes.GenerateHashIndex | src/backup/BackupNodeIndex.cpp:328-338 | the loop builds the hash index, later nodes replacing earlier ones |
| Nodes.HashIndexExact | src/backup/BackupNodeIndex.cpp:166-171 | a lookup finds a node with the hash exactly when there is one, and then the last |
| Nodes.ComputeSumOfOwnedBlockSizes | src/backup/BackupNodeIndex.cpp:151-164 | the sum over the nodes that own their blocks |
| Difference.ComputeDifference | src/NodeIndexDifferenceResolver.cpp:65-112 | in any order of the pool's threads: the nodes without equal counterpart |
| Difference.ComputeDeleted | src/NodeIndexDifferenceResolver.cpp:35-63 | the nodes whose path is missing on the right |
| Difference.ComputeNodeDifferences | src/NodeIndexDifferenceResolver.cpp:114-164 | in any order: new data, metadata only and moved, as defined outright |
| Difference.ResolveDifferences | src/NodeIndexDifferenceResolver.cpp:166-184 | the four sets, where sources of moves are not deleted |
| Difference.ComputeDiff | src/NodeIndexDifferenceResolver.cpp:27-32 | the result is the same for all schedules of its three rounds |
| Difference.UpdateDefault | src/backup/SnapshotManager.cpp:148-156 | every node not mentioned becomes metadata only |
| Difference.NoDifferenceExactly | src/NodeIndexDifferenceResolver.hpp:47-51 | no difference exists exactly when both indexes list the same entries of path, type, size and time |
| Difference.DifferencesExactly | src/NodeIndexDifferenceResolver.cpp:65-184 | the four sets, told by paths, facts and hashes alone: backed up is what has no equal entry and is a directory or of a new hash; metadata only, what has its hash last at its own path; moved, what has it elsewhere; deleted, what lost its path and is the source of no move |
| Difference.DefaultExactly | src/backup/SnapshotManager.cpp:148-156 | carried over is what has an equal entry or its hash last at its own path; the other sets stay |
| Difference.DefaultPartition | src/backup/SnapshotManager.cpp:47-70 | each source node is treated exactly once; metadata-only nodes have a predecessor at their path, moved ones one elsewhere with their hash |
| SnapshotManager.PlanIsTreatment | src/backup/SnapshotManager.cpp:141-165 | the computed sets put each node where the run model treats it |
| SnapshotChain.TreatmentExactly | src/backup/SnapshotManager.cpp:141-165 | what the run model does with a node, told by paths, facts and hashes alone; in the first snapshot everything is backed up |
| SnapshotManager.Manager.ComputeDifference | src/backup/SnapshotManager.cpp:141-165 | with a last snapshot the comparison, without one everything is new |
| SnapshotManager.Manager.BuildAttributes | src/backup/Snapshot.cpp:72-165 | the three ways of adding a node give the attributes that the run model states |
| SnapshotManager.Manager.FillIndex | src/backup/SnapshotManager.cpp:47-72 | in any order of additions the new index holds each source path exactly once, with those attributes |
| SnapshotManager.Manager.WriteAndReread | src/backup/SnapshotManager.cpp:78-89 | writing the index and reading it again gives the re-read nodes in the same order |
| SnapshotManager.Manager.CreateSnapshot | src/backup/SnapshotManager.cpp:38-89 | the re-read snapshot is a step of the run model and differs from its source in nothing |
| SnapshotManager.Manager.CheckSnapshot | src/backup/SnapshotManager.cpp:91-95 | the comparison never throws; the verification tells which data is missing or corrupt |
| SnapshotManager.Manager.CloseAndReadIn | src/backup/SnapshotManager.cpp:85-89 | forgetting all snapshots and reading the directory gives the old chain and the new snapshot at its end |
| SnapshotManager.Manager.AddSnapshot | src/backup/SnapshotManager.cpp:33-96 | re-reads the old chain followed by the new snapshot, extends every run of the model by one step, and returns true exactly when no data is missing and nothing fails full verification |
| SnapshotManager.Manager.FindDataSnapshot | src/backup/Snapshot.cpp:167-182 | walking the links to previous snapshots ends where the data is, or nowhere, as the run model says |
| SnapshotManager.Manager.RestoreFile | src/backup/Snapshot.cpp:231-245 | restoring a file along these links gives what the run model restores |
| SnapshotChain.NewNodeRecorded | src/backup/Snapshot.cpp:84-154 | a node backed up with its data can be read back from its own snapshot as the source content |
| NewIndex.NewFileExactly | src/backup/Snapshot.cpp:84-154 | every field of a new file or link in the re-read index: among them, it is compressed exactly when it is a non-empty file of rate at most 0.9 or a link of more than 100 bytes, and uncompressed its blocks add up to its size |
| NewIndex.NewFileHolds | src/backup/Snapshot.cpp:99-144 | its blocks hold its content, as it is or compressed at the level for the rate of its extension, for a link at that for 0 |
| NewIndex.NewDirectoryExactly | src/backup/Snapshot.cpp:84-119 | a new directory has neither blocks nor hashes |
| NewIndex.CopiedExactly | src/backup/Snapshot.cpp:72-82 | every field of a moved or carried node in the re-read index: facts are new, nothing is owned, the rest is as before, and the back-reference is the old path of a moved one |
| NewIndex.LearningExactly | src/backup/Snapshot.cpp:101-150 | the statistics learn exactly from the files that are compressed |
| SnapshotChain.Origin | src/NodeIndexDifferenceResolver.cpp:139-152 | a carried or moved file comes from a file of the previous source with the same content and size |
| SnapshotChain.NextRecorded | src/backup/SnapshotManager.cpp:38-89 | every new snapshot records its source: facts, hashes, and content where it owns blocks |
| SnapshotChain.AddedAgrees | src/backup/SnapshotManager.cpp:86-91 | the re-read index has exactly the source's paths with equal type, size and time |
| SnapshotChain.NoDifferenceRemains | src/backup/SnapshotManager.cpp:201-206 | so the check at the end of AddSnapshot passes |
| SnapshotChain.PermissionsExactly | src/backup/Snapshot.cpp:156-165 | the new index has the source's permissions exactly for new nodes and for copied ones whose old permissions are the same |
| SnapshotChain.NodeFaithfulExactly | src/backup/Snapshot.cpp:156-182 | one step: a node is restored with its content if and only if the back-reference copied for it is usable, or is cleared |
| SnapshotChain.RestoreExactly | src/backup/Snapshot.cpp:72-182 | for all runs: every file and link of every snapshot, old ones included, is found and restored as it was if and only if no stale back-reference was copied; always, if they are cleared |
| SnapshotChain.RereadKeepsData | src/backup/BackupNodeIndex.hpp:57-61 | in every run, writing and re-reading keeps which nodes have data |
| SnapshotChain.RereadKeepsFindData | src/backup/Snapshot.cpp:167-182 | in every run FindDataSnapshot answers alike for every path, whether any of the indexes is the one in memory or the re-read one |
| SnapshotChain.RunGrows | src/backup/SnapshotManager.cpp:33-96 | a step added to a run gives a run |
| Verification.VerifySnapshot | src/backup/SnapshotManager.cpp:98-138 | in any order of the threads: exactly the failing nodes, or an exception exactly when some data is missing |
| Verification.VerifyAllSnapshots | src/commands/VerifySnapshot.cpp:48-68 | exactly the snapshots that fail locally; damage in the volumes of one snapshot alone is reported for that one alone; if all nodes resolve, none is listed exactly when every snapshot passes in full |
| Verification.FindDataIdempotent | src/backup/Snapshot.cpp:167-182 | looking again from where data was found finds it there |
| Verification.FindDataExactly | src/backup/Snapshot.cpp:167-182 | the walk stops at a node that owns its blocks or is empty, else goes on at the back-reference or the same path |
| Verification.FailsExactly | src/backup/SnapshotManager.cpp:110-132 | full verification blames exactly the files and links whose data is found but unreadable, of wrong size or of wrong hash; local verification of these those whose data is in the snapshot itself |
| Verification.LocalIsLocal | src/backup/SnapshotManager.cpp:119 | what local verification says of a snapshot depends on its own volumes alone |
| Verification.RestoredExactly | src/backup/Snapshot.cpp:231-245 | restoring gives data exactly when it is found with the recorded hash and has the size of the restored node |
| Verification.LocalCoversFull | src/backup/SnapshotManager.cpp:118-121 | what full verification of a snapshot finds, local verification of some snapshot finds |
| Verification.VerifyAllExactly | src/commands/VerifySnapshot.cpp:48-56 | if every node resolves: all snapshots pass locally exactly when all pass in full |
| Verification.VerifyAllSuffices | src/commands/VerifySnapshot.cpp:48-56 | the same for every safe run, whatever happened to the volume files since |
| Verification.FaithfulPasses | src/backup/SnapshotManager.cpp:93-95 | a snapshot that restores faithfully passes its full verification |
| ReturnValue.SucceedsIfResolved | src/backup/SnapshotManager.cpp:93-95 | while the volumes are undamaged, full verification succeeds exactly when every file and link leads to a file or link with data |
| ReturnValue.NodeLeadsExactly | src/backup/Snapshot.cpp:156-182 | one step: a file or link of the new snapshot leads to data if and only if the back-reference copied for it is present, or is cleared |
| ReturnValue.SuccessExactly | src/backup/SnapshotManager.cpp:33-96 | for all runs: every AddSnapshot returns true if and only if every copied back-reference leads to some file or link of the last index; always, if they are cleared, and whenever all are usable |
| ReturnValue.SilentLossExactly | src/backup/SnapshotManager.cpp:33-96 | for all runs: every AddSnapshot returns true and yet some file or link is not restored as it was, if and only if all copied back-references lead to files or links and one to another hash |
| Verification.PassingRestores | src/backup/Snapshot.cpp:231-245 | where full verification passes, also on damaged volumes, restoring gives the source content unless the data read collides with it under the hash |
| StaleTargets.UnchangedAfterMoveIsLost | src/backup/Snapshot.cpp:156-182 | in every run "move, then nothing" the third snapshot has lost the file |
| StaleTargets.ReplacedAfterMoveIsWrong | src/backup/Snapshot.cpp:156-182 | in every run "move and replace, then nothing" the third snapshot restores the wrong content and verification passes |
| StaleTargets.ChmodIsLost | src/indexing/FileSystemNodeAttributes.hpp:92-108 | a change of permissions alone is not in the next snapshot |
| RunsExist.BackupCanEnd | src/backup/SnapshotManager.cpp:46-73 | for every valid source, last index and volume size below 2^32 the writers of a backup can all end, whatever rates and flags they meet |
| RunsExist.CanAdd | src/backup/SnapshotManager.cpp:72-89 | once the writers have ended, the index can be filled and the snapshot exists |
| RunsExist.RunExists | src/backup/SnapshotManager.cpp:33-96 | any valid sources can be backed up one after the other |
| RunsExist.MovedAwayRunExists | src/backup/SnapshotManager.cpp:33-96 | the first harmful run exists |
| RunsExist.ReplacedRunExists | src/backup/SnapshotManager.cpp:33-96 | the second harmful run exists |
| IndexArchive.NodeRoundTrip | src/backup/BackupNodeIndex.cpp:263-401 | parsing a printed node gives it back, except that without blocks its ownership, back-reference and compression are lost |
| IndexArchive.OwnershipRoundTrip | src/backup/BackupNodeIndex.cpp:213-239 | the blocks with their three attributes come back |
| IndexArchive.HashesRoundTrip | src/backup/BackupNodeIndex.cpp:241-261 | the hashes come back |
| IndexArchive.FactsRoundTrip | src/backup/BackupNodeIndex.cpp:263-287 | type, optional time and size come back, and size 0 for directories |
| IndexArchive.PermissionsRoundTrip | src/backup/BackupNodeIndex.cpp:302-326 | the permissions come back |
| IndexArchive.NodeIsWritten | src/backup/BackupNodeIndex.cpp:373-401 | what the file says of a node, element by element, with the names of the elements |
| IndexArchive.BlocksAreWritten | src/backup/BackupNodeIndex.cpp:59-71 | each block in order with its volume number, offset and size |
| IndexArchive.OwnershipIsWritten | src/backup/BackupNodeIndex.cpp:340-358 | the blocks with owned, owner and compression |
| IndexArchive.HashIsWritten | src/backup/BackupNodeIndex.cpp:360-371 | every hash under the name of its algorithm |
| IndexArchive.PermissionsAreWritten | src/backup/BackupNodeIndex.cpp:403-417 | owner, group and mode in this order |
| IndexArchive.NodeIsRead | src/backup/BackupNodeIndex.cpp:263-300 | what any accepted element says of its node, with the defaults for missing parts |
| BackupIndex.PrintedIsAcceptable | src/backup/BackupNodeIndex.cpp:121-136 | the document of an index is accepted and yields its nodes in order |
| BackupIndex.BackupNodeIndex.AddNode | src/indexing/FileSystemNodeIndex.hpp:48-55 | the node is appended under its absolute path, and the path map stays a bijection |
| BackupIndex.BackupNodeIndex.GetNodeIndex | src/indexing/FileSystemNodeIndex.hpp:64-83 | the path map answers as a search of the nodes would |
| BackupIndex.BackupNodeIndex.Serialize | src/backup/BackupNodeIndex.cpp:185-197 | writes the document of all nodes in order |
| BackupIndex.BackupNodeIndex.Deserialize | src/backup/BackupNodeIndex.cpp:121-136 | accepts exactly documents of nodes with distinct paths, undoes Serialize up to what a node without blocks loses, and builds the hash index |
| SnapshotNames.NamesOrdered | src/backup/Snapshot.cpp:46-52 | of two snapshots a second or more apart the later has the later file name |
| SnapshotNames.NameExactly | src/backup/Snapshot.cpp:48-50 | the name written out: date and time with leading zeros and their separators |
| SnapshotNames.DigitsExactly | src/backup/Snapshot.cpp:50 | the digits stand for the number, in exactly the given width |
| SnapshotNames.IndexFileExactly | src/backup/Snapshot.hpp:109-123 | the index file is the name with .xml.lzma |
| SnapshotNames.ExtensionExactly | src/backup/Snapshot.cpp:328 | the extension is what follows the last dot |
| SnapshotNames.ChainOrder | src/backup/Snapshot.cpp:325-358 | sorting any directory and keeping the index files gives the order of creation |
| SnapshotNames.ReadFiles | src/backup/SnapshotManager.cpp:183-199 | the loop loads the index files in order and links each to the one right before it |
| SnapshotNames.ReadInSnapshots | src/backup/SnapshotManager.cpp:167-199 | so each snapshot's predecessor is the one it was compared with |
| SnapshotNames.LoadedAfterWrite | src/backup/SnapshotManager.cpp:85-89 | a new index file adds its snapshot at the end and leaves what is read for all others |
| CompressionStatistics.Statistics.AddCompressionRateSample | src/config/CompressionStatistics.cpp:50-58 | the new rate is the mean of the old one and the clamped sample |
| CompressionStatistics.Statistics.GetCompressionRate | src/config/CompressionStatistics.cpp:70-79 | the stored rate; unknown extensions enter with 0 |
| CompressionStatistics.LevelBounds | src/config/CompressionStatistics.cpp:60-68 | the level is between 0 and the configured maximum (and 9) and never rises with the rate |
| CompressionStatistics.LevelExactly | src/config/CompressionStatistics.cpp:60-68 | the level is the whole number nearest to (max + 1) * (1 - rate), less one, within 0 and 9; at rate 0 it is the maximum |
| CompressionStatistics.LearnedExactly | src/config/CompressionStatistics.cpp:50-58 | a sample moves the rate of its extension half the way and no other; samples outside 0 to 1 count as the nearest bound |
| CompressionStatistics.RatesStayRates | src/config/CompressionStatistics.cpp:50-79 | stored rates stay between 0 and 1 over all runs |
| CompressionStatistics.GivenUpForever | src/backup/Snapshot.cpp:101-150 | an extension whose rate is above 0.9, with no compressing file of it under way, keeps that rate forever |

## Left out

- The library beneath: XML, JSON and CSV text, LZMA, hash functions, dates, file streams and the thread pool are trees, functions with the named hypotheses, byte sequences, and atomic steps in any order.
- BlockReader.VolumeReader.ReadBytes: does not model short reads of a volume file; the loop does not advance `offset` between rounds (src/backupfilesystem/FlatVolumesFileSystem.cpp:153-162), so a short read would repeat bytes. Reads inside a file are taken as complete.
- FlatVolumes.FlatVolumesFileSystem.AppendFile: does not model short writes; a file write writes everything it is given. The same holds for `WriteRound` and `WriteBytes` above it.
- FlatVolumes.FlatVolumesFileSystem.WriteBytes: as a method it is one undisturbed call; calls among other writers are the runs of `Store`.
- Progress.TerminationExactly: about undisturbed calls; among other writers the count of `Interference.RoundsExactly` takes its place.
- Progress.WriteBytesStores: about undisturbed calls; among other writers `StoreTheorems.RoundTrip` takes its place.
- Unsigned widths: block offsets, sizes, sums and volume numbers are unbounded; the 32-bit cast of `leftSize`, its 64-bit subtraction, the 64-bit reference counters, the 16-bit handle count and the 32-bit clamp of read sizes are modelled.
- Writers are named by the index of their node, one writer per node, as `BackupNode` creates them; the reuse of a closed stream's address is therefore not modelled.
- BackupNodeIndex::AddBlock by path: the store reaches a node's attributes by its index.
- HandleCacheRuns.SweepBound: is about a sweep that no opening of a handle interrupts, as the bound of 100 needs it; interrupted sweeps are in `CacheInvariant`.
- SnapshotManager.Manager.BuildAttributes: what reading, compressing, hashing and writing yielded comes from the outcome of the backup, as does all writing in `CreateSnapshot`.
- SnapshotManager.Manager.FillIndex: adds complete attributes; the program adds the object of a node first and fills it afterwards.
- SnapshotManager.Manager.WriteAndReread: does not model the hash file of an index and its check; an index file is taken as read back unchanged.
- SnapshotNames.ReadFiles: does not model the hash check of each index file either, nor does `ReadInSnapshots`.
- SnapshotNames.ReadInSnapshots: years have four digits and creation times differ by a second or more; two snapshots within one second would share a name.
- BackupIndex.BackupNodeIndex.AddNode: is for new paths only; what adding a path twice does is up to the library's bijective map, which is not part of this model. Every caller adds distinct paths, or fails here as a document with a repeated path does.
- BackupIndex.BackupNodeIndex.Deserialize: does not build the table of children, which only the listing of directories uses (src/backupfilesystem/FlatVolumesDirectory.cpp:38-47).
- Verification.VerifySnapshot: counts a directory reached through a stale back-reference as failing; the program asks it for a hash that is not there. In both cases `AddSnapshot` does not return true.
- CompressionStatistics.LevelBounds: rates are real numbers, not 32-bit floats, here and in the other members of this module. Which rates the threads of a backup meet is left open: any rates are allowed.
- Restoring links: the program ends in the unimplemented `ReadLinkTarget`; stated is the content of the link's stream. Creation of directories and setting of permissions on restore are not modelled.
- Progress reporting, including the size lookup by a wrong index at src/NodeIndexDifferenceResolver.cpp:50, which changes no result.
- Walking the operating system's directories, filters, write protection, configuration files, commands other than verifying all snapshots, the viewer, and members that are not implemented.
