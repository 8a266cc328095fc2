# LevelDB, modelled and proved

A Dafny model of the storage engine under `macos/leveldb-library-src` (LevelDB 1.22): how writes are grouped,
logged and inserted, how memtables become tables and tables become levels, how readers and iterators find the
newest version of a key, how files are laid out byte by byte, and how the database comes back after a crash.
Each part is modelled in the form the source gives it: objects with fields that their methods change, loops
where the source loops, and functions where it computes. Whole runs are state machines whose steps the objects
are proved to take.

## The main results

- **Reads.** In every state of every run of writes, memtable switches, flushes, trivial moves, compactions,
  snapshot and log housekeeping and crashes with recovery, a read at a live snapshot or at the present returns
  exactly the newest acknowledged write not newer than it (`Recovery.EveryRunReadsItsHistory`, and
  `Engine.DBImpl` for the object that takes these steps), and an iterator walks exactly the keys that such
  reads find (`DatabaseIterators.EveryRunIteratesItsHistory`).
- **Compaction.** The drop rule is invisible to every reader exactly when no dropped tombstone uncovers a
  value (`DropRule.DropRuleIsInvisibleIff`). The code closes the inputs of the level but not those of the next
  level, so this can fail: `DeletedValue` is a run of twelve steps from an empty database after which one more
  compaction brings a deleted value back. `BoundaryGap` has the exact condition under which this happens and a
  condition on the bounds of the files that rules it out. Compaction steps of the machine carry the former
  (`Machine.NothingResurrected`); the latter alone is enough for every run
  (`BoundaryGap.SeparatedRunsReadTheirHistory`).
- **Background work.** One round compacts exactly what is due, and nothing if and only if nothing is: a manual
  range first, then a full level from its compaction pointer on, then a file with too many seeks
  (`Engine.DBImpl.BackgroundCompaction`, `Picking`).
- **Group commit.** In every interleaving of writers, leader, log, disk and readers, acknowledged batches are
  applied exactly once, in queue order, at consecutive sequences; readers see whole batches only; sync writes
  are on disk when acknowledged; failed ones leave nothing (`WriteQueueSteps`, `GroupCommit`). Publishing a
  group is one write step of the engine with the writes of the whole group, so that reads of the engine find
  the newest of the writers' batches (`EngineWrites`).
- **Obsolete files.** In every run the tables of every version that anyone holds stay on disk, and so does a
  table that is built but not yet listed; the one-background-call rule is what protects the latter
  (`ObsoleteFiles`, `VersionLists`). A compaction leaves on disk what listed versions have and nothing else,
  and after an error nothing is deleted any more (`FileLifetimes`).
- **Iterators.** Merging, two-level and database iterator equal plain cursors over the sorted union, the
  concatenation and the visible view for every mix of calls in both directions (`Merger`, `TwoLevel`,
  `DbIter`).
- **Skip list and cache.** The skip list is sound after every single link store and right for readers that run
  in between (`SkipList`); hash table, lists, counts and charges of the LRU cache agree with one another
  through every operation, and each operation says what it does to the map from keys to handles that the cache
  stands for (`HandleTable`, `LruCache`).
- **Bytes.** From the pairs handed to the table builder through prefix-compressed blocks, shortened index
  keys, Bloom filters, checksums and footer to a point lookup on the bytes of the file (`Tables.BuildAndGet`);
  logs and manifests cut anywhere (`LogReader`, `Manifest`), up to the files of the version that a manifest
  rebuilds (`VersionRecovery`); the striped checksum (`Crc32c`).

## How the parts fit

`InternalKeys`, `Versions`, `Inputs`, `DropRule`, `Compactions`, `Builder`, `Installs`, `CompactionInstalls` and
`Store` build up to the state machine of the engine (`Machine`, `MachineSteps`, `Recovery`, `BoundaryGap`,
`DeletedValue`) and to the object that takes its steps (`Engine`, with `Picking`, `InputIterators`, `Outputs`,
`Reopen`). `Iterators` is the plain cursor that the iterators are measured against, and `DatabaseIterators` puts
them together over the whole database. `WriteBatches`, `WriteQueue`, `WriteQueueSteps` and `GroupCommit` are the
write path below the engine's single write step, and `ObsoleteFiles` with `FileLifetimes` and `VersionLists`
what the engine's current version rests on. Writes, version edits and lookups exist in two views, one on bytes
and one on keys and files; `EngineWrites` and `VersionRecovery` relate them for writes and edits. `Octets`,
`Coding`, `Varints`, `Comparators`, `Crc32c`, the `Log*`, `Block*`, `Filter*`, `Table*`, `VersionEdits`,
`Manifest` and `MemTables` modules work on bytes, and `KnownBytes` has samples of each format byte for byte. The
engine's modules need user keys only through their order and use integers for them, since any finite set of keys
of a total order embeds into the integers; the byte modules use byte strings in bytewise order.

Hypotheses that the code needs and does not check stand in the contracts: no dropped tombstone uncovers a value
(`NothingResurrected`); flush and compaction are single steps against the version they are installed on;
sequences stay below the largest one, where the drop rule's marker for "no version seen" would be taken for a
real sequence; table files stay below 4 GB, which 32-bit offsets inside blocks require.

Where comments and code differ, the model follows the code. `VersionEdit::Clear` leaves the compaction pointers,
so an edit object decodes right only if it had none (`VersionEdits.UsedEditDecodesWrong`); `DecodeEntry` of a
block promises not to read past its end, but adds two lengths in 32 bits, so an accepted entry ends inside its
block if and only if the lengths add up without wrapping around (`BlockIters.AcceptedIsInside`, with eight bytes
that do not in `BlockIters.WrappedSumLeavesTheBlock`); `DBImpl::Write` publishes the sequences of a failed batch
all the same (`WriteQueueSteps.FailedLeavesNothing`).

## Model

| member | source | states |
|---|---|---|
| InternalKeys.LessIsStrictTotalOrder | macos/leveldb-library-src/db/dbformat.cc:51-67 | internal key order (user key up, sequence and kind down) is a strict total order |
| InternalKeys.LookupKeySplitsVersions | macos/leveldb-library-src/db/dbformat.cc:121-138 | the lookup key of a sequence stands exactly between the versions that are too new and the visible ones |
| InternalKeys.RunGetFindsNewest | macos/leveldb-library-src/db/memtable.cc:100-133 | seeking to the lookup key in a sorted run answers with the newest visible version of the user key, or with nothing if there is none |
| InternalKeys.FirstAnswerWins | macos/leveldb-library-src/db/db_impl.cc:1125-1135 | asking newer data first and older data only when that is silent answers for both together |
| InternalKeys.AnswerIsUnique | macos/leveldb-library-src/db/memtable.cc:100-133 | where no two entries share a sequence there is one right answer |
| Versions.FindFile | macos/leveldb-library-src/db/version_set.cc:88-106 | the binary search returns the first file whose largest key is not before the key, for every ascending file list |
| Versions.SomeFileOverlapsRange | macos/leveldb-library-src/db/version_set.cc:122-157 | true if and only if some file overlaps the range, by scan for overlapping files and by binary search for disjoint ones |
| Versions.GetOverlappingInputs | macos/leveldb-library-src/db/version_set.cc:519-559 | terminates for every file list although it starts over; at level 0 it returns the files of the least range that holds the request and is closed under overlap, elsewhere those that overlap the request |
| Versions.PickFiles | macos/leveldb-library-src/db/version_set.cc:337-377 | the files a read opens: at level 0 all around the key, newest first; elsewhere the single file the search finds |
| Versions.Get | macos/leveldb-library-src/db/version_set.cc:326-421 | reads level by level and file by file, stopping at the first file that knows the key |
| Versions.SearchOrderIsAgeOrder | macos/leveldb-library-src/db/version_set.cc:343-357 | newest file number first is newest data first |
| Versions.OverlapFilterKeepsVisible | macos/leveldb-library-src/db/version_set.cc:345-351 | files that do not overlap a key hold no visible version of it |
| Versions.LevelZeroGetFindsNewest | macos/leveldb-library-src/db/version_set.cc:343-358 | the level-0 read finds the newest visible version among all level-0 files |
| Versions.SortedLevelGetFindsNewest | macos/leveldb-library-src/db/version_set.cc:359-377 | the read of a sorted level finds its newest visible version in the one file it opens |
| Versions.VersionGetFindsNewest | macos/leveldb-library-src/db/version_set.cc:326-421 | the read of a version finds the newest visible version among all entries of all its levels |
| Inputs.GetRange | macos/leveldb-library-src/db/version_set.cc:1205-1227 | the least smallest and the greatest largest key of the inputs |
| Inputs.FindLargestKey | macos/leveldb-library-src/db/version_set.cc:1326-1340 | the greatest largest key of a file list, none for an empty list |
| Inputs.FindSmallestBoundaryFile | macos/leveldb-library-src/db/version_set.cc:1344-1363 | the file with the smallest smallest key that goes on with the versions of the user key at which a key ends |
| Inputs.AddBoundaryInputs | macos/leveldb-library-src/db/version_set.cc:1378-1401 | adds the whole chain of files that continue, one after the other, the versions of the last user key |
| Inputs.OverlapFilterIsSlice | macos/leveldb-library-src/db/version_set.cc:519-559 | in a sorted level the files overlapping a range are neighbours |
| Inputs.PickLevelForMemTableOutput | macos/leveldb-library-src/db/version_set.cc:491-517 | 0 if the range overlaps level 0, level 1 or too much of level 2; else 1 if it overlaps level 2 or too much of level 3; else 2 |
| Compactions.ExpandInputs | macos/leveldb-library-src/db/version_set.cc:1425-1453 | the inputs become all files of the level that overlap the whole range, closed again, if and only if these are more files, below 25 file sizes together with the level + 1 inputs, and overlap as many files there as before; the level + 1 inputs stay as they were |
| Compactions.CloseInputs | macos/leveldb-library-src/db/version_set.cc:1403-1453 | from any start set the inputs become closed: no file left at the level continues or overlaps them, and the level + 1 inputs are all files overlapping their range; beyond the boundary files they grow only by the expansion step, and only where there are level + 1 inputs |
| Compactions.Compaction.SetupOtherInputs | macos/leveldb-library-src/db/version_set.cc:1403-1462 | turns the start set of a compaction into closed inputs that contain it; the grandparents are the files two levels down that overlap the range of all inputs |
| Compactions.BoundaryCloses | macos/leveldb-library-src/db/version_set.cc:1378-1411 | boundary files turn any start set into one that is closed at its level |
| Compactions.CoversInputs | macos/leveldb-library-src/db/version_set.cc:1425-1431 | gathering the level by the range of all inputs gives a start set that contains the inputs |
| Compactions.Compaction.AdvanceCursor | macos/leveldb-library-src/db/version_set.cc:1536-1549 | one cursor: after moving up it says whether a file of the level covers the user key |
| Compactions.Compaction.IsBaseLevelForKey | macos/leveldb-library-src/db/version_set.cc:1533-1552 | for keys arriving in order the moving cursors give the answer of a full scan of all levels from level + 2 down |
| Compactions.Compaction.ShouldDrop | macos/leveldb-library-src/db/db_impl.cc:930-963 | the decision for an entry depends only on its predecessor, the oldest snapshot and the deeper levels, as the rule says; at the largest sequence, which the code uses as its marker, also the first version of a key is dropped |
| Compactions.Compaction.HandleEntry | macos/leveldb-library-src/db/db_impl.cc:922-990 | one entry is dropped or appended, and state and cursors are ready for the next |
| Compactions.Compaction.DoCompactionWork | macos/leveldb-library-src/db/db_impl.cc:878-1040 | reading the merging iterator to its end, the output files hold exactly the entries the rule keeps, in order, wherever files are cut |
| DropRule.SurvivorsAre | macos/leveldb-library-src/db/db_impl.cc:930-963 | what a compaction keeps are the entries of its input that are neither hidden by a newer version below the oldest snapshot nor obsolete tombstones |
| DropRule.ReadOfAnswer | macos/leveldb-library-src/db/db_impl.cc:1125-1135 | a client reads the value of the newest visible version, and nothing for a tombstone |
| DropRule.AfterTombstone | macos/leveldb-library-src/db/db_impl.cc:940-955 | once the newest visible version, a tombstone, is dropped, what is left to see is what was left of the key outside the inputs |
| DropRule.DroppingKeepsRead | macos/leveldb-library-src/db/db_impl.cc:930-963 | if no dropped tombstone uncovers a value, every read at the oldest snapshot or later stays the same |
| DropRule.DropRuleIsInvisibleIff | macos/leveldb-library-src/db/db_impl.cc:930-963 | dropping is invisible to every such read if and only if no dropped tombstone uncovers a value |
| BoundaryGap.OlderLeftover | macos/leveldb-library-src/db/version_set.cc:1407-1411 | an older version that stays behind under a droppable tombstone can only be in a level + 1 file outside the inputs |
| BoundaryGap.ResurrectsFromNextLevel | macos/leveldb-library-src/db/version_set.cc:1407-1411 | exactly when dropping brings a value back: the tombstone is droppable, newest at the oldest snapshot, and the level + 1 files left out hold a value under it |
| BoundaryGap.SeparationIsEnough | macos/leveldb-library-src/db/version_set.cc:1407-1411 | if no level + 1 file outside the inputs goes on with a user key of the level + 1 inputs, nothing comes back |
| BoundaryGap.ReadAfterMerge | macos/leveldb-library-src/db/db_impl.cc:940-955 | after such a merge the key reads as what was left behind |
| BoundaryGap.SeparatedRunsReadTheirHistory | macos/leveldb-library-src/db/version_set.cc:1407-1411 | in every run whose compactions are only asked to keep the left-out level + 1 files apart by their bounds, every live reader reads its history |
| DeletedValue.RunIsRun | macos/leveldb-library-src/db/db_impl.cc:696-777 | twelve steps from an empty database: writes, snapshot, flushes, a compaction that splits the versions of a key, release |
| DeletedValue.DeletedValueComesBack | macos/leveldb-library-src/db/version_set.cc:1407-1411 | after that run the key reads as deleted; a compaction with inputs closed as the code closes them leads to a state that reads its old value again |
| Builder.SaveTo | macos/leveldb-library-src/db/version_set.cc:697-733 | merges base and added files in order and leaves the deleted ones out |
| Builder.SavedIs | macos/leveldb-library-src/db/version_set.cc:697-733 | the saved level is sorted and holds exactly base and added files whose numbers are not deleted |
| Builder.VersionBuilder.Apply | macos/leveldb-library-src/db/version_set.cc:650-694 | one edit on every level: its deletions first, then its new files, which undo deletions of their numbers |
| Builder.VersionBuilder.Save | macos/leveldb-library-src/db/version_set.cc:697-733 | every level of the new version is its base with the applied edits |
| Builder.ApplyCommutesWithSave | macos/leveldb-library-src/db/version_set.cc:650-733 | applying one more edit and saving is saving and then applying the edit to what was saved |
| Builder.OneSaveIsEnough | macos/leveldb-library-src/db/version_set.cc:924-998 | any run of edits applied in one builder and saved once gives what installing each edit as its own version gives |
| Builder.ManifestRebuilds | macos/leveldb-library-src/db/version_set.cc:1088-1116 | replaying a snapshot of a version and the edits after it into an empty version rebuilds the current files of every level |
| Installs.EditInstalls | macos/leveldb-library-src/db/version_set.cc:818-823 | applying the edit of a compaction or flush removes exactly the inputs and adds exactly the outputs |
| Installs.InstallKeepsValid | macos/leveldb-library-src/db/version_set.cc:801-884 | outputs that fit keep the version valid: sorted disjoint levels, distinct numbers, age order at level 0, smaller levels newer |
| Installs.InstalledEntries | macos/leveldb-library-src/db/version_set.cc:801-884 | the stored entries change by exactly the inputs out and the outputs in |
| CompactionInstalls.LeftoverIsNewer | macos/leveldb-library-src/db/version_set.cc:1378-1453 | no file that stays at the level holds an older version of an input key |
| CompactionInstalls.NextLevelLeftover | macos/leveldb-library-src/db/version_set.cc:1411-1420 | a file that stays at the next level lies wholly to one side of all that is merged, outside the range of the level inputs |
| CompactionInstalls.SurvivorsSorted | macos/leveldb-library-src/db/db_impl.cc:902-999 | the entries kept stay in order |
| CompactionInstalls.MergeKeepsValid | macos/leveldb-library-src/db/db_impl.cc:860-876 | installing the outputs of closed inputs keeps every invariant of the version |
| CompactionInstalls.MergeEntries | macos/leveldb-library-src/db/db_impl.cc:860-876 | what is stored after a compaction is what was stored minus what the rule drops |
| CompactionInstalls.MoveKeepsValid | macos/leveldb-library-src/db/db_impl.cc:717-728 | moving a lone closed input down keeps every invariant and every entry |
| CompactionInstalls.AddKeepsValid | macos/leveldb-library-src/db/db_impl.cc:491-533 | adding a flushed table at its level keeps every invariant and adds exactly its entries |
| Store.Get | macos/leveldb-library-src/db/db_impl.cc:1100-1145 | memtable, immutable memtable, version, in that order |
| Store.TablesGetReadsContents | macos/leveldb-library-src/db/db_impl.cc:1100-1145 | the layered read is the read of everything stored |
| Store.LaterWritesAreInvisible | macos/leveldb-library-src/db/db_impl.cc:1114-1136 | a reader that captured its tables keeps its answers while newer writes enter its memtable |
| Store.HistoryReadIsClientRead | macos/leveldb-library-src/db/db_impl.cc:1100-1145 | reading the history of writes back to front is reading its set of entries at a sequence |
| Store.InsertOpsInserts | macos/leveldb-library-src/db/write_batch.cc:132-137 | inserting a run of writes leaves the memtable sorted and holding exactly them as well |
| Machine.InvReadsHistory | macos/leveldb-library-src/db/db_impl.cc:1100-1145 | in a state with the invariant every live reader reads exactly the newest acknowledged write not newer than its sequence |
| MachineSteps.WriteKeepsInv | macos/leveldb-library-src/db/db_impl.cc:1200-1234 | a batch in log and memtable keeps the invariant |
| MachineSteps.SwitchKeepsInv | macos/leveldb-library-src/db/db_impl.cc:1346-1366 | switching memtable and log keeps it |
| MachineSteps.FlushKeepsInv | macos/leveldb-library-src/db/db_impl.cc:535-566 | a flush to any level without overlap keeps it, and so does retiring the old logs with it |
| MachineSteps.CompactEntries | macos/leveldb-library-src/db/db_impl.cc:860-876 | a compaction step changes the stored entries by exactly the dropped ones |
| MachineSteps.CompactKeepsInv | macos/leveldb-library-src/db/db_impl.cc:878-1040 | a compaction that brings nothing back keeps it |
| MachineSteps.MoveKeepsInv | macos/leveldb-library-src/db/db_impl.cc:717-728 | a trivial move keeps it |
| MachineSteps.TakeSnapshotKeepsInv | macos/leveldb-library-src/db/db_impl.cc:1166-1169 | taking a snapshot keeps it |
| MachineSteps.ReleaseKeepsInv | macos/leveldb-library-src/db/db_impl.cc:1171-1174 | releasing any snapshot keeps it |
| MachineSteps.DeleteLogsKeepsInv | macos/leveldb-library-src/db/db_impl.cc:245-249 | deleting logs below the log number keeps it: no entry still needed is lost |
| Recovery.RecoveredSequence | macos/leveldb-library-src/db/db_impl.cc:280-369 | the recovered sequence is exactly the one last published before the crash |
| Recovery.RecoveredEntries | macos/leveldb-library-src/db/db_impl.cc:371-489 | the tables written during recovery hold exactly the replayed entries |
| Recovery.RecoverKeepsInv | macos/leveldb-library-src/db/db_impl.cc:280-369 | after a crash in any state with the invariant, recovery restores the invariant, the history, the sequence and every stored entry |
| Recovery.StepKeepsInv | macos/leveldb-library-src/db/db_impl.cc:688-767 | every step of the machine keeps the invariant |
| Recovery.RunKeepsInv | macos/leveldb-library-src/db/db_impl.cc:688-767 | it holds in every state of every run |
| Recovery.EveryRunReadsItsHistory | macos/leveldb-library-src/db/db_impl.cc:1100-1145 | in every state of every run of writes, switches, flushes, moves, compactions, snapshots, deletions and crashes, a read at a live snapshot or at the present returns exactly the newest acknowledged write not newer than it |
| Engine.DBImpl.Write | macos/leveldb-library-src/db/db_impl.cc:1185-1254 | one write step of the machine, with its whole new state |
| Engine.DBImpl.Get | macos/leveldb-library-src/db/db_impl.cc:1100-1145 | the value the history of acknowledged writes has for the key at the snapshot, or at the present |
| Engine.DBImpl.GetSnapshot | macos/leveldb-library-src/db/db_impl.cc:1166-1169 | a snapshot step; the snapshot is the last sequence and is live |
| Engine.DBImpl.ReleaseSnapshot | macos/leveldb-library-src/db/db_impl.cc:1171-1174 | a release step |
| Engine.DBImpl.SwitchMemTable | macos/leveldb-library-src/db/db_impl.cc:1346-1366 | a switch step |
| Engine.DBImpl.LogAndApply | macos/leveldb-library-src/db/version_set.cc:801-884 | the version becomes the edit applied to it; the counters are recorded |
| Engine.DBImpl.WriteLevel0Table | macos/leveldb-library-src/db/db_impl.cc:491-533 | a table of exactly the memtable under a fresh number, at level 0 without a base version and else at the level picked for its range; no table for an empty memtable |
| Engine.DBImpl.CompactMemTable | macos/leveldb-library-src/db/db_impl.cc:535-566 | a flush step |
| Engine.DBImpl.TrivialMove | macos/leveldb-library-src/db/db_impl.cc:717-728 | a move step |
| Engine.DBImpl.MergeInputs | macos/leveldb-library-src/db/db_impl.cc:878-1040 | merging iterator and rule together: the kept entries of the sorted union of the inputs |
| Engine.DBImpl.CompactFiles | macos/leveldb-library-src/db/db_impl.cc:878-1040 | a compaction step; the invariant holds after it unless it brings a value back |
| Engine.DBImpl.ChooseCompaction | macos/leveldb-library-src/db/db_impl.cc:696-713 | nothing is chosen if and only if nothing is due: no request at all, or a manual range that no file overlaps; otherwise the compaction is of the level that is due and contains what is due there, the start of the manual range, the first file past the compaction pointer, or the file with too many seeks, in this order |
| Engine.DBImpl.AdvancePointer | macos/leveldb-library-src/db/version_set.cc:1455-1461 | the compaction pointer of the level becomes the largest key of its inputs; nothing else changes |
| Engine.DBImpl.RunCompaction | macos/leveldb-library-src/db/db_impl.cc:715-742 | moves the file down if and only if that is allowed and it is alone, overlaps nothing in the next level and at most ten file sizes in the one after it; otherwise merges; one step of the machine either way |
| Engine.DBImpl.BackgroundCompaction | macos/leveldb-library-src/db/db_impl.cc:688-767 | one round of background work: a waiting memtable is flushed; otherwise nothing happens if and only if nothing is due, and what is due is compacted in one step of the machine, after which the compaction pointer of its level, and no other, is the largest key of its inputs |
| Engine.DBImpl.DeleteObsoleteLogs | macos/leveldb-library-src/db/db_impl.cc:223-278 | a log deletion step: exactly the logs below the log number go |
| Engine.DBImpl.Recover | macos/leveldb-library-src/db/db_impl.cc:280-369 | opening is a recovery step: no acknowledged write is lost and the last sequence is the same |
| Reopen.RecoverLogFile | macos/leveldb-library-src/db/db_impl.cc:371-489 | one log becomes level-0 tables and perhaps a memtable that together hold its entries in order; it is reused only if nothing was written out |
| Reopen.RecoverLogs | macos/leveldb-library-src/db/db_impl.cc:332-352 | all logs from the minimum on, in order; every log number ends up used |
| Picking.PickFile | macos/leveldb-library-src/db/version_set.cc:1282-1296 | the first file past the compaction pointer, or the first file when there is none |
| Picking.PickCompaction | macos/leveldb-library-src/db/version_set.cc:1270-1322 | closed inputs that contain the start file |
| Picking.Truncate | macos/leveldb-library-src/db/version_set.cc:1473-1486 | the shortest non-empty prefix whose size reaches the limit, all files if none does |
| Picking.RangeInputs | macos/leveldb-library-src/db/version_set.cc:1464-1486 | of the files that overlap the range, at level 0 all; above it they are neighbours, and the shortest non-empty prefix that reaches the limit is taken, all of them if none does |
| Picking.CompactRange | macos/leveldb-library-src/db/version_set.cc:1464-1495 | no compaction if and only if no file of the level overlaps the range; otherwise closed inputs that contain, at level 0, every overlapping file, and above it the first files of the overlapping run, until their sizes reach the limit or the run ends; every overlapping file that is left overlaps the rest of the range from the end of the last input on |
| Picking.RestOfRange | macos/leveldb-library-src/db/db_impl.cc:697-703 | going on behind the last input skips no file of the range |
| InputIterators.SortedUnion | macos/leveldb-library-src/table/merger.cc:31-37 | entries with distinct keys have a sorted union |
| InputIterators.LevelRun | macos/leveldb-library-src/db/version_set.cc:1258-1262 | the files of a sorted level one after the other are one sorted run of its entries |
| InputIterators.InputsApart | macos/leveldb-library-src/db/version_set.cc:1237-1268 | no entry is in the inputs of both levels |
| InputIterators.MakeInputIterator | macos/leveldb-library-src/db/version_set.cc:1237-1268 | the iterator over all inputs is a merging iterator over exactly their entries |
| Outputs.BuildTable | macos/leveldb-library-src/db/builder.cc:17-77 | a file whose bounds are the first and last key of the run |
| Outputs.WriteOutputs | macos/leveldb-library-src/db/db_impl.cc:785-876 | one well-formed file for each piece, numbered in sequence |
| Outputs.FreshNumbers | macos/leveldb-library-src/db/db_impl.cc:785-808 | numbers from the next file number on collide with nothing in the version |
| Merger.FwdSplits | macos/leveldb-library-src/table/merger.cc:55-79 | a child positioned for a place in the union has exactly its own earlier entries behind it |
| Merger.FwdOfSeek | macos/leveldb-library-src/table/merger.cc:47-53 | seeking every child is seeking the union |
| Merger.MergingIterator.constructor | macos/leveldb-library-src/table/merger.cc:16-29 | children with distinct keys that together hold the sorted union |
| Merger.MergingIterator.FindSmallest | macos/leveldb-library-src/table/merger.cc:148-161 | the current child is the one at the next entry of the union, none at its end |
| Merger.MergingIterator.FindLargest | macos/leveldb-library-src/table/merger.cc:163-176 | the current child is the one at the previous entry of the union, none before its start |
| Merger.MergingIterator.SeekToFirst | macos/leveldb-library-src/table/merger.cc:31-37 | at the first entry of the union |
| Merger.MergingIterator.SeekToLast | macos/leveldb-library-src/table/merger.cc:39-45 | at the last entry of the union |
| Merger.MergingIterator.SeekTo | macos/leveldb-library-src/table/merger.cc:47-53 | at the first entry of the union not before the target |
| Merger.MergingIterator.PositionForward | macos/leveldb-library-src/table/merger.cc:63-75 | turning around to go forward leaves the position in the union as it was |
| Merger.MergingIterator.PositionBackward | macos/leveldb-library-src/table/merger.cc:89-103 | turning around to go backward leaves the position in the union as it was |
| Merger.MergingIterator.Next | macos/leveldb-library-src/table/merger.cc:55-79 | one entry on in the union, whatever the calls before |
| Merger.MergingIterator.Prev | macos/leveldb-library-src/table/merger.cc:81-108 | one entry back in the union, whatever the calls before; invalid before the first |
| Merger.MergingIterator.Current | macos/leveldb-library-src/table/merger.cc:110-118 | the entry shown is the union entry at the position |
| TwoLevel.SeekThroughIndex | macos/leveldb-library-src/table/two_level_iterator.cc:82-87 | seeking the index and then the block found is seeking the concatenation of the blocks, empty blocks included |
| TwoLevel.TwoLevelIterator.InitDataBlock | macos/leveldb-library-src/table/two_level_iterator.cc:146-161 | the data iterator is over the block the index points to, and is kept when it already is |
| TwoLevel.TwoLevelIterator.SkipEmptyDataBlocksForward | macos/leveldb-library-src/table/two_level_iterator.cc:115-126 | ends at the position in the concatenation that was reached, past any number of empty blocks |
| TwoLevel.TwoLevelIterator.SkipEmptyDataBlocksBackward | macos/leveldb-library-src/table/two_level_iterator.cc:128-139 | the same going back |
| TwoLevel.TwoLevelIterator.SeekTo | macos/leveldb-library-src/table/two_level_iterator.cc:82-87 | at the first entry of the concatenation not before the target |
| TwoLevel.TwoLevelIterator.SeekToFirst | macos/leveldb-library-src/table/two_level_iterator.cc:89-94 | at the first entry of the concatenation |
| TwoLevel.TwoLevelIterator.SeekToLast | macos/leveldb-library-src/table/two_level_iterator.cc:96-101 | at the last entry of the concatenation |
| TwoLevel.TwoLevelIterator.Next | macos/leveldb-library-src/table/two_level_iterator.cc:103-107 | one entry on in the concatenation |
| TwoLevel.TwoLevelIterator.Prev | macos/leveldb-library-src/table/two_level_iterator.cc:109-113 | one entry back in the concatenation |
| TwoLevel.TwoLevelIterator.ValidEntry | macos/leveldb-library-src/table/two_level_iterator.cc:31-39 | the entry shown is the one of the concatenation at the position |
| DbIter.ViewIsSnapshot | macos/leveldb-library-src/db/db_iter.cc:168-198 | the list the iterator walks is ascending and holds exactly what point lookups at the same sequence find |
| DbIter.DBIter.constructor | macos/leveldb-library-src/db/db_iter.cc:47-62 | a new iterator is invalid |
| DbIter.DBIter.Key | macos/leveldb-library-src/db/db_iter.cc:64-67 | the user key of the view at the position, in both directions |
| DbIter.DBIter.Value | macos/leveldb-library-src/db/db_iter.cc:68-71 | the value of the view at the position, in both directions |
| DbIter.DBIter.FindNextUserEntry | macos/leveldb-library-src/db/db_iter.cc:168-198 | stops at the first live key past the skipped one |
| DbIter.DBIter.FindPrevUserEntry | macos/leveldb-library-src/db/db_iter.cc:227-267 | stops with the last live key before the position and its newest visible value |
| DbIter.DBIter.Next | macos/leveldb-library-src/db/db_iter.cc:141-166 | one entry on in the view, whatever the calls before |
| DbIter.DBIter.Prev | macos/leveldb-library-src/db/db_iter.cc:200-225 | one entry back in the view, whatever the calls before |
| DbIter.DBIter.SeekTo | macos/leveldb-library-src/db/db_iter.cc:269-281 | at the first entry of the view whose user key is not before the target |
| DbIter.DBIter.SeekToFirst | macos/leveldb-library-src/db/db_iter.cc:283-292 | at the first entry of the view |
| DbIter.DBIter.SeekToLast | macos/leveldb-library-src/db/db_iter.cc:294-299 | at the last entry of the view |
| DatabaseIterators.LevelIsIndexed | macos/leveldb-library-src/db/version_set.cc:158-228 | the largest keys of the files of a sorted level are an index with which the two-level iterator is a cursor over all entries of the level |
| DatabaseIterators.NewInternalIterator | macos/leveldb-library-src/db/db_impl.cc:1061-1089 | a merging iterator over memtables, level-0 files and levels: a cursor over exactly what is stored |
| DatabaseIterators.IterationAgreesWithGet | macos/leveldb-library-src/db/db_impl.cc:1147-1157 | the list that the database iterator walks over it is ascending and holds exactly the keys and values that point reads at its sequence find |
| DatabaseIterators.EveryRunIteratesItsHistory | macos/leveldb-library-src/db/db_impl.cc:1147-1157 | in every state of every run an iterator at a live snapshot or at the present walks exactly what the acknowledged writes up to it leave alive |
| SkipList.LinkFirst | macos/leveldb-library-src/db/skiplist.h:362-367 | storing the level-0 link puts the node into the order and leaves every other link right |
| SkipList.LinkHigher | macos/leveldb-library-src/db/skiplist.h:362-367 | storing the link of one more level raises the node by one level and changes nothing else |
| SkipList.LevelsNest | macos/leveldb-library-src/db/skiplist.h:336-368 | every level is sorted, starts where its links lead, and lies within the level below |
| SkipList.SkipList.FindPrev | macos/leveldb-library-src/db/skiplist.h:260-281 | the predecessors of a key at every level, and the node that follows |
| SkipList.SkipList.StartInsert | macos/leveldb-library-src/db/skiplist.h:336-361 | allocates a node for a key that is not there; nothing is linked yet |
| SkipList.SkipList.PrepareLink | macos/leveldb-library-src/db/skiplist.h:363-365 | the node's own link is stored first; readers notice nothing |
| SkipList.SkipList.PublishLink | macos/leveldb-library-src/db/skiplist.h:366-366 | then the predecessor's link: the order grows by the node, or the node by a level |
| SkipList.SkipList.LinkLevel | macos/leveldb-library-src/db/skiplist.h:362-367 | both stores of a level |
| SkipList.SkipList.Insert | macos/leveldb-library-src/db/skiplist.h:336-368 | afterwards the node is in its place, linked at each of its levels, and nothing else has changed |
| SkipList.SkipList.WriterStep | macos/leveldb-library-src/db/skiplist.h:336-368 | after every single store the list is sound, and only grows |
| SkipList.SkipList.OtherThread | macos/leveldb-library-src/db/skiplist.h:336-368 | any number of the writer's stores may happen between two of a reader's reads |
| SkipList.SkipList.ReadNext | macos/leveldb-library-src/db/skiplist.h:262-281 | a read at any moment leads to the next node of that level as of that moment |
| SkipList.SkipList.FindGreaterOrEqual | macos/leveldb-library-src/db/skiplist.h:260-281 | with the writer at work before every read, and from whatever maximum height the reader saw: the first key at or past the target among those linked at the last read |
| SkipList.SkipList.FindLessThan | macos/leveldb-library-src/db/skiplist.h:283-302 | the last node before the key as of the last read |
| SkipList.SkipList.FindLast | macos/leveldb-library-src/db/skiplist.h:304-322 | the last node as of the last read |
| SkipList.SkipList.Contains | macos/leveldb-library-src/db/skiplist.h:370-378 | true if and only if the key is linked as of the last read |
| HandleTable.Table.FindPointer | macos/leveldb-library-src/util/cache.cc:111-120 | the slot of the key's handle, or the end of its bucket |
| HandleTable.Table.Lookup | macos/leveldb-library-src/util/cache.cc:74-76 | what the table's map has for the key |
| HandleTable.Table.Put | macos/leveldb-library-src/util/cache.cc:78-84 | the handle replaces the one with its key; every other handle stays |
| HandleTable.Table.Insert | macos/leveldb-library-src/util/cache.cc:78-92 | the map gets the handle for the key, what it had is returned, and the table stays at least as long as it has handles |
| HandleTable.Table.Remove | macos/leveldb-library-src/util/cache.cc:94-102 | the key leaves the map, and what it had is returned |
| HandleTable.Table.Resize | macos/leveldb-library-src/util/cache.cc:122-146 | the same map in a table that is long enough |
| HandleTable.Table.MoveBucket | macos/leveldb-library-src/util/cache.cc:130-141 | moves every handle of one bucket to its new one |
| LruCache.RingRemove | macos/leveldb-library-src/util/cache.cc:239-242 | the two stores take an element out of its ring |
| LruCache.RingAppend | macos/leveldb-library-src/util/cache.cc:244-250 | the four stores make an element the newest of a ring |
| LruCache.Cache.LruRemove | macos/leveldb-library-src/util/cache.cc:239-242 | a handle leaves its list, the other list is untouched |
| LruCache.Cache.LruAppend | macos/leveldb-library-src/util/cache.cc:244-250 | a handle becomes the newest of a list, the other list is untouched |
| LruCache.Cache.Ref | macos/leveldb-library-src/util/cache.cc:217-223 | one more reference; a handle on the LRU list moves to the in-use list |
| LruCache.Cache.Unref | macos/leveldb-library-src/util/cache.cc:225-237 | the last reference deletes the handle, once; the last client's moves it to the end of the LRU list |
| LruCache.Cache.FinishErase | macos/leveldb-library-src/util/cache.cc:307-316 | the handle leaves lists and usage and is deleted unless clients hold it |
| LruCache.Cache.Lookup | macos/leveldb-library-src/util/cache.cc:252-259 | what the cache's map has for the key, which is then in use and holds one more client reference |
| LruCache.Cache.Release | macos/leveldb-library-src/util/cache.cc:261-264 | one client reference less; deleted or back on the LRU list in release order |
| LruCache.Cache.Insert | macos/leveldb-library-src/util/cache.cc:266-303 | the cache's map gets the new handle for the key, held once; what it replaces is deleted unless clients hold it; the oldest unused handles and their keys go until usage fits or none is left, and no more; every other handle stays |
| LruCache.Cache.Erase | macos/leveldb-library-src/util/cache.cc:318-321 | the key leaves the cache's map and nothing else does; clients keep the handle while they hold it |
| LruCache.Cache.EvictOldest | macos/leveldb-library-src/util/cache.cc:293-300 | the oldest unused handle is deleted, its key leaves the map and its charge is returned |
| LruCache.Cache.EvictUntilFits | macos/leveldb-library-src/util/cache.cc:293-300 | unused handles go, oldest first, with their keys, until usage fits or none is left, and no more than that |
| LruCache.Cache.Prune | macos/leveldb-library-src/util/cache.cc:323-333 | all unused handles are deleted, oldest first, and no others; the map keeps the rest |
| Crc32c.ExtendIsConcatenation | macos/leveldb-library-src/util/crc32c.h:14-20 | extending the checksum of A over B is the checksum of A followed by B |
| Crc32c.TableStep | macos/leveldb-library-src/util/crc32c.cc:283-289 | a table lookup and a shift advance the register by one byte, for tables that follow the polynomial's recurrence |
| Crc32c.RegisterWord | macos/leveldb-library-src/util/crc32c.cc:292-306 | four bytes enter the register as one little-endian word |
| Crc32c.StrideLookupAdvances | macos/leveldb-library-src/util/crc32c.cc:292-306 | four stride-table lookups advance a lane by 16 bytes |
| Crc32c.RotateLanes | macos/leveldb-library-src/util/crc32c.cc:292-306 | folding the next word into the oldest lane advances the combined register by that word |
| Crc32c.StepStrides | macos/leveldb-library-src/util/crc32c.cc:332-367 | the four-lane loop consumes whole words exactly as the bytewise register would |
| Crc32c.Extend | macos/leveldb-library-src/util/crc32c.cc:276-377 | for every buffer, length and alignment the striped loop computes the bit-serial checksum |
| Crc32c.ChecksumOfZeros | macos/leveldb-library-src/util/crc32c_test.cc:14-19 | the published checksum of 32 bytes of 0x00 |
| Crc32c.ChecksumOfOnes | macos/leveldb-library-src/util/crc32c_test.cc:21-22 | the published checksum of 32 bytes of 0xff |
| Crc32c.UnmaskInvertsMask | macos/leveldb-library-src/util/crc32c.h:29-38 | masking and unmasking undo each other |
| Coding.DecodeInvertsEncode | macos/leveldb-library-src/util/coding.h:60-72 | a fixed 32-bit word reads back |
| Varints.EncodeVarint32 | macos/leveldb-library-src/util/coding.cc:47-73 | the five branches write the seven-bit form of the number |
| Varints.EncodeVarint64 | macos/leveldb-library-src/util/coding.cc:81-90 | the loop writes the seven-bit form of the number |
| Varints.GetVarint | macos/leveldb-library-src/util/coding.cc:112-157 | the shift loop reads what a recursive reading of at most that many bytes reads, cut to the width; none if it does not end |
| Varints.ReadInvertsVarint | macos/leveldb-library-src/util/coding.cc:112-128 | a number reads back, and exactly its bytes are consumed, whatever follows |
| Varints.VarintWidths | macos/leveldb-library-src/util/coding.cc:75-96 | 32-bit numbers take at most five bytes, 64-bit numbers at most ten |
| Varints.ReadInvertsPrefixed | macos/leveldb-library-src/util/coding.cc:98-101 | a length-prefixed string reads back, whatever follows |
| Varints.GetLengthPrefixedSlice | macos/leveldb-library-src/util/coding.cc:181-190 | takes the string off the front, or nothing if the input is too short |
| Varints.FixedValueInvertsFixed | macos/leveldb-library-src/util/coding.cc:20-45 | a fixed-width number reads back, whatever follows |
| Varints.WordAt | macos/leveldb-library-src/table/block.cc:99-102 | an array of 32-bit words gives back each element |
| LogFormat.Fragments | macos/leveldb-library-src/db/log_writer.cc:34-80 | every record has fragments, each of which fits its block |
| LogFormat.LayoutAppend | macos/leveldb-library-src/db/log_writer.cc:34-80 | fragments laid out one list after the other are the bytes of both |
| LogFormat.NextFragment | macos/leveldb-library-src/db/log_writer.cc:41-78 | writing the next fragment and then the rest is writing all fragments |
| LogFormat.AllFragmentsAppend | macos/leveldb-library-src/db/log_writer.cc:34-80 | more records continue at the offset where the others end |
| LogFormat.LogOfOneMore | macos/leveldb-library-src/db/log_writer.cc:34-80 | the log of one more record is the log plus that record's fragments |
| LogFormat.LogLength | macos/leveldb-library-src/db/log_writer.cc:27-30 | the block offset of a reopened log follows from its length |
| LogWriter.Writer.constructor | macos/leveldb-library-src/db/log_writer.cc:23-30 | a writer for a new log or for one that already holds whole records |
| LogWriter.Writer.EmitPhysicalRecord | macos/leveldb-library-src/db/log_writer.cc:82-108 | header and payload of one fragment, the checksum extended from the one of the kind |
| LogWriter.Writer.AddRecord | macos/leveldb-library-src/db/log_writer.cc:34-80 | the file is the log of the records so far and this one |
| LogReader.HeaderChecksum | macos/leveldb-library-src/db/log_reader.cc:235-247 | the stored checksum of an intact fragment is the one computed over it |
| LogReader.Reader.ReadPhysicalRecord | macos/leveldb-library-src/db/log_reader.cc:189-271 | in a byte prefix of an intact log: the next fragment if all of it is there, else end of file, without a report |
| LogReader.Reader.ReadRecord | macos/leveldb-library-src/db/log_reader.cc:56-174 | the next record if all of it is there, else the end, without a report |
| LogReader.Reader.ReadAll | macos/leveldb-library-src/db/log_reader.cc:56-174 | of any byte prefix of an intact log exactly the whole records are read, in order, and nothing is reported |
| WriteBatches.ParseInvertsRecords | macos/leveldb-library-src/db/write_batch.cc:42-80 | packed records read back as the same writes |
| WriteBatches.RecordsAppend | macos/leveldb-library-src/db/write_batch.cc:144-148 | packing is concatenation of write lists |
| WriteBatches.RepReadsBack | macos/leveldb-library-src/db/write_batch.cc:42-94 | a packed batch gives back its sequence and its writes and passes all checks |
| WriteBatches.CutBatchIsCorrupt | macos/leveldb-library-src/db/write_batch.cc:75-77 | records missing at the end are noticed by the count |
| WriteBatches.RecordReadsBackIff | macos/leveldb-library-src/db/write_batch.cc:98-109 | a record reads back if and only if its strings are shorter than 2^32 bytes |
| WriteBatches.WriteBatch.Put | macos/leveldb-library-src/db/write_batch.cc:98-103 | one more value write of any size, count and bytes in step |
| WriteBatches.WriteBatch.Delete | macos/leveldb-library-src/db/write_batch.cc:105-109 | one more deletion of any size, count and bytes in step |
| WriteBatches.WriteBatch.Append | macos/leveldb-library-src/db/write_batch.cc:144-148 | the writes of the other batch follow; the sequence stays |
| WriteBatches.WriteBatch.SetSequence | macos/leveldb-library-src/db/write_batch.cc:94-96 | only the sequence changes |
| WriteBatches.WriteBatch.Count | macos/leveldb-library-src/db/write_batch.cc:82-84 | the number of writes |
| WriteBatches.WriteBatch.Clear | macos/leveldb-library-src/db/write_batch.cc:35-38 | an empty batch |
| WriteBatches.WriteBatch.Iterate | macos/leveldb-library-src/db/write_batch.cc:42-80 | for any bytes: the handler gets the records up to the first bad one, at consecutive sequences, and the status names the defect |
| WriteBatches.WriteBatch.InsertInto | macos/leveldb-library-src/db/write_batch.cc:132-137 | an intact batch goes into the memtable whole, in order, at consecutive sequences |
| WriteQueue.JoiningLimits | macos/leveldb-library-src/db/db_impl.cc:1280-1304 | who joins a group: no sync write under a leader without sync, never past the size limit, and the first one left out has one of these two reasons |
| WriteQueue.GroupIsValid | macos/leveldb-library-src/db/db_impl.cc:1260-1306 | every group is of one durability, can be counted in 31 bits, stays within 128 KiB more than a leader of at most 128 KiB or within 1 MiB after a larger one once it has a second batch, and the first request left out would have broken one of these rules |
| WriteQueue.GroupIsUnique | macos/leveldb-library-src/db/db_impl.cc:1260-1306 | for every queue these rules admit exactly one group, the one that is built |
| WriteQueue.SmallBatchesShareAGroup | macos/leveldb-library-src/db/db_impl.cc:1267-1274 | two batches of at most 128 KiB at the front share a group unless the second asks for a sync and the first does not |
| WriteQueue.LargeLeaderStaysAlone | macos/leveldb-library-src/db/db_impl.cc:1267-1304 | no batch follows in the group of a leader of 1 MiB or more |
| WriteQueueSteps.RecordReadsBack | macos/leveldb-library-src/db/db_impl.cc:1205-1215 | the log record of a group reads back as its writes at its sequences |
| WriteQueueSteps.ToldTogether | macos/leveldb-library-src/db/db_impl.cc:1236-1247 | telling a whole group the same moves acknowledged writes and sequence on by all of its batches |
| WriteQueueSteps.MemberTold | macos/leveldb-library-src/db/db_impl.cc:1214-1247 | each member of a written group finds its batch, at its own sequences, in the group's log record |
| WriteQueueSteps.StepKeepsInv | macos/leveldb-library-src/db/db_impl.cc:1185-1306 | every step of writers, leader, log, disk and memtable keeps the invariant of the queue |
| WriteQueueSteps.ReadersSeeWholeBatches | macos/leveldb-library-src/db/db_impl.cc:1208-1236 | at the published sequence a reader sees exactly the acknowledged batches, whole and in queue order, at every moment of a group's insertion |
| WriteQueueSteps.StepKeepsSnapshot | macos/leveldb-library-src/db/db_impl.cc:1185-1254 | no step changes what a snapshot taken earlier sees |
| WriteQueueSteps.WrittenOnce | macos/leveldb-library-src/db/db_impl.cc:1185-1254 | an acknowledged batch stands in the memtable exactly once, as one stretch at consecutive sequences |
| WriteQueueSteps.SequencesFollowTheQueue | macos/leveldb-library-src/db/db_impl.cc:1202-1207 | later in the queue is later in sequence; no two ranges overlap |
| WriteQueueSteps.FailedLeavesNothing | macos/leveldb-library-src/db/db_impl.cc:1214-1236 | the sequences of a failed batch are used up and stay empty |
| WriteQueueSteps.EveryRunAppliesInQueueOrder | macos/leveldb-library-src/db/db_impl.cc:1185-1306 | in every interleaving the acknowledged batches, once each and in queue order, are what a reader sees |
| WriteQueueSteps.EveryRunKeepsSnapshots | macos/leveldb-library-src/db/db_impl.cc:1100-1112 | a snapshot taken at any moment of any run reads the same whole batches for ever |
| WriteQueueSteps.EveryRunSyncsWhatItPromised | macos/leveldb-library-src/db/db_impl.cc:1214-1222 | an acknowledged sync write is in a log record that has been synced |
| WriteQueueSteps.EveryRunLogsAhead | macos/leveldb-library-src/db/db_impl.cc:1214-1226 | with no write in flight and no failed sync, replaying the log rebuilds the memtable; otherwise it is ahead by exactly the group in flight and the unsure one |
| GroupCommit.CommitQueue.Join | macos/leveldb-library-src/db/db_impl.cc:1186-1198 | a join step of the queue |
| GroupCommit.CommitQueue.BuildBatchGroup | macos/leveldb-library-src/db/db_impl.cc:1260-1306 | the loop builds exactly the group that the rules admit, in the temporary batch as soon as there are two |
| GroupCommit.CommitQueue.Lead | macos/leveldb-library-src/db/db_impl.cc:1201-1207 | a lead step; the group carries the next sequence and queued batches are not disturbed |
| GroupCommit.CommitQueue.LogGroup | macos/leveldb-library-src/db/db_impl.cc:1214-1215 | a log step |
| GroupCommit.CommitQueue.SyncGroup | macos/leveldb-library-src/db/db_impl.cc:1216-1222 | a sync step |
| GroupCommit.CommitQueue.InsertGroup | macos/leveldb-library-src/db/db_impl.cc:1223-1225 | the state that inserting the writes one by one leads to |
| GroupCommit.InsertOneMore | macos/leveldb-library-src/db/write_batch.cc:116-130 | that state is reached through single insert steps |
| GroupCommit.CommitQueue.FinishGroup | macos/leveldb-library-src/db/db_impl.cc:1234-1254 | a finish step: sequence published, exactly the group popped, every member but the leader told the outcome |
| GroupCommit.CommitQueue.LeaveAlone | macos/leveldb-library-src/db/db_impl.cc:1200-1204 | a writer without room or without batch leaves alone |
| EngineWrites.FinishIsWriteStep | macos/leveldb-library-src/db/db_impl.cc:1230-1239 | publishing a written group is one write step of the engine with the writes of the whole group |
| EngineWrites.OtherStepsAreSilent | macos/leveldb-library-src/db/db_impl.cc:1185-1251 | nothing else in the queue changes the acknowledged writes |
| EngineWrites.EngineFollowsTheQueue | macos/leveldb-library-src/db/db_impl.cc:1185-1251 | every interleaving of writers is followed by a run of the engine that takes its groups as batches |
| EngineWrites.ReadsFindTheNewestBatch | macos/leveldb-library-src/db/db_impl.cc:1100-1145 | from queue to tables: a read finds the newest write of its key among the whole batches acknowledged by its sequence |
| ObsoleteFiles.StepKeepsInv | macos/leveldb-library-src/db/db_impl.cc:648-686 | every step of readers and background calls keeps the invariant of versions, pending outputs and disk |
| ObsoleteFiles.CollectKeepsTables | macos/leveldb-library-src/db/db_impl.cc:223-278 | a collection deletes no table of a listed version and no pending output |
| ObsoleteFiles.EveryHeldTableIsOnDisk | macos/leveldb-library-src/db/version_set.cc:1167-1177 | in every run, the tables of every version that a reader, an iterator, the current pointer or a compaction holds are on disk, and the reference count is the number of holders |
| ObsoleteFiles.EveryBuiltTableIsOnDisk | macos/leveldb-library-src/db/db_impl.cc:491-566 | in every run, a built table that is neither pending nor listed yet is on disk |
| ObsoleteFiles.EveryInstallBuildsOnCurrent | macos/leveldb-library-src/db/version_set.cc:801-884 | the version an edit was applied to is still the current one when the result is installed, although the mutex was free meanwhile |
| ObsoleteFiles.CollectionIsExact | macos/leveldb-library-src/db/db_impl.cc:223-278 | after a collection the disk holds live tables only, and every listed one |
| ObsoleteFiles.SecondCallWouldDeleteATable | macos/leveldb-library-src/db/db_impl.cc:656-670 | why one background call at a time matters: with two, a state that is otherwise sound lets a collection delete a built table |
| FileLifetimes.EveryPendingOutputIsBeingWritten | macos/leveldb-library-src/db/db_impl.cc:498-541 | in every run the pending outputs are exactly those that the background call still writes; without a call there are none |
| FileLifetimes.NothingIsDeletedAfterAnError | macos/leveldb-library-src/db/db_impl.cc:223-230 | in every run an error installs nothing, and from then on no table is deleted |
| FileLifetimes.FlushAddsItsTable | macos/leveldb-library-src/db/db_impl.cc:543-576 | a flush from start to end: one table more in the current version, on disk and no longer pending |
| FileLifetimes.CompactionReplacesItsInputs | macos/leveldb-library-src/db/db_impl.cc:715-742 | a compaction from start to end, with any number of outputs: they stand in the place of the inputs and are on disk, nothing is pending, and an input stays on disk only while a listed version has it |
| VersionLists.VersionSet.Build | macos/leveldb-library-src/db/version_set.cc:736-753 | a new version takes one reference on each of its files |
| VersionLists.VersionSet.Ref | macos/leveldb-library-src/db/version_set.cc:474-474 | one more reference |
| VersionLists.VersionSet.Unref | macos/leveldb-library-src/db/version_set.cc:476-483 | the last reference takes the version off the list and frees exactly the files no other version lists |
| VersionLists.VersionSet.AppendVersion | macos/leveldb-library-src/db/version_set.cc:784-799 | the new version is current and last on the list; the old one loses a reference |
| VersionLists.VersionSet.Discard | macos/leveldb-library-src/db/version_set.cc:870-880 | a version that could not be recorded goes, with the files only it lists |
| VersionLists.VersionSet.AddLiveFiles | macos/leveldb-library-src/db/version_set.cc:1167-1177 | the numbers of every file of every listed version |
| VersionLists.VersionSet.DeleteObsoleteFiles | macos/leveldb-library-src/db/db_impl.cc:223-278 | a log stays if and only if its number is at least the log number or is the previous log number, a manifest if and only if its number is at least the current one, a table or temporary file if and only if it is pending or a listed version lists it, other files always, and after a background error everything |
| VersionLists.CollectionKeepsReplay | macos/leveldb-library-src/db/db_impl.cc:245-250 | what a recovery replays from the log number on is the same after the collection |
| Comparators.BeforeIsStrict | macos/leveldb-library-src/util/comparator.cc:25-27 | bytewise order is total and strict |
| Comparators.BeforeAtDifference | macos/leveldb-library-src/util/comparator.cc:25-27 | it is decided at the first difference, or by length |
| Comparators.KeyBeforeIsOrder | macos/leveldb-library-src/db/dbformat.cc:51-67 | the order of encoded internal keys is strict, transitive and total up to equal parts |
| Comparators.FindShortestSeparator | macos/leveldb-library-src/util/comparator.cc:29-50 | a key at or past the start and before the limit; it is shortened if and only if the first byte that differs leaves room for one more below the limit, and then no shorter key lies there |
| Comparators.NoShorterSeparator | macos/leveldb-library-src/util/comparator.cc:28-51 | no key within the common prefix of start and limit lies between them |
| Comparators.FindShortSuccessor | macos/leveldb-library-src/util/comparator.cc:52-63 | a key at or past the given one, unchanged only for a run of 0xff; no shorter key comes after the given one |
| Comparators.FindKeySeparator | macos/leveldb-library-src/db/dbformat.cc:69-86 | an internal key in [start, limit) with no version of the limit's user key in the gap; it is changed if and only if the user part can be shortened, and then stands before every version of its user key |
| Comparators.FindKeySuccessor | macos/leveldb-library-src/db/dbformat.cc:88-101 | an internal key at or past the given one; no user key shorter than its own comes after the given one |
| BlockBuilders.BlockBuilder.Add | macos/leveldb-library-src/table/block_builder.cc:72-106 | the pair goes in; a restart point is set exactly when the interval is full |
| BlockBuilders.BlockBuilder.Finish | macos/leveldb-library-src/table/block_builder.cc:62-70 | the bytes are the block of the pairs and restart points, as long as the size estimate said |
| BlockIters.DecodeEntry | macos/leveldb-library-src/table/block.cc:54-74 | for every input the three-byte fast path gives what decoding three varints gives, with the lengths compared in 32 bits |
| BlockIters.AcceptedIsInside | macos/leveldb-library-src/table/block.cc:69-71 | an accepted entry ends inside its block if and only if its two lengths add up to less than 2^32 |
| BlockIters.AcceptedByWrappedSum | macos/leveldb-library-src/table/block.cc:69-71 | for all three numbers of a head: it is accepted if and only if the sum of the lengths, wrapped to 32 bits, fits |
| BlockIters.WrappedSumLeavesTheBlock | macos/leveldb-library-src/table/block.cc:69-71 | eight bytes that are accepted although they announce more than 4 GB |
| BlockIters.OpenAccepts | macos/leveldb-library-src/table/block.cc:25-41 | any bytes are taken for a block if and only if there is room for the restart array that their last word announces |
| BlockIters.ReadHeadInverts | macos/leveldb-library-src/table/block.cc:54-74 | the head of an encoded entry reads back, with key delta and value where it says, in blocks below 4 GB |
| BlockIters.OpenFinds | macos/leveldb-library-src/table/block.cc:19-39 | the restart array of a built block is found |
| BlockIters.RestartPointIs | macos/leveldb-library-src/table/block.cc:99-102 | each restart point is the offset of its entry |
| BlockIters.EntryAt | macos/leveldb-library-src/table/block.cc:224-251 | decoding at an entry's offset finds that entry and the offset of the next |
| BlockIters.Iter.Shows | macos/leveldb-library-src/table/block.cc:128-135 | key and value of the cursor are those of the pair it is at |
| BlockIters.Iter.ParseNextKey | macos/leveldb-library-src/table/block.cc:224-251 | for any bytes: the key from what is shared and the delta, the value after it; a bad entry marks the cursor corrupt, an accepted one that goes on past the block is recorded as such; on a built block, the next pair and its restart region |
| BlockIters.Iter.Next | macos/leveldb-library-src/table/block.cc:137-140 | the next pair |
| BlockIters.Iter.Prev | macos/leveldb-library-src/table/block.cc:142-161 | the immediate predecessor, invalid before the first |
| BlockIters.Iter.Seek | macos/leveldb-library-src/table/block.cc:163-201 | binary search and scan land on the first key not less than the target |
| BlockIters.Iter.SeekToFirst | macos/leveldb-library-src/table/block.cc:203-206 | the first pair |
| BlockIters.Iter.SeekToLast | macos/leveldb-library-src/table/block.cc:208-213 | the last pair |
| BloomFilters.CreateFilter | macos/leveldb-library-src/util/bloom.cc:28-54 | the filter has the bits asked for, at least 64, up to a full byte, and set are exactly those that its keys probe |
| BloomFilters.KeyMayMatch | macos/leveldb-library-src/util/bloom.cc:56-80 | yes if and only if the filter is of another kind or all probes hit |
| BloomFilters.FilterMatchesItsKeys | macos/leveldb-library-src/util/bloom.cc:28-80 | no false negatives |
| FilterBlocks.FilterBlockBuilder.AddKey | macos/leveldb-library-src/table/filter_block.cc:29-33 | the key waits for the next filter |
| FilterBlocks.FilterBlockBuilder.GenerateFilter | macos/leveldb-library-src/table/filter_block.cc:51-75 | a filter over the user keys that waited; none for none |
| FilterBlocks.FilterBlockBuilder.StartBlock | macos/leveldb-library-src/table/filter_block.cc:21-27 | filters up to the offset's are closed; the waiting keys are in the first of them |
| FilterBlocks.FilterBlockBuilder.Finish | macos/leveldb-library-src/table/filter_block.cc:35-49 | filters, their offsets and the granularity |
| FilterBlocks.FilterBlockReader.KeyMayMatch | macos/leveldb-library-src/table/filter_block.cc:90-104 | for any contents, the answer of the filter the offset falls to; what makes no sense counts as a match |
| FilterBlocks.NoFalseNegatives | macos/leveldb-library-src/table/filter_block.cc:21-104 | the filter of a block's offset rules out no key of its group and no other version of one |
| TableFormat.DecodeInvertsHandle | macos/leveldb-library-src/table/format.cc:15-29 | a block handle reads back, whatever follows |
| TableFormat.DecodeInvertsFooter | macos/leveldb-library-src/table/format.cc:31-62 | a footer reads back |
| TableFormat.ReadBlock | macos/leveldb-library-src/table/format.cc:64-139 | a stored block reads back, checked or unchecked; otherwise which defect is reported: too short, wrong checksum, foreign compression, unknown type |
| TableBuilders.AddKeepsInv | macos/leveldb-library-src/table/table_builder.cc:94-123 | one more key, and the index entry before it, keep order, index and filters right |
| TableBuilders.FlushKeepsInv | macos/leveldb-library-src/table/table_builder.cc:125-139 | writing a block out keeps them right |
| TableBuilders.IndexCompleted | macos/leveldb-library-src/table/table_builder.cc:229-238 | the last index entry completes the index |
| TableBuilders.TableBuilder.AddIndexEntry | macos/leveldb-library-src/table/table_builder.cc:102-109 | the entry's key separates the blocks and its value is the handle of the block before |
| TableBuilders.TableBuilder.Add | macos/leveldb-library-src/table/table_builder.cc:94-123 | the table under way holds exactly the pairs so far and this one; the data block is written out exactly when it has reached the block size |
| TableBuilders.TableBuilder.Flush | macos/leveldb-library-src/table/table_builder.cc:125-139 | the same pairs, none of them left in the block being filled |
| TableBuilders.TableBuilder.WriteRawBlock | macos/leveldb-library-src/table/table_builder.cc:177-194 | contents, type and checksum are appended; the handle points to them |
| TableBuilders.TableBuilder.Finish | macos/leveldb-library-src/table/table_builder.cc:198-253 | a complete table file of exactly the pairs that were added |
| Tables.LaterAnswerShowsHere | macos/leveldb-library-src/table/table.cc:216-244 | if a later block holds a version the lookup wants, the block the index leads to holds one too |
| Tables.FilterRulesOut | macos/leveldb-library-src/table/table.cc:224-228 | what the filter rules out is in no block |
| Tables.BlockDelivers | macos/leveldb-library-src/table/table.cc:229-236 | the first entry of the block at or past the key is the first of the table |
| Tables.Table.Open | macos/leveldb-library-src/table/table.cc:38-82 | a complete table opens, with a filter if and only if it has one of the policy's name |
| Tables.Table.ReadMeta | macos/leveldb-library-src/table/table.cc:84-111 | a filter is used if and only if the table has one and it is the policy's |
| Tables.Table.InternalGet | macos/leveldb-library-src/table/table.cc:216-244 | delivers the first entry at or past the lookup key; if the table has a version of its user key there, that is what it delivers, filter or not; where the filter rules the block out nothing is delivered |
| Tables.DeliveredIsNewest | macos/leveldb-library-src/table/table.cc:216-244 | so what is delivered is the newest version of the user key that the sequence admits, and only then has that user key |
| Tables.BuildTable | macos/leveldb-library-src/db/builder.cc:17-77 | a complete table of exactly the pairs; no file for none |
| Tables.BuildAndGet | macos/leveldb-library-src/table/table.cc:216-244 | end to end from ordered pairs through the bytes of the file to the newest version |
| VersionEdits.ParseInvertsEncode | macos/leveldb-library-src/db/version_edit.cc:41-205 | encoded fields read back |
| VersionEdits.AcceptedFieldsAreValid | macos/leveldb-library-src/db/version_edit.cc:87-205 | whatever the bytes, a field that decoding accepts has a level, numbers and strings that an edit may have |
| VersionEdits.InsertPairInserts | macos/leveldb-library-src/db/version_edit.cc:170-176 | deleted files stay a sorted set, in whatever order they are decoded |
| VersionEdits.ApplyInvertsFields | macos/leveldb-library-src/db/version_edit.cc:107-205 | the fields of an edit make the edit |
| VersionEdits.DecodeInvertsEncode | macos/leveldb-library-src/db/version_edit.cc:41-205 | an edit reads back into a fresh one; into a used one its old compaction pointers stay in front |
| VersionEdits.UsedEditDecodesWrong | macos/leveldb-library-src/db/version_edit.cc:26-39 | decoding is right if and only if the edit had no compaction pointers before |
| VersionEdits.VersionEdit.EncodeTo | macos/leveldb-library-src/db/version_edit.cc:41-85 | the encoding of the edit's fields in order |
| VersionEdits.VersionEdit.DecodeFrom | macos/leveldb-library-src/db/version_edit.cc:107-205 | for any bytes, the fields up to the first that makes no sense, and whether all did |
| Manifest.DecodeRecords | macos/leveldb-library-src/db/version_set.cc:925-964 | for any records: unless one does not decode, the edits and, for each of the four counters, the value in the last edit that has it, or the reason to refuse: an edit of another comparator, or a counter that no edit has; and never success if one does not decode |
| Manifest.CountersAreTheLast | macos/leveldb-library-src/db/version_set.cc:938-963 | for every list of edits, each counter kept while reading it is the one of the last edit that has it, and unknown if none has |
| Manifest.LastRecordedIff | macos/leveldb-library-src/db/version_set.cc:938-963 | a counter is n if and only if some edit sets it to n and no later edit sets it |
| Manifest.Replay | macos/leveldb-library-src/db/version_set.cc:886-1011 | of a manifest cut anywhere exactly the edits that are there as a whole count, and of each counter the last value among them |
| Manifest.AddEdit | macos/leveldb-library-src/db/version_set.cc:845-851 | the manifest is the log of the edits so far and this one |
| VersionRecovery.ReplayRebuilds | macos/leveldb-library-src/db/version_set.cc:924-998 | the first edits of a manifest, in one builder, give the version as of the last of them |
| VersionRecovery.Recover | macos/leveldb-library-src/db/version_set.cc:886-1011 | from the bytes of a manifest cut anywhere to the files of every level of the version, as of the last edit that is there as a whole, and to the counters recorded last up to it |
| MemTables.EntryReadsBack | macos/leveldb-library-src/db/memtable.cc:75-98 | a packed entry gives back internal key and value |
| MemTables.OrderOfWrites | macos/leveldb-library-src/db/memtable.cc:28-34 | packed entries are ordered by user key, then newest first |
| MemTables.MemTable.Add | macos/leveldb-library-src/db/memtable.cc:75-98 | one more write, in its place |
| MemTables.MemTable.Get | macos/leveldb-library-src/db/memtable.cc:100-133 | the newest write of the user key that the sequence admits, or that there is none |
| KnownBytes.VarintSamples | macos/leveldb-library-src/util/coding.cc:47-73 | numbers around the first change of width, byte for byte |
| KnownBytes.BatchSample | macos/leveldb-library-src/db/write_batch.cc:5-14 | a batch of a value and a deletion, byte for byte |
| KnownBytes.InternalKeySample | macos/leveldb-library-src/db/dbformat.cc:14-23 | an internal key of either kind, byte for byte; the largest sequence fills its 56 bits |
| KnownBytes.EditSample | macos/leveldb-library-src/db/version_edit.cc:14-85 | an edit with a field of every kind, byte for byte |
| KnownBytes.RefusedSamples | macos/leveldb-library-src/db/version_edit.cc:97-105 | level 6 is accepted; level 7, an unused tag and half a field are refused |
| KnownBytes.FragmentSamples | macos/leveldb-library-src/db/log_writer.cc:34-82 | every record of at most three blocks is cut at 32761 bytes, with the marks full, or first, middle and last |
| KnownBytes.LogSample | macos/leveldb-library-src/db/log_format.h:14-32 | a log of one short record, byte for byte but for the checksum, which is the masked one of kind and payload |
| KnownBytes.MaskSamples | macos/leveldb-library-src/util/crc32c.h:22-32 | masked checksums of single bits |
| KnownBytes.FooterMagic | macos/leveldb-library-src/table/format.h:74-77 | every footer is 48 bytes long and ends with the eight magic bytes |
| KnownBytes.OtherMagic | macos/leveldb-library-src/table/format.cc:42-51 | a footer is refused for its magic number if and only if its last eight bytes are not these |
| KnownBytes.HashSamples | macos/leveldb-library-src/util/hash_test.cc:25-29 | the published hashes of keys of zero to four bytes |
| KnownBytes.ProbeSamples | macos/leveldb-library-src/util/bloom.cc:28-79 | probes step by the hash turned by 17 bits, wrap at 32 bits and take the remainder |

## Left out

- Engine.DBImpl.Write: asks that the sequences stay below the largest one, because the source does not check that they do and takes that sequence for its marker; `Compactions.Compaction.ShouldDrop` says what it then drops. User keys are integers and values strings.
- Engine.DBImpl.CompactFiles: promises the invariant after a compaction only if the step brings nothing back, because of the inputs left open at the next level; `BoundaryGap.ResurrectsFromNextLevel` is the exact condition and `DeletedValue.DeletedValueComesBack` a run that meets it.
- Engine.DBImpl.CompactMemTable: a flush in the middle of a compaction is not a step of the engine's machine; flush and compaction are each one step against the version they are installed on. `ObsoleteFiles` has the flush inside a compaction, for the lifetime of files.
- Engine.DBImpl.ChooseCompaction: which level is too full and which file had too many seeks are parameters; how sizes, scores and seek counts are kept is not modelled.
- Engine.DBImpl.Recover: starts from logs and counters as lists; that a log or manifest cut in the middle of a record gives a prefix of these lists is `LogReader.Reader.ReadAll` and `Manifest.Replay`.
- Compactions.Compaction.DoCompactionWork: where output files are cut (overlap with grandparents, file size) is left open; keys that do not parse are not modelled.
- Merger.MergingIterator.Next: its children are plain cursors over sorted runs, and the inner iterator of `DbIter.DBIter` is one too; that the iterators in these places equal such cursors is proved for each of them, and `DatabaseIterators` composes what they show, not the objects.
- SkipList.SkipList.Insert: links are a sequence per node and each store one step of a sequentially consistent memory; heights are any choice.
- HandleTable.Table.FindPointer: handles are numbers with a map for their links, and the bucket is the remainder of the hash by the length; for the lengths in use, powers of two, that is the mask of the source.
- LruCache.Cache.Insert: handles are numbers, the two circular lists maps from handle to neighbour; sharding is not modelled.
- VersionLists.VersionSet.AppendVersion: the circular list of versions is a sequence of version objects; the snapshot list of the engine is a sequence as well.
- ObsoleteFiles.EveryHeldTableIsOnDisk: versions are sets of table numbers without levels and keys; logs, manifests and temporary files are in `VersionLists.VersionSet.DeleteObsoleteFiles` only.
- WriteQueueSteps.EveryRunLogsAhead: a failed append leaves no bytes behind in the model; bytes of a torn record are a matter of the log reader.
- GroupCommit.CommitQueue.LeaveAlone: nothing is claimed about a null batch forcing a flush, since another group may take it along.
- WriteBatches.WriteBatch.Put: batches hold fewer than 2^31 writes, because the source adds to the count as a signed 32-bit number, for which more is undefined; the same holds for `WriteBatches.WriteBatch.Delete` and `WriteBatches.WriteBatch.Append`.
- EngineWrites.ReadsFindTheNewestBatch: for queues in which no batch has failed, because the engine's machine numbers acknowledged writes without gaps; `WriteQueueSteps.EveryRunAppliesInQueueOrder` holds with failures as well.
- Tables.Table.InternalGet: blocks are uncompressed, the block cache and the table cache are not modelled, and nothing is promised for files a builder did not make.
- BlockIters.Iter.Seek: on bytes that no builder made it is only promised to stop; where an accepted entry goes on past the block, what the source does is not defined, and the model records that and stops.
- LogReader.Reader.ReadAll: starts at offset 0; what is salvaged after corrupted fragments is not specified.
- Crc32c.Extend: the tables are defined by the polynomial's recurrence and the hardware path is left out.
- MemTables.MemTable.Add: the sorted sequence stands for the skip list of `SkipList`; the arena is not modelled.
- VersionRecovery.Recover: for files that are the beginning of a manifest; how key bounds are decoded and what a table file holds are parameters.
- The operating system layer, loggers, `port/`, Snappy, repair, the dump and benchmark tools, the C bindings and the Flutter application around the library are not part of this model.
- I/O succeeds except where a step takes its outcome as a parameter (log append, sync, table building, manifest writing).
