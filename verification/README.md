# A verified model of the storage engine and codec vendored in QuickNote

The QuickNote app carries, under `Pods`, the LevelDB storage engine and the nanopb
protobuf codec.  This project models both and proves what they are for.

LevelDB keeps many versions of each user key, as entries of user key, sequence number
and type, in two memtables and seven levels of sorted files.  The one specification all
reads share is `Lookup.Answer`: the newest entry of a key with a sequence number at most
the snapshot's.

* `Keys`, `Lookup`: internal keys, their order, and that specification.  A user key is a
  point of a dense order; byte strings under the bytewise comparator embed into it.
* `Versions`, `Inputs`, `Install`, `Compaction`, `CompactionMeaning`: lookups in a version,
  the choice of compaction inputs, flushes, the compaction loop, and what it preserves.
* `Databases`: whole runs.  A read at a live snapshot answers from all that was ever
  written, however often the data has been flushed and compacted, exactly as long as
  every compaction is harmless; `LostDeletion` is a run with one that is not.
* `Cursors`, `Merging`, `DbIterator`, `OpenIterators`: iterators.  `Cursor` is an iterator over one
  sorted run; `MergingIterator` keeps the same contract over the union of several; `DBIter`
  turns it into a cursor over the live keys of a snapshot; and opened over the runs of a
  database, it shows what was written.
* `GroupCommit`, `Writers`, `Retention`, `SkipLists`: the protocols, as state machines whose steps
  are cut where the mutex is taken or given up (single pointer reads and writes for the
  skip list).  `GroupCommit` tells the story of the leader; `Writers` gives each thread its
  wait loop, and shows that together they play that story.
* `LinearMaps`, `Crc`, `Log`, `LogRoundTrip`, `LogDamage`, `Coding`, `VersionEdits`, `Manifest`, `Recovery`:
  the checksum, the log whole, cut and damaged, the manifest, and recovery after a crash at any byte.
* `Blocks`, `BlockIterators`, `Filters`, `Tables`: table files.
* `HandleTables`, `LruCaches`: the cache shard.
* `PbWire`, `PbSchema`, `PbEncode`, `PbDecode`, `PbRoundTrip`, `PbPieces`, `PbFits`: nanopb; what its decoder
  makes of encodings, whole, in pieces and among unknown fields, and of any input at all.

Where the code departs from its intent, the model follows the code.  `SetupOtherInputs` closes
the inputs of the upper level under shared boundary user keys, and not those of the parent
level.  So compaction does not always preserve reads.

* `CompactionPreservesUnlessSplit` says exactly when it does: unless the parent inputs end in a
  file that holds the deletion marker everybody sees of a user key, and the next file starts
  with an older value of it.  There is at most one such key (`OneKeySplits`).
* `ResurrectionHappens`: on a concrete version, however its level 1 is compacted, a deleted key
  reads its old value again; `PickExposed` is what the code picks there.
* `DeletedKeyComesBack`: that version is reached by a run of writes, flushes and one compaction.
* `RunIsFaithfulIff` is the exact condition for whole runs, and `ReadsSurvive` what follows;
  `ClosedIsHarmless` gives a test on the parent inputs that suffices.

Replaying a manifest in one go is not for every list of edits the same as saving after each:
the builder tells files apart by number.  `ReplayIff` gives the exact condition, and
`ReaddingBreaksReplay` an input that fails it.  Numbers taken fresh, as the engine takes them,
always meet it (`ReplayEqualsHistory`).

Other things the model takes over as they are:

* A log record of type 5 or 6 is taken for the reader's own codes for end of file and bad record.
* nanopb encodes a string that fills its field without a terminator, and does not decode it again.
* A write without a batch that is not at the head of the queue is acknowledged with the group it
  rides in, and forces nothing.
* The last sequence number advances past a group whose log append failed; its numbers stay unused.
* `VersionSet::Recover` overwrites, on success, the file number that it has just marked as used.

Inputs of the model: the hash of the Bloom filter and the cache, the height of a skip list node,
when a block is full and how long it is, whether an append, a sync or a manifest write fails, the
moment of a crash, and the table that a manifest record names.  A compaction takes an oldest
snapshot below the largest sequence number, which the loop uses as its mark for "none yet".
Numbers and sizes are unbounded unless the code cuts them: registers of the checksum, varints,
casts and the zig-zag mapping have the widths of the source.

## Model

| member | source | states |
|---|---|---|
| Keys.RankIsEmbedding | QuickNote/Pods/leveldb-library/util/comparator.cc:25-27 | The numeric rank of a byte string orders strings exactly as the bytewise comparator does, and tells different strings apart; so user keys may be points of a dense order everywhere else. |
| Keys.BytesOrderIsTotal | QuickNote/Pods/leveldb-library/util/comparator.cc:25-27 | The bytewise order is irreflexive, total and transitive. |
| Keys.FindShortestSeparator | QuickNote/Pods/leveldb-library/util/comparator.cc:29-50 | The separator is no longer than the start, and either the start itself or strictly between start and limit; it is shortened exactly when the first byte that differs can be raised by one and stay below the limit's, and then ends in the raised byte. |
| Keys.FindShortSuccessor | QuickNote/Pods/leveldb-library/util/comparator.cc:52-65 | The successor is no longer than the key and not below it; it ends in the first byte that is not 0xff, raised by one, and equals the key only if there is none. |
| Keys.PackedOrder | QuickNote/Pods/leveldb-library/db/dbformat.cc:14-18 | Comparing packed trailers is the order: user key up, sequence number down, type down. |
| Keys.FindShortestInternalSeparator | QuickNote/Pods/leveldb-library/db/dbformat.cc:69-86 | An internal separator is at or after the start and before the limit; it is shortened exactly when the user key becomes shorter, and then has the largest sequence number. |
| Keys.FindShortInternalSuccessor | QuickNote/Pods/leveldb-library/db/dbformat.cc:88-101 | An internal successor is at or after the key; a shortened one has a shorter user key and the largest sequence number. |
| Versions.VersionsAreDistinct | QuickNote/Pods/leveldb-library/db/version_set.cc:326-421 | A valid version holds no two entries of one user key and sequence number, whatever files they are in. |
| Versions.FindFile | QuickNote/Pods/leveldb-library/db/version_set.cc:88-106 | The binary search finds the first file whose largest key is at or after the key. |
| Versions.OverlappingNewestFirst | QuickNote/Pods/leveldb-library/db/version_set.cc:350-366 | The level-0 candidates are exactly the files whose range covers the user key, newest number first. |
| Versions.LevelGet | QuickNote/Pods/leveldb-library/db/version_set.cc:340-410 | The files of one level, searched in order up to the first hit, give the level's newest visible entry, or nothing when none is visible. |
| Versions.HitIsNewest | QuickNote/Pods/leveldb-library/db/version_set.cc:326-421 | A hit in one level is the newest visible entry of the whole version once the levels above showed none. |
| Versions.Get | QuickNote/Pods/leveldb-library/db/version_set.cc:326-421 | Version::Get, stopping at the first hit, answers the newest visible entry over all entries of all files, deletions included. |
| Inputs.GetOverlappingInputs | QuickNote/Pods/leveldb-library/db/version_set.cc:519-559 | At level 0 the restarts end, with exactly the files of the least range closed under user-key overlap; deeper, exactly the overlapping files in order. |
| Inputs.GetRange | QuickNote/Pods/leveldb-library/db/version_set.cc:1205-1224 | The range is spanned by the smallest and the largest key of the inputs. |
| Inputs.FindSmallestBoundaryFile | QuickNote/Pods/leveldb-library/db/version_set.cc:1344-1362 | The file found is the first, by smallest key, that starts after the key with the same user key; none is found only if there is none. |
| Inputs.AddBoundaryInputs | QuickNote/Pods/leveldb-library/db/version_set.cc:1378-1401 | The extension ends, adds one after the other the first boundary file of those so far and nothing else, and leaves no file that starts after the set's largest key with that user key. |
| Inputs.BoundaryFreeLeavesNoOlder | QuickNote/Pods/leveldb-library/db/version_set.cc:1364-1401 | A contiguous set of a sorted level with no boundary file left leaves behind no older entry of a user key it holds. |
| Inputs.SetupOtherInputs | QuickNote/Pods/leveldb-library/db/version_set.cc:1403-1462 | The two input sets leave no older entry behind in the level, and the parent inputs are exactly the files that overlap the user keys which the upper inputs span; the upper inputs grow by more than boundary files only within the size limit. |
| Inputs.PickCompaction | QuickNote/Pods/leveldb-library/db/version_set.cc:1302-1321 | A picked compaction of any level holds the picked file, leaves no older entry behind in its level, and takes exactly the parent files its inputs overlap. |
| Inputs.CompactRange | QuickNote/Pods/leveldb-library/db/version_set.cc:1464-1495 | A manual compaction of a range takes, outside level 0, as many overlapping files as it needs to reach the size limit, and at level 0 all of them; its inputs are chosen so, or no file overlaps the range. |
| Install.SomeFileOverlapsRange | QuickNote/Pods/leveldb-library/db/version_set.cc:122-157 | True exactly when some file of the level overlaps the user-key range, by scan or by binary search. |
| Install.SortedMeans | QuickNote/Pods/leveldb-library/db/version_set.cc:593-606 | A level's files are in the order of their smallest keys, and of their numbers where these are equal. |
| Install.PickLevelForMemTableOutput | QuickNote/Pods/leveldb-library/db/version_set.cc:491-516 | The flushed table goes down as far as it may, two levels at most: it stays at level 0 when it overlaps a file there, and goes on exactly as long as it overlaps no file of the next level and not too many bytes of the one after; no file down to its level overlaps it. |
| Install.FlushKeepsVersion | QuickNote/Pods/leveldb-library/db/version_set.cc:491-516 | A table newer than all files, placed so, leaves a valid version that holds exactly the old entries and the table's. |
| Compaction.CompactionState.IsBaseLevelForKey | QuickNote/Pods/leveldb-library/db/version_set.cc:1533-1552 | Over rising user keys, the scan with advancing level pointers answers whether no file two or more levels down covers the key. |
| Compaction.CompactionState.DoCompactionWork | QuickNote/Pods/leveldb-library/db/db_impl.cc:878-1010 | The loop writes, cut into valid output files, exactly the entries that the two drop rules keep. |
| Compaction.KeptMembers | QuickNote/Pods/leveldb-library/db/db_impl.cc:938-974 | An entry is kept exactly when it is neither hidden by a newer one at or below the oldest snapshot nor an obsolete deletion. |
| Compaction.KeptIsSorted | QuickNote/Pods/leveldb-library/db/db_impl.cc:938-974 | What is kept is still sorted, and what follows in the input is after it. |
| CompactionMeaning.DropRulesPreserveIff | QuickNote/Pods/leveldb-library/db/db_impl.cc:938-974 | The drop rules preserve every read at or above the oldest snapshot if and only if no user key is resurrected by an entry left behind. |
| CompactionMeaning.CompactionKeepsVersion | QuickNote/Pods/leveldb-library/db/db_impl.cc:860-876 | Whatever entries of the inputs the outputs hold, installing them leaves a valid version. |
| CompactionMeaning.CompactionPreservesIff | QuickNote/Pods/leveldb-library/db/db_impl.cc:878-1010 | A compaction with well-chosen inputs preserves all reads at or above the oldest snapshot exactly when no user key is resurrected. |
| CompactionMeaning.ResurrectsIff | QuickNote/Pods/leveldb-library/db/version_set.cc:1403-1462 | A key is resurrected exactly when the parent inputs end in a file that holds its deletion marker, the newest everybody sees, and the next parent file starts with a value of it. |
| CompactionMeaning.OneKeySplits | QuickNote/Pods/leveldb-library/db/version_set.cc:1403-1462 | At most one user key of a compaction can be in that case. |
| CompactionMeaning.CompactionPreservesUnlessSplit | QuickNote/Pods/leveldb-library/db/db_impl.cc:878-1010 | A compaction leaves a valid version, and preserves all reads at or above the oldest snapshot exactly when it splits no key so. |
| CompactionMeaning.SplitChangesRead | QuickNote/Pods/leveldb-library/db/db_impl.cc:938-974 | A split key reads as deleted before the compaction, and as the first value after the boundary afterwards. |
| CompactionMeaning.ClosedParentsPreserve | QuickNote/Pods/leveldb-library/db/version_set.cc:1403-1462 | If the parent inputs end at a user-key boundary, the compaction preserves all reads at or above the oldest snapshot. |
| CompactionMeaning.PickExposed | QuickNote/Pods/leveldb-library/db/version_set.cc:1302-1321 | On a concrete version, PickCompaction takes the upper file and, of two parent files that share a user key, only the first, under any size limit. |
| CompactionMeaning.ResurrectionHappens | QuickNote/Pods/leveldb-library/db/version_set.cc:1403-1462 | On that version every compaction of level 1, whatever its outputs, makes a read of the deleted key find its old value again. |
| CompactionMeaning.TrivialMovePreserves | QuickNote/Pods/leveldb-library/db/version_set.cc:1515-1523 | Moving the only input file down keeps the version valid and its entries the same. |
| Databases.GetReadsStore | QuickNote/Pods/leveldb-library/db/db_impl.cc:1100-1136 | Reading memtable, immutable memtable and files in turn answers the newest visible entry over all of them. |
| Databases.FlushKeepsStore | QuickNote/Pods/leveldb-library/db/db_impl.cc:491-566 | A flush keeps the layering, the version and the entries of the store; that its table is newer than all files is derived. |
| Databases.CompactKeepsReadsIff | QuickNote/Pods/leveldb-library/db/db_impl.cc:878-1060 | A compaction under any oldest snapshot at or below the live ones keeps every read from it on exactly when it splits no key behind its marker that the memtables do not cover. |
| Databases.ClosedIsHarmless | QuickNote/Pods/leveldb-library/db/version_set.cc:1403-1462 | Parent inputs that end at a user-key boundary are harmless. |
| Databases.RunIsFaithfulIff | QuickNote/Pods/leveldb-library/db/db_impl.cc:878-1060 | A run answers every read at or above the oldest snapshot from all that was written, in all its states, exactly when its compactions are harmless. |
| Databases.ReadsSurvive | QuickNote/Pods/leveldb-library/db/db_impl.cc:1100-1145 | In every run of writes, rotations, flushes, compactions, moves and snapshots, the version stays valid and a read answers from the whole store; if the compactions were harmless, a read at the current sequence number or at a live snapshot answers from all that was ever written. |
| LostDeletion.DeletedKeyComesBack | QuickNote/Pods/leveldb-library/db/version_set.cc:1403-1462 | A legal run reaches the concrete version; one more compaction, and the deleted key reads its old value, though nothing was written. |
| Merging.MergeExists | QuickNote/Pods/leveldb-library/table/merger.h:13-22 | There is a union of the children to iterate over: sorted runs with no version in common have one that is sorted, covers each and splits into them. |
| Merging.MergingIterator.Seek | QuickNote/Pods/leveldb-library/table/merger.cc:47-53 | Seek stands at the lower bound of the target in the sorted union of the children. |
| Merging.MergingIterator.SeekToFirst | QuickNote/Pods/leveldb-library/table/merger.cc:31-37 | Stands at the first entry of the union. |
| Merging.MergingIterator.SeekToLast | QuickNote/Pods/leveldb-library/table/merger.cc:39-45 | Stands at the last entry of the union, or is not valid when it is empty. |
| Merging.MergingIterator.Next | QuickNote/Pods/leveldb-library/table/merger.cc:55-79 | From any direction, moves to the next entry of the union. |
| Merging.MergingIterator.Prev | QuickNote/Pods/leveldb-library/table/merger.cc:81-108 | From any direction, moves to the entry before, or becomes not valid at the first. |
| Merging.MergingIterator.Key | QuickNote/Pods/leveldb-library/table/merger.cc:110-113 | Shows the key of the union at the current position. |
| Merging.AfterCurrent | QuickNote/Pods/leveldb-library/table/merger.cc:63-76 | On turning forward, every other child lands at the first of its entries after the current key. |
| Merging.BeforeCurrent | QuickNote/Pods/leveldb-library/table/merger.cc:89-105 | On turning backward, every other child lands at the last of its entries before the current key. |
| DbIterator.ViewIsSnapshot | QuickNote/Pods/leveldb-library/db/db_iter.cc:141-299 | The view the iterator walks is sorted, and holds a key and value exactly when a point read at the snapshot finds that value. |
| DbIterator.DBIter.Next | QuickNote/Pods/leveldb-library/db/db_iter.cc:141-198 | From either direction, moves one position on in the view. |
| DbIterator.DBIter.Prev | QuickNote/Pods/leveldb-library/db/db_iter.cc:200-267 | From either direction, moves one position back in the view, or off it at the first. |
| DbIterator.DBIter.Seek | QuickNote/Pods/leveldb-library/db/db_iter.cc:269-281 | Stands at the first key of the view at or after the target. |
| DbIterator.DBIter.SeekToFirst | QuickNote/Pods/leveldb-library/db/db_iter.cc:283-292 | Stands at the first key of the view. |
| DbIterator.DBIter.SeekToLast | QuickNote/Pods/leveldb-library/db/db_iter.cc:294-299 | Stands at the last key of the view. |
| DbIterator.DBIter.Key | QuickNote/Pods/leveldb-library/db/db_iter.cc:64-67 | Shows the view's key, from the internal iterator going forward and from the saved copy going backward. |
| DbIterator.DBIter.Value | QuickNote/Pods/leveldb-library/db/db_iter.cc:68-71 | Shows the view's value in both directions. |
| DbIterator.DBIter.Run | QuickNote/Pods/leveldb-library/db/db_iter.cc:141-299 | Any sequence of calls, with any changes of direction, ends where a cursor over the sorted view would be. |
| OpenIterators.IteratorsSurvive | QuickNote/Pods/leveldb-library/db/db_impl.cc:1062-1087 | In every run with harmless compactions, the view of an iterator over the memtables and files, at the current sequence number or a live snapshot, holds exactly what all the writes give there. |
| OpenIterators.ReadDatabase | QuickNote/Pods/leveldb-library/db/db_impl.cc:1147-1157 | A user iterator over a merging iterator over those runs, walked from first to last, yields exactly the live keys and values, in key order. |
| Crc.Extend | QuickNote/Pods/leveldb-library/util/crc32c.cc:276-377 | For every buffer and alignment, the four-lane algorithm returns the CRC-32C that taking one bit at a time defines. |
| Crc.ExtendedConcat | QuickNote/Pods/leveldb-library/util/crc32c.h:14-17 | Extending by one string and then another is extending by both. |
| LinearMaps.SwathStep | QuickNote/Pods/leveldb-library/util/crc32c.cc:296-313 | A stride on each lane and a word into each is what reading the four words in order does to the register the lanes stand for. |
| LinearMaps.RotateStep | QuickNote/Pods/leveldb-library/util/crc32c.cc:349-358 | The same for one word and a rotation of the lanes. |
| Crc.TableStep | QuickNote/Pods/leveldb-library/util/crc32c.cc:289-294 | The table-driven byte step is eight bit steps. |
| Crc.WordIsFourSteps | QuickNote/Pods/leveldb-library/util/crc32c.cc:315-323 | A word loaded little-endian advances the register as its four bytes do. |
| Crc.DetectsBursts | QuickNote/Pods/leveldb-library/util/crc32c.cc:276-377 | Two strings that differ only within four consecutive bytes have the same CRC only if they are equal. |
| Crc.CheckValue | QuickNote/Pods/leveldb-library/util/crc32c.cc:246-377 | The digits "123456789" have the check value of CRC-32C, which fixes the polynomial. |
| Crc.UnmaskUndoesMask | QuickNote/Pods/leveldb-library/util/crc32c.h:24-38 | Unmasking a masked CRC gives it back. |
| Crc.MaskUndoesUnmask | QuickNote/Pods/leveldb-library/util/crc32c.h:24-38 | Masking an unmasked word gives it back. |
| Crc.MaskedCheckValue | QuickNote/Pods/leveldb-library/util/crc32c.h:22-32 | The masked check value, which fixes the rotation and the delta. |
| Log.Writer.AddRecord | QuickNote/Pods/leveldb-library/db/log_writer.cc:34-80 | Appends the record's fragments as the format lays them out from the current block offset, trailers included. |
| Log.Writer.EmitPhysicalRecord | QuickNote/Pods/leveldb-library/db/log_writer.cc:82-110 | Appends the header, with the masked CRC of type and payload, and the payload. |
| Log.Reader.ReadRecord | QuickNote/Pods/leveldb-library/db/log_reader.cc:56-174 | Returns the next record, leaves the state and makes the reports that reading fragments one at a time prescribes, for every file content; the rows of LogRoundTrip and LogDamage say what that comes to. |
| Log.Reader.ReadPhysicalRecord | QuickNote/Pods/leveldb-library/db/log_reader.cc:189-271 | One physical read of any file content: type, fragment, state left and bytes reported. |
| LogRoundTrip.WriteLog | QuickNote/Pods/leveldb-library/db/log_writer.cc:34-110 | Adding records one after the other writes exactly their log. |
| LogRoundTrip.ExampleFragments | QuickNote/Pods/leveldb-library/db/log_writer.cc:34-80 | Records of 1000, 97270 and 8000 bytes become five fragments, of types 1, 2, 3, 4 and 1, cut where the blocks end. |
| LogRoundTrip.ExampleBytes | QuickNote/Pods/leveldb-library/db/log_format.h:14-30 | The length and type bytes of a header, and a trailer of six bytes. |
| LogRoundTrip.ReadLog | QuickNote/Pods/leveldb-library/db/log_reader.cc:56-174 | Reading to the end returns exactly the records and reports that the state function yields. |
| LogRoundTrip.LogRoundTrip | QuickNote/Pods/leveldb-library/db/log_reader.cc:56-271 | The log of any records reads back as those records, with nothing reported. |
| LogRoundTrip.CutLogReadsCompleteRecords | QuickNote/Pods/leveldb-library/db/log_reader.cc:138-145 | Cut after any byte, a log reads back as exactly the records that were complete by then, with nothing reported. |
| LogRoundTrip.CompleteIs | QuickNote/Pods/leveldb-library/db/log_reader.cc:138-145 | A number of records is complete by a byte exactly when their own log is no longer than that. |
| LogRoundTrip.DamageIsReported | QuickNote/Pods/leveldb-library/db/log_reader.cc:239-255 | Damage to a payload within four consecutive bytes is always reported and the rest of the buffer dropped. |
| LogDamage.DamagedLogLosesOnlyItsBlock | QuickNote/Pods/leveldb-library/db/log_reader.cc:56-271 | A log with damage in four consecutive payload bytes of one fragment reads back as the records before the damaged one and those that start after its block, and no others; reported are the rest of the block, what there was of the damaged record, and each later fragment whose record has lost its start. |
| LogDamage.AbandonedRecord | QuickNote/Pods/leveldb-library/db/log_reader.cc:92-121 | After a record without an end, the records that follow are read, and its bytes reported if there are any. |
| LogDamage.UnknownFragment | QuickNote/Pods/leveldb-library/db/log_reader.cc:161-170 | A fragment of unknown type is reported together with what there was of the record it stands in, and reading goes on behind it. |
| Coding.EncodeVarint32 | QuickNote/Pods/leveldb-library/util/coding.cc:47-73 | The unrolled encoder writes the base-128 digits. |
| Coding.EncodeVarint64 | QuickNote/Pods/leveldb-library/util/coding.cc:81-90 | The looping encoder writes the base-128 digits. |
| Coding.VarintLength | QuickNote/Pods/leveldb-library/util/coding.cc:103-110 | Counts the bytes that the encoding takes. |
| Coding.DecodeVarint | QuickNote/Pods/leveldb-library/util/coding.cc:112-169 | The shifting decoder returns the number its digits spell, cut to the word, and the rest, for every input. |
| Coding.VarintRoundTrip | QuickNote/Pods/leveldb-library/util/coding.cc:112-169 | Decoding an encoded number gives it and what followed. |
| Coding.VarintStops | QuickNote/Pods/leveldb-library/util/coding.cc:112-169 | A varint ends with its first byte below 128, which must come within five bytes for a 32-bit word and ten for a 64-bit one; otherwise it is refused. |
| Coding.FixedRoundTrip | QuickNote/Pods/leveldb-library/util/coding.h:60-86 | A fixed-width number reads back. |
| Coding.LengthPrefixedRoundTrip | QuickNote/Pods/leveldb-library/util/coding.cc:171-192 | A length-prefixed slice reads back, and what followed. |
| VersionEdits.EncodeTo | QuickNote/Pods/leveldb-library/db/version_edit.cc:41-85 | Writes the tagged fields of the edit in order. |
| VersionEdits.DecodeFrom | QuickNote/Pods/leveldb-library/db/version_edit.cc:107-205 | For every input, decodes field by field up to the first malformed one. |
| VersionEdits.EditRoundTrip | QuickNote/Pods/leveldb-library/db/version_edit.cc:41-205 | Decoding an encoded edit gives the edit, in whatever order its deleted files were walked. |
| VersionEdits.SampleBytes | QuickNote/Pods/leveldb-library/db/version_edit.cc:14-85 | An edit with a field of every kind, byte by byte, which fixes the tags and the order of the fields. |
| Manifest.Builder.Apply | QuickNote/Pods/leveldb-library/db/version_set.cc:650-692 | Applies an edit to every level: deletions first, and additions revive their numbers. |
| Manifest.Builder.SaveTo | QuickNote/Pods/leveldb-library/db/version_set.cc:695-752 | Saves each level as the merge of base and added files without the deleted ones. |
| Manifest.SortedIsUnique | QuickNote/Pods/leveldb-library/db/version_set.cc:593-606 | Sorted file lists with the same members are the same list. |
| Manifest.ReplayEqualsHistory | QuickNote/Pods/leveldb-library/db/version_set.cc:650-754 | One builder fed all edits and saved once gives the level that saving after every edit gives, when no number is added twice. |
| Manifest.HistoryHolds | QuickNote/Pods/leveldb-library/db/version_set.cc:650-754 | A level holds exactly the files that were there, or were added, and whose number no later edit deletes. |
| Manifest.SavedEditInstalls | QuickNote/Pods/leveldb-library/db/version_set.cc:695-754 | Saving one edit deletes and adds exactly its files and keeps the level sorted. |
| Manifest.ReplayIff | QuickNote/Pods/leveldb-library/db/version_set.cc:650-754 | For edits that add no live number, one replay equals saving after every edit exactly when each file live at the end is alone under its number: a base file whose number was never added, or the first added file of a number that no base file bears and all of whose files start alike. |
| Manifest.ReaddingBreaksReplay | QuickNote/Pods/leveldb-library/db/version_set.cc:650-754 | A number deleted from the base and added again for another valid table revives the old one in a single replay. |
| Manifest.Replay | QuickNote/Pods/leveldb-library/db/version_set.cc:900-1000 | Recovery's use of the builder gives, level by level, the history of the edits. |
| Recovery.DecodedLevels | QuickNote/Pods/leveldb-library/db/version_edit.cc:97-105 | The decoder lets no level out of range through to the builder. |
| Recovery.Recover | QuickNote/Pods/leveldb-library/db/version_set.cc:886-1011 | For every manifest content: failure if a corruption was reported or a record cannot be decoded or has another comparator; otherwise the replayed version with, for each counter, the number of the last edit that carries it, and failure if the next file, the log or the last sequence number is never carried. |
| Recovery.OutcomeIsUnderstood | QuickNote/Pods/leveldb-library/db/version_set.cc:886-1011 | When recovery fails, and what it restores otherwise, said of the records alone. |
| Recovery.OtherComparatorFails | QuickNote/Pods/leveldb-library/db/version_set.cc:935-943 | A manifest in which any edit names another comparator is not recovered. |
| Recovery.CountersAreLast | QuickNote/Pods/leveldb-library/db/version_set.cc:947-966 | Noting the counters edit by edit leaves, of each, the number of the last edit that carries it, or none. |
| Recovery.OneOutcome | QuickNote/Pods/leveldb-library/db/version_set.cc:947-1003 | The edits and the version leave recovery one outcome only. |
| Recovery.RecoversLastInstalled | QuickNote/Pods/leveldb-library/db/version_set.cc:799-1011 | After a crash at any byte of the manifest, recovery gives the version that the edits wholly written had led to, and of each counter the last number written; the previous log is 0 if never written, and the next file one more than the last number written for it. |
| Recovery.InstalledHolds | QuickNote/Pods/leveldb-library/db/version_set.cc:650-754 | A file is at a level of that version exactly when some edit adds it there and no later one deletes its number from that level. |
| GroupCommit.BuildBatchGroup | QuickNote/Pods/leveldb-library/db/db_impl.cc:1260-1306 | The group is the longest prefix of the queue that the size and sync rules allow, and its operations are those of its batches in order. |
| GroupCommit.GroupIsUnique | QuickNote/Pods/leveldb-library/db/db_impl.cc:1260-1306 | The queue alone decides the group. |
| GroupCommit.GroupIsBounded | QuickNote/Pods/leveldb-library/db/db_impl.cc:1260-1306 | A group keeps within 1 MB, or 128 KB more than a small leader, unless its leader alone exceeds that; nobody in it asks for a sync that the leader does not make; and it ends only with the queue or at a writer that would break these rules. |
| GroupCommit.EachWriterOnce | QuickNote/Pods/leveldb-library/db/db_impl.cc:1185-1254 | In every interleaving, each writer is acknowledged at most once, in the order of arrival, with its group's status, writer by writer; and no sync write rides with a leader that does not sync. |
| GroupCommit.SyncIsHonoured | QuickNote/Pods/leveldb-library/db/db_impl.cc:1205-1236 | An acknowledged sync write was in the log and the log synced; after a failed sync no write succeeds. |
| GroupCommit.FirstErrorStands | QuickNote/Pods/leveldb-library/db/db_impl.cc:640-646 | The first background error stands, and every write acknowledged from then on is told it, but for the group that was being written. |
| GroupCommit.ErrorHasCause | QuickNote/Pods/leveldb-library/db/db_impl.cc:1205-1232 | Only a failed sync or an error of a background thread makes a background error: a failed append does not. |
| GroupCommit.ReadsAreAtomic | QuickNote/Pods/leveldb-library/db/db_impl.cc:1100-1136 | In every interleaving, a read answers as the map made by the successful ones of a prefix of the groups: all of each, nothing of later or unfinished ones. |
| GroupCommit.ReadIsOfItsMoment | QuickNote/Pods/leveldb-library/db/db_impl.cc:1100-1136 | That prefix is the groups done when the read began: whenever it looks, it finds the map that they had made at that step of the run. |
| GroupCommit.ReadFindsLastWrite | QuickNote/Pods/leveldb-library/db/db_impl.cc:1100-1136 | A read finds the last word on its key among the writes that had succeeded when it began, and nothing if there was none. |
| GroupCommit.AcknowledgedPutIsFound | QuickNote/Pods/leveldb-library/db/db_impl.cc:1100-1136 | A put acknowledged before the read began, with no later word on its key by then, is what the read finds. |
| GroupCommit.StepKeepsInv | QuickNote/Pods/leveldb-library/db/db_impl.cc:1185-1370 | Every step of the leader, the background thread and readers keeps contiguous sequence ranges, the contents of log and memtable, the order of acknowledgements and the rules of sync. |
| Writers.AtMostOneLeads | QuickNote/Pods/leveldb-library/db/db_impl.cc:1185-1200 | Threads that leave the wait loop when done or at the front, and look at neither again, never lead two at a time; the one that leads is at the front. |
| Writers.ThreadsRefine | QuickNote/Pods/leveldb-library/db/db_impl.cc:1185-1254 | Every interleaving of the threads is a run of GroupCommit, so that what its runs keep the threads keep. |
| Writers.ThreadsLearnTheirStatus | QuickNote/Pods/leveldb-library/db/db_impl.cc:1238-1254 | A thread that is done or has returned has the one status it was acknowledged with, its group's. |
| Writers.NobodyIsStuck | QuickNote/Pods/leveldb-library/db/db_impl.cc:1192-1254 | As long as a thread has not returned, some thread can leave its wait loop or take a step as leader. |
| Retention.AddLiveFiles | QuickNote/Pods/leveldb-library/db/version_set.cc:1167-1177 | The live set is the pending outputs and all tables of all linked versions. |
| Retention.DeleteObsoleteFiles | QuickNote/Pods/leveldb-library/db/db_impl.cc:223-278 | After an error nothing is deleted; otherwise of the listed files exactly the logs below the log number other than the previous log, the manifests below the current one, and the tables and temporary files that are in no version and not pending; CURRENT, the lock and the info log never. |
| Retention.StepKeepsInv | QuickNote/Pods/leveldb-library/db/db_impl.cc:223-278 | Every step of opening, writers, readers, flushes, compactions and manifest writes, failing ones included, keeps all that recovery and readers need. |
| Retention.NothingNeededIsCollected | QuickNote/Pods/leveldb-library/db/db_impl.cc:223-278 | From any directory that recovery leaves, in every run: tables of linked versions and unfinished compactions exist, both memtables are backed by logs that are kept, and each committed entry is in one of the three places unless a compaction dropped it. |
| Retention.CrashLosesNothing | QuickNote/Pods/leveldb-library/db/db_impl.cc:535-566 | From any directory that recovery leaves, at any point of any run: the manifest that CURRENT names exists, so do its tables, and each committed entry that no compaction dropped is in one of them or in a log that recovery from it reads, the previous log included. |
| Retention.ErrorIff | QuickNote/Pods/leveldb-library/db/db_impl.cc:640-646 | The error is set by a failed table, compaction or manifest write or a sync that leaves the log in doubt, by nothing else, and stays. |
| Retention.ErrorKeepsFiles | QuickNote/Pods/leveldb-library/db/db_impl.cc:223-231 | Once something has failed, no log, table or manifest is deleted any more. |
| Retention.NamingKeepsInv | QuickNote/Pods/leveldb-library/db/version_set.cc:801-870 | Pointing CURRENT at the new manifest, and collecting after it, loses neither the old logs before nor the new manifest after. |
| Retention.NewDatabaseOpens | QuickNote/Pods/leveldb-library/db/db_impl.cc:177-221 | A new database is such a directory. |
| SkipLists.SkipList.FindGreaterOrEqual | QuickNote/Pods/leveldb-library/db/skiplist.h:261-281 | Finds the smallest node not below the key, and at every level the node after which it belongs. |
| SkipLists.SkipList.FindLessThan | QuickNote/Pods/leveldb-library/db/skiplist.h:284-302 | Finds the largest node below the key, or the head. |
| SkipLists.SkipList.FindLast | QuickNote/Pods/leveldb-library/db/skiplist.h:305-323 | Finds the last node, or the head. |
| SkipLists.SkipList.Insert | QuickNote/Pods/leveldb-library/db/skiplist.h:337-368 | Links the node at its levels and at no other; the list is sound after every link. |
| SkipLists.LinkKeepsSound | QuickNote/Pods/leveldb-library/db/skiplist.h:362-368 | Linking a node at one level keeps every level sorted and a subsequence of the one below. |
| SkipLists.ReadMovesOn | QuickNote/Pods/leveldb-library/db/skiplist.h:261-281 | Each read moves a search to a later node or one level down, never back. |
| SkipLists.ConcurrentSearch | QuickNote/Pods/leveldb-library/db/skiplist.h:261-281 | With links falling between its reads in any way, a search finds a node no later than any node at or after the target that was there when it began; a key that was there is found. |
| Blocks.BlockBuilder.Add | QuickNote/Pods/leveldb-library/table/block_builder.cc:72-106 | Adds an entry that shares the longest common prefix with the key before, or nothing at a restart point; there is one at every so many entries, counted from the first. |
| Blocks.BlockBuilder.Finish | QuickNote/Pods/leveldb-library/table/block_builder.cc:62-70 | The finished block is well formed and holds the added entries. |
| Blocks.SharedPrefix | QuickNote/Pods/leveldb-library/table/block_builder.cc:79-85 | Counts the longest common prefix. |
| BlockIterators.DecodesItem | QuickNote/Pods/leveldb-library/table/block.cc:54-74 | Both the one-byte fast path and the varint path read an entry's lengths back. |
| BlockIterators.Iter.Seek | QuickNote/Pods/leveldb-library/table/block.cc:163-201 | The binary search over restart points and the scan after it stop at the linear lower bound. |
| BlockIterators.Iter.Next | QuickNote/Pods/leveldb-library/table/block.cc:137-140 | Moves to the next entry. |
| BlockIterators.Iter.Prev | QuickNote/Pods/leveldb-library/table/block.cc:142-161 | Moves to the entry just before, or off the block at the first. |
| BlockIterators.Iter.SeekToLast | QuickNote/Pods/leveldb-library/table/block.cc:208-213 | Stands at the last entry. |
| BlockIterators.Iter.ReadAll | QuickNote/Pods/leveldb-library/table/block.cc:203-252 | Walking the block from its first entry yields exactly the added entries in order. |
| BlockIterators.CountsRestarts | QuickNote/Pods/leveldb-library/table/block.cc:19-39 | The last number of a finished block is the number of its restart points. |
| Filters.CreateFilter | QuickNote/Pods/leveldb-library/util/bloom.cc:28-54 | The filter has the bits that some key probes and no others, in as many bytes as the keys ask for and eight at least, with the number of probes behind; so it matches every key it was made of. |
| Filters.ExampleProbes | QuickNote/Pods/leveldb-library/util/bloom.cc:41-50 | The positions that a hash probes, in numbers. |
| Filters.KeyMayMatch | QuickNote/Pods/leveldb-library/util/bloom.cc:56-80 | Answers whether all probes of the key are set, with short filters matching nothing and reserved encodings everything. |
| Filters.FilterBlockBuilder.StartBlock | QuickNote/Pods/leveldb-library/table/filter_block.cc:21-27 | Closes the buckets before the offset, one for every 2 KB: the gathered keys go to the first of them, and the others are empty. |
| Filters.FilterBlockBuilder.Finish | QuickNote/Pods/leveldb-library/table/filter_block.cc:35-49 | Every bucket's filter in the finished block is the one of its keys, empty for none, and matches all of them. |
| Filters.BlockMayMatch | QuickNote/Pods/leveldb-library/table/filter_block.cc:90-104 | Says no only for keys that are not in the bucket of the offset. |
| Tables.InternalGet | QuickNote/Pods/leveldb-library/table/table.cc:216-244 | What is delivered is the table's first entry at or after the key, and it is delivered whenever it has the key's user key, with or without filters. |
| Tables.FirstIsInBlock | QuickNote/Pods/leveldb-library/table/table.cc:216-244 | Despite shortened separators, the first entry at or after a key is in the block the index picks if it has the key's user key. |
| Tables.TableBuilder.Add | QuickNote/Pods/leveldb-library/table/table_builder.cc:94-123 | Adds an entry, writing the waiting index entry with a separator between the blocks, and keeps the invariant of blocks, index and filter. |
| Tables.TableBuilder.Flush | QuickNote/Pods/leveldb-library/table/table_builder.cc:125-139 | Writes the block and starts the next filter bucket, keeping the entries. |
| Tables.TableBuilder.Finish | QuickNote/Pods/leveldb-library/table/table_builder.cc:198-253 | The finished table holds exactly the added entries and is one that lookups may be made in, with a filter exactly when there is a policy for one. |
| HandleTables.HandleTable.Lookup | QuickNote/Pods/leveldb-library/util/cache.cc:74-76 | The chained table is a map from key and hash to handle. |
| HandleTables.HandleTable.Insert | QuickNote/Pods/leveldb-library/util/cache.cc:78-92 | Adds or replaces one mapping, growing if needed, and returns what was replaced. |
| HandleTables.HandleTable.Remove | QuickNote/Pods/leveldb-library/util/cache.cc:94-102 | Removes one mapping and returns it. |
| HandleTables.Resize | QuickNote/Pods/leveldb-library/util/cache.cc:122-146 | Moving every item to its new chain keeps the map and gives at least as many chains as entries. |
| LruCaches.RefKeepsGood | QuickNote/Pods/leveldb-library/util/cache.cc:217-223 | Taking a reference keeps the lists, the counts and the charge. |
| LruCaches.ReleasedKeepsGood | QuickNote/Pods/leveldb-library/util/cache.cc:225-237 | Giving a reference back keeps them, and frees the handle exactly when it was the last. |
| LruCaches.ErasedKeepsGood | QuickNote/Pods/leveldb-library/util/cache.cc:307-316 | An entry that leaves the cache takes its charge with it, and the invariant stays. |
| LruCaches.LRUCache.Lookup | QuickNote/Pods/leveldb-library/util/cache.cc:252-259 | Finds the entry of the key and references it. |
| LruCaches.LRUCache.Release | QuickNote/Pods/leveldb-library/util/cache.cc:261-264 | Drops one client reference. |
| LruCaches.LRUCache.Insert | QuickNote/Pods/leveldb-library/util/cache.cc:266-303 | The new entry is found under its key; the charge fits or no idle entry is left; the idle entries evicted are the oldest; in the table exactly the entries in use and the idle ones not evicted stay, and those in use are untouched. |
| LruCaches.LRUCache.Erase | QuickNote/Pods/leveldb-library/util/cache.cc:318-321 | Removes the entry of the key, if any, from table and cache. |
| LruCaches.LRUCache.Prune | QuickNote/Pods/leveldb-library/util/cache.cc:323-333 | Frees every idle entry, oldest first, and touches none in use. |
| PbWire.EncodeVarint | QuickNote/Pods/nanopb/pb_encode.c:608-628 | Writes the base-128 digits, at most ten bytes. |
| PbWire.Varint32RoundTrip | QuickNote/Pods/nanopb/pb_decode.c:187-252 | The 32-bit decoder, with its overflow checks, reads back every encoded 32-bit number. |
| PbWire.Varint32Overflows | QuickNote/Pods/nanopb/pb_decode.c:187-252 | An encoded number of 33 to 63 bits is refused. |
| PbWire.SignExtendedReads | QuickNote/Pods/nanopb/pb_decode.c:187-252 | A negative 32-bit number, sign-extended to 64 bits and encoded, is read back in 32 bits. |
| PbWire.ZigZagRoundTrip | QuickNote/Pods/nanopb/pb_encode.c:630-639 | The zig-zag mapping of 64-bit integers is undone by the decoder. |
| PbWire.CastsKeep | QuickNote/Pods/nanopb/pb_decode.c:1345-1380 | A signed value of a field's size survives sign extension to 64 bits and the casts back. |
| PbEncode.EncodedSize | QuickNote/Pods/nanopb/pb_encode.c:567-576 | The sizing pass counts exactly the bytes of the encoding. |
| PbEncode.EncodeSubmessage | QuickNote/Pods/nanopb/pb_encode.c:717-765 | The second pass emits exactly the measured size, so the size-changed error cannot occur; the result is the length-prefixed encoding, if there is room. |
| PbEncode.Encode | QuickNote/Pods/nanopb/pb_encode.c:528-550 | On a sizing and on a writing stream alike, the result is the stream after the encoding, or an error exactly when a field is too long or there is no room. |
| PbEncode.EncodeArray | QuickNote/Pods/nanopb/pb_encode.c:147-236 | Arrays are packed whenever their type allows it, and counted or written as the encoding says. |
| PbEncode.EncodeExactly | QuickNote/Pods/nanopb/pb_encode.c:567-576 | A buffer of the size reported by the sizing pass always suffices and is filled. |
| PbSchema.TypedIsEncodable | QuickNote/Pods/nanopb/pb_encode.c:147-155 | Every well-formed message is accepted by the encoder. |
| PbPieces.NumberBytes | QuickNote/Pods/nanopb/pb_encode.c:676-707 | Numbers with their tags as bytes, after the examples of the Protocol Buffers encoding specification. |
| PbPieces.FixedBytes | QuickNote/Pods/nanopb/pb.h:319-324 | Fixed-width numbers with their tags as bytes. |
| PbPieces.DelimitedBytes | QuickNote/Pods/nanopb/pb.h:319-324 | Strings and bytes with their tags and lengths as bytes. |
| PbPieces.SubmessageBytes | QuickNote/Pods/nanopb/pb_encode.c:717-765 | A submessage with its tag and length as bytes. |
| PbPieces.PackedBytes | QuickNote/Pods/nanopb/pb_encode.c:147-210 | A packed array as bytes, with one tag and one length. |
| PbPieces.ZeroIsOmitted | QuickNote/Pods/nanopb/pb_encode.c:240-330 | Without a has flag, a zero or an empty string is not written, and nothing else is left out. |
| PbPieces.UnsetIsEmpty | QuickNote/Pods/nanopb/pb_encode.c:289-309 | A submessage is left out for being unset only if its encoding would be empty. |
| PbPieces.EmptyIsUnset | QuickNote/Pods/nanopb/pb_encode.c:289-309 | And it is left out then, if it has no array of fixed count. |
| PbPieces.TooLongIsRefused | QuickNote/Pods/nanopb/pb_encode.c:158-161 | No array, bytes or string field beyond its size is encoded. |
| PbPieces.UnterminatedString | QuickNote/Pods/nanopb/pb_encode.c:873-897 | A string that fills its field without a terminator is encoded, and refused by the decoder. |
| PbDecode.ScalarRoundTrip | QuickNote/Pods/nanopb/pb_decode.c:1334-1570 | Every scalar, bytes or string value of its type is read back, and what followed it. |
| PbRoundTrip.PackedRoundTrip | QuickNote/Pods/nanopb/pb_decode.c:421-451 | A packed array is read back item by item. |
| PbRoundTrip.ItemsRoundTrip | QuickNote/Pods/nanopb/pb_decode.c:452-463 | An unpacked array, counted or of fixed count, is read back over the rounds of the loop. |
| PbRoundTrip.FieldRoundTrip | QuickNote/Pods/nanopb/pb_decode.c:406-483 | Each field, absent or present, of any rule, takes the decoder from the state before it to the state after it. |
| PbRoundTrip.MessageRoundTrip | QuickNote/Pods/nanopb/pb_decode.c:934-1082 | For every schema with distinct tags and every well-formed message of any nesting, decoding the encoding succeeds and yields the message with absent fields at their defaults. |
| PbPieces.SkipsValue | QuickNote/Pods/nanopb/pb_decode.c:321-331 | For every type and value, skipping by the wire type stops right behind the value. |
| PbPieces.SkipsField | QuickNote/Pods/nanopb/pb_decode.c:966-995 | A field with an unknown tag, of any type and rule, leaves the decoder as it was. |
| PbPieces.AnyOrderRoundTrip | QuickNote/Pods/nanopb/pb_decode.c:934-1082 | Any of a message's fields in any order, each at most once, with unknown fields among them, and with a zero tag behind them or not: decoding fails exactly when a required field is missing among the first 64, and otherwise yields what stood there and the defaults. |
| PbPieces.ForeignChangesNothing | QuickNote/Pods/nanopb/pb_decode.c:966-995 | Putting a field with an unknown tag before, between or after the fields changes nothing. |
| PbPieces.MissingRequiredFails | QuickNote/Pods/nanopb/pb_decode.c:1039-1079 | The encoding of a message without one of its required fields is refused. |
| PbFits.DecodedFits | QuickNote/Pods/nanopb/pb_decode.c:406-483 | For every input, well formed or not: what is accepted fits the struct, in all submessages: arrays, bytes and strings within their sizes, integers within their widths, arrays of fixed count whole or absent, at most one arm of a oneof. |

## Left out

- The Swift code, AppAuth, and generated or platform code: no algorithm of their own.
- Memtable encoding, `WriteBatch` bytes and the replay of a log into a memtable: batches are sequences of operations here.
- `TwoLevelIterator`, `Table::Open`, the metaindex, block trailers on read, Snappy and the block cache behind `BlockReader`: `Tables` reads a block by its offset, entry by entry; `BlockIterators` has the search in its bytes.
- Pointers of linked lists: the chains and lists of the cache are sequences, nodes of the skip list are named by key; aliasing and allocation are not captured.
- Weak memory order in the skip list and the atomic flags: steps are sequentially consistent.
- The flush inside a running compaction, the release of a compaction's inputs half way, and shutdown: flush and compaction are separate steps.
- Log reading from an initial offset, log reuse, `repair.cc`, and read errors of files.
- Malformed blocks and filter blocks: iterators are proved on the blocks that the builders make.
- Compaction scores, seek statistics and read sampling: any level may be compacted at any time.
- The entries of the stride and byte tables of the checksum: they are taken by what they tabulate.
- nanopb callbacks, extensions and pointer fields; sizes of two to the 32nd and more.
- The decoder of nanopb as loops: it is a recursion on the bytes left, and the bitmap of required fields is a set.
- Blocks.BlockBuilder.Finish: the block is promised well formed only below two to the 32nd bytes, because restart points are 32-bit offsets.
- PbRoundTrip.MessageRoundTrip: asks for an encoding below two to the 32nd bytes, because the decoder reads lengths as 32-bit varints.
- Retention.CrashLosesNothing: starts from directories without table files numbered at or above the next file number, because the orphans that a crash leaves there are overwritten or collected unread.
- Retention.NothingNeededIsCollected: starts from the same directories.
- LogDamage.DamagedLogLosesOnlyItsBlock: leaves out damage to headers, where a changed length decides which bytes are checked at all, and damage of more than four bytes, which may keep the checksum.
- PbPieces.AnyOrderRoundTrip: has each field of the message once at most, because a second array of fixed count overflows instead of starting afresh, and asks for inputs below two to the 32nd bytes.
- Filters.CreateFilter: takes the number of probes, one to thirty, as given.
- OpenIterators.ReadDatabase: is handed the runs of memtables and files as sorted sequences, because a memtable is the list of its writes in `Databases` and a skip list of keys in `SkipLists`.
