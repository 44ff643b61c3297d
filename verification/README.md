# littlefs: a model with proofs

This project models the algorithms of littlefs that make it survive power loss with little
memory, and proves that each of them computes what a much simpler idea says. `dafny verify
dfyconfig.toml` checks all of it.

Code that changes state in place is written the same way here: the block device, the caches,
the allocator, the commit writer, a metadata pair, the file system between commits and an open
file are classes; loops of the source are loops. Their contracts speak in terms of functions
over plain values (replay of a log, cumulative capacities, a byte sequence with a cursor),
and lemmas say what those functions mean.

## What is modelled

**The metadata log** (`DirLog`, `DirCompact`, `DirSplit`, `DirFit`, `DirSearch`, `DirWrites`,
`ByteOrder`, `DirMap`). A directory is a log of tagged entries, in which creates and deletes
renumber all the others. Its meaning is a forward replay into columns: for every class of
attributes (a mask over the tag type) a table from ids to attributes, so ids may be sparse.
`GetSlice` walks backward with a drifting id and agrees with replay. The traversal of a compaction
filters every tag against everything after it; `KeptIsEmitted` shows that this is one pass that
keeps a set of entries without duplicates, and `CompactionPreservesMeaning` that what comes out
replays to the wanted range of the replay of everything. `CompactChain` splits by halving, and
`ChainHoldsAll` says that the pairs, one after the other, hold the original entries; `ChainFits`
measures them in bytes on the device. `FetchMatch` finds a name in one pass over the log, if the
log is of the kind that creates and deletes at the ids it answers, other attributes and
compactions keep it (`DirWrites`). `DirMap` looks at a directory as its users do: `Value` is what
is stored under a name, whatever id the name has at the moment. A commit changes it under one name
only, and a compaction nowhere.

**Commits on disk** (`Crc`, `Tag`, `Commit`, `Backward`, `CommitWriter`). The checksum by nibble
table is the reflected CRC-32 of section 3.2.9 of IEEE 802.3 without the final complement,
computed bit by bit. Tags are xored with the one before; a commit is attributes followed by one
or more checksum tags that pad it to a program unit. What the writer writes, the scanner reads
back (`ScanImage`, `FooterFits`), the chain can be walked backward (`WalkBack`), and whatever
erase left behind a commit does not read as a tag (`ResetCleans`).

**A metadata pair under power loss** (`MetaPair`, `TagFields`, `Masks`, `Directory`,
`FullDirectory`). Two blocks of bytes with revision counts that wrap (section 3.2 of RFC 1982).
Every append and compaction is carried out on the bytes and may stop after any erase, any piece of
a commit and any whole word of a piece; an append may also leave other bytes than were programmed,
as it may where it programs bytes twice. What no file system with 32-bit checksums can exclude is
that bytes left by such a write happen to check. Nothing is assumed about that: three predicates
over the bytes on the device say where it is the case. `TornChecks`: a scan from the end of the
log finds a commit. `OtherWins`: a fetch finds a commit on the other block, and its revision is
not older. `Masked`: from the end of the log on all checksums are right that the second look at a
commit reads, although no commit is there. An operation has the outcome `Missed` only if one of
these holds and one of its writes did not complete; of a pair that can be used none of them holds.
The log is on the device, in the bytes in front of its end, in any case (`Intact`). `Run` says for
every step of every run what log is reached, and whether the space behind it is erased: a commit
that was cut off counts if and only if its first checksum was programmed, and after a fetch one
that fits into erased space is appended (`FetchAndCommit`). A fetch returns exactly that log,
unless the run ended with `Missed`.

`Directory` puts the parts together: the log on the blocks is decoded (`TagFields`), a name is
searched in it, attributes are put under it or all of it is removed, and the compaction writes
what the traversal emits. Over all runs what is stored under each name is what the commits made of
it, as far as their checksums were programmed, and `Get` reads it back.

**Protocols across pairs** (`Gstate`, `Threads`, `Protocols`). Commit by commit, with the power
lost between any two: the xor of the deltas stored on the threaded list, mkdir, remove, rename,
dropping a pair, and the repair of pending moves and orphans. `Sound` is what every crash
leaves: the list is threaded, the deltas on it add up to a state, a pending move names an entry
that exists, and the first pairs of directories on the list are the root, each pair that a
visible entry refers to, once, and at most one empty orphan that the sync bit announces.
`Shows` is what a reader of a pair sees, that is, without an entry that is pending to be deleted.
`Settled` relates memory to the disk: the deltas add up to the orphans that memory knows and the
move on the disk, and memory has the same pending, or a move that the disk has not any more (`lag`).
`Quiet` is the state between operations, with nothing pending on the disk. Each commit takes one
unit of power, and the contracts say exactly for how much power an operation is done. `Run` puts
them together: whatever the operations and wherever the power is lost, each of them shows all of
its change if it applies to the disk and has the power up to the commit that shows it, and nothing
of it otherwise.

**Files** (`CtzIndex`, `SkipList`, `File`). The closed form that maps a position to a block of a
skip-list, following pointers, extending and traversing the list; and an open file, whose write,
seek, flush and read refine a byte sequence with a cursor, while the blocks of the last flushed
version stay as they are until the new head replaces it; they fail exactly if the bytes take more
blocks than there are. The device (`Flash`) accepts a byte once between erases, and leaves erased
bytes unspecified; every program operation of the file and skip-list code is proved to respect
that. Block sizes are those that `lfs_init` accepts, 104 bytes or more, with a limit on the file
size under which the closed form is right (`Placed`); from 112 on the limit is LFS_FILE_MAX.

**Support** (`Allocator`, `Cache`, `Path`, `Util`). The lookahead window over the device, the
read and program caches with alignment, hints and validation, the '..' look-ahead of path
lookup in constant memory, and the portable bit counting bodies.

## Where the code departs from the plain statement

The model follows the code. Each of these is a lemma or a contract with the exact condition.

- With a move pending on a pair, `lfs_dir_getslice` compares the ids the wrong way round
  (lfs.c:503-507; lfs.c:948-953 has it right). `DirLog.MoveMisplaces` says what each id gets;
  `MoveAdjusts`: it is what replay has there, for every log with the moved entry, if and only if the
  id is that of this entry. Operations that change anything carry out the move first; those that
  only read do not.
- `lfs_ctz_index` corrects its first guess with a single population count. With the smallest
  block sizes that `lfs_init` accepts (104 to 111) this is wrong at some positions:
  `CtzIndex.Index` is right if and only if `GuessCorrects` holds, which it always does from 112
  on (`GuessCorrectsFrom112`); `IndexWrongAt104` is a wrong one.
- `lfs_dir_commit` tries to append if the space behind the log is erased *or* the directory has
  255 entries or more (lfs.c:1739). In the second case it may program bytes that are not erased:
  after a fetch exactly if it does not find the space erased, says
  `MetaPair.Pair.ReprogramsOnlyWhenFull`. `MetaPair.TornAppend` leaves any pair so by an append that loses
  power (`TornLeavesDirt`), and `FullDirectory.TornPair` is a directory of 255 names to which that
  happened. The model carries out that append with any bytes as its result
  (`Garbled`): the old log survives, since only bytes behind its end change.
- A range of ids is compacted into one pair if its entries leave 36 bytes of a block
  (lfs.c:1450-1456). Revision, checksum, tail and global state take 40. `DirFit.TailAndState`: a pair
  has room for both tail and state if and only if its entries leave 40 bytes; `ReserveTooSmall` is a
  pair that is not split and then has no room for them, so that the commit fails for want of space.
- An append that folds its delta and then fails leaves the delta to be folded again by the
  compaction (lfs.c:1766-1779, then 1533). `Protocols.Fs.CommitAgain`: the deltas add up afterwards
  if and only if there was nothing to fold or the pair stored nothing. In `AnnouncementLost` such a
  commit removes a directory whose pair stays on the list while no delta says that there is an orphan.
- If deleting a moved entry leaves its pair empty and the pair is not the first of its directory, the
  pair is dropped and the state in memory still has the move (lfs.c:1724-1736 returns before it is
  cleared). `Protocols.Fs.FinishMove` gives the exact condition, and `StrandedMove` a rename after
  which it is so; the disk is sound in either case. The next repair fetches the dropped pair and
  commits to it (lfs.c:3970-3995); `FinishMove` and `Demove` model that commit: it clears the
  move in memory and changes nothing that shows, but a delta that was pending with it would be left
  on a pair off the list, so `Settled` holds afterwards if and only if there was none. A rename
  before that repair moves its entry, but puts the stale move on the disk, and if the power is lost
  behind its first commit, the deltas are both moves xored (`Protocols.Fs.RenameStale`,
  `Gstate.StaleMoveReturns`); `StaleMoveMounted` is a file system that is mounted with a move pending
  on a pair that is not on its list.
- A rename of an entry onto itself deletes it (`Protocols.RenameOntoItself`); all other
  renames are covered by `Protocols.Fs.Rename`.
- The '..' look-ahead counts '.' as a level. `Path.WalkMeans`: the names looked up are those of
  stack normalisation if and only if behind each name '..' outnumber the names somewhere only if
  they do so with '.' counted as names, too (`DotsHarmless`); `DotIsALevel` is a path where not.

## Model

| member | source | states |
|---|---|---|
| Util.AlignUpIsLeast | lfs_util.h:102-108 | lfs_alignup gives the least multiple of the alignment that is not below the number |
| Util.Npw2 | lfs_util.h:111-124 | the portable shift cascade computes the least exponent of a power of two not below its argument, for every argument above 1; 32 for 0 and 1 for 1, as the portable body does |
| Util.TrailingZeros | lfs_util.h:128-134 | the portable body, with the trick of isolating the lowest one bit, counts the trailing zeros |
| Util.CountOnes | lfs_util.h:137-145 | the portable masks, shifts and multiplication count the one bits of every 32-bit word |
| Util.CtzSplits | lfs_util.h:126-134 | the number of trailing zeros of a number is the exponent of a power of two that divides it with an odd quotient |
| Util.CtzOfMultiple | lfs_util.h:126-134 | and no other exponent is |
| Util.CeilLog2IsLeast | lfs_util.h:110-124 | what Npw2 computes is characterised by powers of two alone |
| CtzIndex.PointerSum | lfs.c:2130-2141 | the identity behind the closed form: the first n blocks after block 0 hold 2n - popcount(n) pointers |
| CtzIndex.StartClosedForm | lfs.c:2130-2141 | the sum of the capacities of the blocks before block i in closed form |
| CtzIndex.InBlockUnique | lfs.c:2130-2141 | a position lies in one block only |
| CtzIndex.Index | lfs.c:2130-2141 | for block sizes from 104 on and positions up to LFS_FILE_MAX: the block and offset found are the ones whose cumulative capacities bracket the position exactly if GuessCorrects holds of block size and position |
| CtzIndex.GuessCorrectsFrom112 | lfs.c:2130-2141 | from 112 bytes per block on the closed form is right at every position |
| CtzIndex.PlacedFrom112 | lfs.c:2130-2141 | so files of any size can be used then |
| CtzIndex.IndexWrongAt104 | lfs.c:2130-2141 | a block size that lfs_init accepts (lfs.c:3399) and a position for which the closed form names the wrong block |
| SkipList.SkipReaches | lfs.c:2158-2162 | a skip never passes the target, and is the largest allowed by distance and by the pointers of the block |
| SkipList.SkipsRiseThenFall | lfs.c:2158-2171 | the exponents followed strictly increase and then strictly decrease |
| SkipList.FewSkips | lfs.c:2158-2171 | at most two reads per bit of the starting index |
| SkipList.Find | lfs.c:2143-2176 | ends in exactly the block of the position, with the offset there, following only pointers that exist, within the bound on reads; for every block size of 104 or more for which the closed form is right at the position (lfs.c:2151-2152) |
| SkipList.Traverse | lfs.c:2279-2320 | reports every block of the list exactly once, in descending order; for every block size of 104 or more for which the closed form is right at the last position |
| SkipList.Extend | lfs.c:2178-2277 | for a partly filled and a full last block the result is a list again, nothing but the new block is touched, and the copied front is the old one; block sizes as for Find |
| SkipList.WritePointers | lfs.c:2236-2262 | every pointer written names the block 2^k back, found by following the previous one |
| SkipList.ListFrame | lfs.c:2178-2277 | a list stays a list when a block outside it is rewritten |
| SkipList.ListAppend | lfs.c:2236-2266 | a block whose pointers are right can be put at the end of a list |
| Flash.Le32RoundTrip | lfs_util.h:154-175 | little-endian words read back as written |
| Flash.BlockDevice.Prog | lfs.h:161-171 | puts the data where it was asked to, behind everything programmed since the last erase, and changes nothing else |
| Crc.Crc | lfs_util.c:14-30 | the table-driven loop computes the bit-by-bit reflected CRC-32 |
| Crc.TableEntry | lfs_util.c:15-20 | each of the 16 table words is four steps of the register |
| Crc.TableByte | lfs_util.c:24-27 | two table steps feed one byte |
| Crc.ChecksumConcat | lfs.c:1275-1276 | the checksum of a concatenation continues from the checksum of its front |
| Crc.ChecksumInjective | lfs_util.c:14-30 | for fixed data, different registers stay different |
| Crc.ChecksumWordTest | lfs.c:1295-1315 | appending a little-endian word drives the register to 0 exactly if the word is the register: the writer's zero check (lfs.c:1311) and the reader's comparison (lfs.c:841) agree |
| Crc.BurstDetected | lfs_util.c:14-30 | messages of equal length that differ only within four consecutive bytes have different checksums |
| Tag.CrcTagFields | lfs.c:1269-1270 | a checksum tag has the type, reset bit and size it was made with |
| Tag.TopOnly | lfs.c:851-852 | flipping the valid bit changes no other field |
| Tag.BeRoundTrip | lfs_util.h:178-199 | big-endian words read back as written |
| Tag.LeRoundTrip | lfs_util.h:154-175 | little-endian words read back as written |
| DirLog.GetSlice | lfs.c:496-555 | the backward walk with a drifting id returns the attribute that a forward replay of creates, deletes and overwrites leaves under that id, and nothing exactly if replay has none; with a move pending on the pair, that of the id the code starts from |
| DirLog.MoveMisplaces | lfs.c:503-507 | with a move pending, an id in front of the moved entry is looked up one too far and one behind it one too near, so the moved entry is still found |
| DirLog.MoveAdjusts | lfs.c:503-507 | the lookup is right for all logs with the moved entry only at the id of that entry |
| DirLog.LookupStep | lfs.c:509-537 | what one more entry at the end of the log does to every lookup |
| DirCompact.KeptIsEmitted | lfs.c:653-752 | filtering each entry against its whole suffix is the same as filtering all kept entries against each new one |
| DirCompact.EmittedColumn | lfs.c:625-651 | the kept entries replay to the replay of everything |
| DirCompact.EmittedDistinct | lfs.c:625-651 | no two kept entries speak about the same attribute of the same id |
| DirCompact.EmittedIsPlain | lfs.c:625-651 | no create or delete is left among the kept entries |
| DirCompact.NothingElse | lfs.c:695-698 | no name, tail or state is among the kept entries of a move, no tail or state among those of a compaction, and the columns of all classes that were not asked for are empty; the last entry is always kept if it is of a type asked for |
| DirCompact.CutColumn | lfs.c:715-752 | restricting to a range of ids and shifting it does the same to the replay |
| DirCompact.CompactionPreservesMeaning | lfs.c:625-752 | for every attribute class the entries written replay to the replay of log, new attributes and pending deletion, restricted to the ids of the range and shifted |
| DirCompact.RunFilter | lfs.c:625-651 | the in-out filter tag follows the id through every later entry, or reports redundancy |
| DirCompact.Traverse | lfs.c:653-752 | the traversal with its filter calls back exactly the kept entries of the range, renumbered, in order; nothing but structs and user attributes for a move, nothing but names, structs and user attributes (types below 0x400) for a compaction, and no id outside the range |
| DirSplit.CompactChain | lfs.c:1382-1482 | the halving loop terminates; the pairs it makes cover the range in order and fit their blocks (`DirFit.ChainFits` says in bytes); a range that leaves half a block free is not split; as long as pairs can be allocated they are those of plain recursive halving, one pair taken for each new range; it fails only with no pair left and a range that no block can hold |
| DirSplit.HalvedIsRoomy | lfs.c:1441-1482 | recursive halving covers the range in order, and leaves every pair with one id or with half a block free and less than 255 ids; it splits exactly if the range is not like that already |
| DirSplit.ChainHoldsAll | lfs.c:1441-1482 | looking up an id in its pair of the chain gives what replay of everything has under that id |
| DirSplit.CompactedCount | lfs.c:1621-1626 | the number of entries of a compacted pair is the size of its range |
| DirFit.SizeIsBytes | lfs.c:1415-1421 | what lfs_dir_commit_size sums is the number of bytes that lfs_dir_commitattr writes for the entries, behind any tag |
| DirFit.ChainFits | lfs.c:1441-1456 | each pair of a chain with several ids has room in its block for the revision, its entries and a checksum, with 24 bytes to spare for attributes behind them; where it was halved the entries take at most half a block, up to a program boundary |
| DirFit.TooLargeForBlock | lfs.c:1464-1474 | a range of several ids for which the splitting fails is one that does not leave 24 bytes of a block |
| DirFit.TailAndState | lfs.c:1450-1454 | the tail and the global state take 28 bytes: a pair has room for both behind its entries exactly if these leave 40 bytes, where the code reserves 36 |
| DirFit.ReserveTooSmall | lfs.c:1450-1454 | entries of 476 bytes in a block of 512 that are not split, and then do not fit with a tail and a state |
| DirSearch.FindMatch | lfs.c:1047-1069 | the comparison with a stored name, its length rule included |
| DirSearch.BeforeTransitive | lfs.c:1047-1069 | the order of names is transitive |
| DirSearch.BeforeIsTotal | lfs.c:1047-1069 | and total |
| DirSearch.LongerFirst | lfs.c:1061-1064 | a longer name comes before its own prefix |
| DirSearch.AdvanceTracks | lfs.c:869-945 | one more entry keeps the cursor at the name, or at the first greater one, in the replayed directory |
| DirSearch.FetchMatch | lfs.c:774-969 | the one-pass cursor ends at the exact id if the name is live, otherwise at the id of the first greater name, or the count; with a move pending on the pair, in the directory without the moved entry, though a name behind all others is answered with the count that includes it; for logs as every commit, compaction and run of Directory leaves them |
| DirSearch.AnswerUnique | lfs.c:956-969 | the answer is determined by the replayed directory |
| DirSearch.InsertKeepsSorted | lfs.c:1926-1934 | inserting the name where it was not found keeps the names strictly sorted |
| DirWrites.CreateKeeps | lfs.c:1926-1934 | CREATE and NAME at the place where a search found no such name leave a log that can be searched again, with the name in the gap |
| DirWrites.DeleteKeeps | lfs.c:3145-3147 | so does DELETE, and the names behind it move up |
| DirWrites.HitBecomesInsert | lfs.c:3251-3259 | after the DELETE of a rename over an existing name its place is where the search would put that name, so CREATE and NAME may follow there |
| DirWrites.OthersKeep | lfs.c:869-945 | other attributes change no name |
| DirWrites.CompactKeeps | lfs.c:1570-1578 | compacting any range of ids leaves a log that can be searched |
| DirMap.CreateSets | lfs.c:1926-1934 | CREATE and NAME where a search found no such name put the name under itself and change nothing under others |
| DirMap.BodySets | lfs.c:2710-2715 | attributes committed under the id of a name are what is stored under that name afterwards, the last of each kind, and under other names nothing changes |
| DirMap.DeleteRemoves | lfs.c:3145-3147 | DELETE removes all that is stored under the name and nothing else |
| DirMap.CompactSame | lfs.c:1563-1622 | compacting all ids up to the count, with tails and global state behind, changes nothing that is stored under any name, and gives a directory log again |
| TagFields.EncodeRoundTrip | lfs.c:264-300 | LFS_MKTAG of the fields of an entry, read back field by field, gives the entry, and is valid and no checksum |
| TagFields.DecodeStorable | lfs.c:268-300 | every valid tag that is no checksum decodes to fields of their widths |
| TagFields.SelectsIsMask | lfs.c:535 | an entry is of the class a lookup asks for exactly if its tag and the one asked for agree under the mask of the lookup (0x700, 0x780 or 0x7ff of the type) |
| TagFields.SameKeyIsMask | lfs.c:630-636 | two entries speak about the same attribute of the same id exactly if their tags agree under the mask that bit 0x100 of the type chooses |
| TagFields.WantedIsMask | lfs.c:695-698 | the types a traversal lets through are those whose tags pass its mask and tag: 0x400 with 0 in a compaction (lfs.c:1573-1574), 0x600 with 0x200 in a move (lfs.c:729-730) |
| Allocator.MarkOne | lfs.c:433-443 | setting a bit of the lookahead marks that offset and no other |
| Allocator.StepAhead | lfs.c:447-450 | a step through the window keeps what was handed out behind the budget |
| Allocator.RoundCoversAll | lfs.c:470-475 | block_count consecutive steps examine every block |
| Allocator.BudgetSpent | lfs.c:470-475 | when the budget is spent every block was examined since the last ack |
| Allocator.Lookahead.Fill | lfs.c:477-485 | after the traversal exactly the window offsets of reachable blocks are marked |
| Allocator.Lookahead.Alloc | lfs.c:445-488 | terminates; a block handed out is neither reachable nor handed out since the last ack; no space is reported only after every block was handed out or seen in use since the last ack; after a success the window stands at a block that is not marked, or at its end |
| Allocator.Lookahead.Ack | lfs.c:490-492 | renews the budget |
| Commit.ScanImage | lfs.c:799-945 | attributes written with their checksum tag are scanned back unchanged, to the offset behind the padding |
| Commit.ScanLocal | lfs.c:799-945 | a scan that checks depends only on the bytes it passed |
| Commit.StopInside | lfs.c:820-827 | inside a commit a scan never takes what it finds for unwritten space |
| Commit.ScanCommit | lfs.c:799-945 | the loop over the tags of a commit computes the scan |
| Commit.Fetch | lfs.c:785-972 | the outer loop ends behind the last commit that checks, with all attributes before it and the erased flag |
| Commit.FetchFollows | lfs.c:785-945 | a fetch follows the good commits and goes on behind them |
| Commit.WalkExtends | lfs.c:785-945 | one more good commit at the end of a walk |
| Backward.WalkBack | lfs.c:509-520 | the xor chain read from the end gives every tag, checksum tags included, in reverse order, with its offset; those that are no checksums, with the data at their offsets, are the attributes that the scan from the front found |
| Backward.ChainBack | lfs.c:515-520 | one step back along the chain recovers the tag before |
| CommitWriter.PieceSizes | lfs.c:1244-1258 | the pieces of a commit have legal sizes and leave room for the next checksum, or end exactly; the first is the only one exactly if one tag can cover all the padding, and otherwise as long as it can be |
| CommitWriter.ResetCleans | lfs.c:1260-1270 | with the reset bit chosen from what erase left behind the piece, that space does not read as a tag |
| CommitWriter.FooterFits | lfs.c:1251-1290 | what one turn of the padding loop programs checks, reads as the attributes, and leaves clean space behind it |
| CommitWriter.NextPiece | lfs.c:1251-1290 | one turn of the padding loop keeps the loop's invariant |
| CommitWriter.Writer.CommitAttr | lfs.c:1197-1240 | an attribute that fits is appended with its xored tag and its checksum; one that does not leaves no trace |
| CommitWriter.Writer.CommitCrc | lfs.c:1242-1326 | the pieces end exactly at the least program-aligned offset behind the first checksum, inside the block; each checks on its own; the second look finds no error |
| CommitWriter.Recheck | lfs.c:1295-1323 | the re-read loop visits exactly the pieces written and accepts exactly if all their checksums are zero |
| CommitWriter.ChecksFrom | lfs.c:1295-1323 | a commit that the second look accepts is accepted from any of its pieces on |
| MetaPair.NewerAfter | lfs_util.h:147-151 | lfs_scmp(a, b) > 0 exactly if 1 to 2^31 - 1 increments lead from b to a, wrapping around |
| MetaPair.NewerAsymmetric | lfs.c:769-776 | two revisions are not both newer than the other |
| MetaPair.PutAllLeads | lfs.c:1251-1290 | after all pieces of a commit a walk reaches its end with the attributes added |
| MetaPair.StoppedWrite | lfs.c:1251-1290 | wherever a write stops, the commits up to the last whole piece are good and nothing programmed looks unwritten |
| MetaPair.WinsOnlyIfChecks | lfs.c:764-807 | a block that a fetch prefers without it being the newer one by a compaction has a commit that checks |
| MetaPair.AppendKeeps | lfs.c:1739-1789 | an append stopped anywhere leaves the old log, or once its first checksum is written the new one |
| MetaPair.CompactKeeps | lfs.c:1523-1622 | a compaction stopped anywhere leaves the old log, or once its first checksum is written the new one |
| MetaPair.GarbleKeeps | lfs.c:1293-1323 | whatever the device has in place of some pieces of an append, the log stands up to the pieces it did take, unless what it has checks |
| MetaPair.Pair.Create | lfs.c:1328-1361 | a new pair holds what its first compaction writes, whatever its other block held; its revision is the one found, made even, plus one |
| MetaPair.Pair.Mount | lfs.c:754-979 | fetch finds exactly the log of the last commit that was completed, in the block with the newer revision or the only one that checks, and the revision of that block; it reports the space behind the log as erased exactly if the end is aligned, leaves room for a tag, and nothing is programmed there |
| MetaPair.Pair.Append | lfs.c:1739-1789 | after an append that completed, ran out of room, was garbled on the device or lost power, the log is the old one or the extended one, decided by whether the first checksum was programmed; the block holds exactly what the fate of the write let through; the other block and the committed bytes are untouched; `Missed` is the outcome only if what is on the block behind the log scans as a commit, or, of garbled bytes, if every checksum from the end of the log on is right that the second look reads; and never without such a write |
| MetaPair.Pair.Compact | lfs.c:1504-1622 | writes only the other block, which holds exactly what the fate of the write let through; after success or loss of power the log is the old one or the new contents; `Missed` is the outcome only if cut-off bytes scan as a commit, or what is on the other block is found by a fetch and not older; the new block has the revision counted up by one |
| MetaPair.Pair.Commit | lfs.c:1739-1811 | the decision between append and compaction; the log after every outcome as a function of what was there, with the checksum that was programmed deciding; carried out to the end exactly if the writes involved are undisturbed and fit; `Missed` only if a checksum was fooled by a write that did not complete; if the power lasts and the compaction has room it is carried out or missed, garbled or not |
| MetaPair.Pair.Run | lfs.c:754-979 | over any run of commits, fetches and power losses, each write completing, stopping anywhere or garbled: the log is on the device; each step leaves exactly what `Moves` gives: the old log, the extended one or the compacted contents as the first checksums of append and compaction were programmed or not (only for a garbled or given up append either compaction or not), where it ends, whether anything is programmed behind it, and the erased flag, which a fetch takes from the device and a commit keeps; at the end a fetch finds exactly the log, unless the run stopped where a checksum was fooled by a write that did not complete; with lasting power and room for a compaction the directory stays usable |
| MetaPair.FetchAndCommit | lfs.c:1739-1811 | of a fetch and a commit in which nothing is lost: the attributes are appended exactly if they fit and the end is aligned with nothing programmed behind it, or the count is 255 or more; else the log is the compacted contents; after either the end is aligned again with nothing programmed behind it |
| MetaPair.FetchAndAppend | lfs.c:1739-1789 | where the append is tried and fits, it alone decides what the log is, by its first checksum |
| MetaPair.Pair.UsableIsSound | lfs.c:785-972 | of a pair from which a commit can start none of the three ways to fool a checksum holds |
| MetaPair.Pair.ReprogramsOnlyWhenFull | lfs.c:1739 | an append hits bytes already programmed only if the directory counts 255 entries or more and its space is not known to be erased; after a fetch, at an aligned end with room for a tag, exactly then |
| MetaPair.TornAppend | lfs.c:1739 | whatever the pair, an append of one attribute that loses power before its checksum, and a fetch, leave the log as it was and a pair whose next append programs bytes twice once the count is 255 or more |
| FullDirectory.TornPair | lfs.c:1739 | a directory of 255 names in blocks of 4096 bytes, from a compaction, two appends and a fetch, whose next append programs bytes twice |
| MetaPair.TornLeavesDirt | lfs.c:1739 | losing power between attribute and checksum leaves a block with the old log, which a fetch reports as not erased |
| Directory.Rewritten | lfs.c:1570-1609 | the bytes of a compaction, from the traversal of the decoded log, the new attributes and a pending deletion to tags, decode to the entries the compaction of the log ought to write, whose columns are those of everything, restricted to the count |
| Directory.Update | lfs.c:1676-1811 | a commit with the search before it and the compaction it falls back to: what is on disk is a directory again, changed under the one name exactly as the change says or not at all; the log is the one that `MetaPair.Pair.Commit` gives for the attributes at the id the search found, and nothing is committed exactly if there is nothing to do or no id left |
| Directory.Run | lfs.c:754-979 | over any run of commits, fetches and losses of power each step does to the log, its end, the space behind it and the erased flag exactly that, and what is stored under the names is changed by all of a commit or nothing; the log read at the end is the one reached; the run stops early only where a write was disturbed or one block does not hold the directory; with lasting power and room the directory stays usable |
| Directory.ChecksumDecides | lfs.c:785-867 | what is stored under the names does not change if neither the append nor the compaction got as far as its first checksum; it does if the append is undisturbed, unless it takes a compaction and that does not fit or did not get as far |
| Directory.LookAndWrite | lfs.c:1739-1811 | a fetch and a change in which nothing is lost: the change is appended to the log exactly if it fits and the space behind an aligned end is not programmed, or the count is 255 or more; else the log is the compacted directory with the change |
| Directory.Get | lfs.c:3087-3099 | fetch, search and backward walk return what is stored under the name, and nothing exactly if nothing is |
| Cache.LoadCovers | lfs.c:69-84 | a cache load is aligned, in range, and covers the offset it is for exactly if the hint is at least 1 or the offset is inside a read unit |
| Cache.CompareAt | lfs.c:101-122 | the first differing byte decides a comparison |
| Cache.BlockIo.ReadSome | lfs.c:37-90 | one turn of the read loop delivers device bytes overlaid by the program cache, or loads the read cache |
| Cache.BlockIo.Read | lfs.c:27-93 | terminates for hints from 1 on; delivers the device bytes overlaid by the program cache; the read cache stays truthful |
| Cache.BlockIo.Cmp | lfs.c:101-122 | compares the device with a buffer in byte order |
| Cache.BlockIo.Flush | lfs.c:124-155 | if it succeeds, with validation even on a device that keeps wrong bytes, the block is what the program cache showed, except for padding up to a program unit |
| Cache.BlockIo.Sync | lfs.c:157-169 | the same, and the read cache is truthful afterwards; without validation or on a sound device it succeeds; other blocks, and the stretches around what was flushed, are as they were |
| Cache.BlockIo.Prog | lfs.c:171-215 | contiguous stretches show in the view of the block, each exactly where it was programmed |
| Cache.PaddingOnly | lfs.c:127-130 | a flush differs from the view only in the padding |
| Gstate.StateReads | lfs.c:336-351 | the sync bit, the move and its pair can be read back from a state |
| Gstate.OrphansSet | lfs.c:353-356 | lfs_gstate_xororphans sets the sync bit and nothing else |
| Gstate.MoveSet | lfs.c:358-364 | lfs_gstate_xormove replaces the move and nothing else |
| Gstate.FoldedTwice | lfs.c:1766-1779 | folding a delta twice gives back the intended sum exactly if it is nothing |
| Gstate.StaleMoveReturns | lfs.c:1715-1736 | the two commits of a rename made while memory has a move pending that the disk has not put exactly that move on the disk |
| Threads.Rewritten | lfs.c:1763-1779 | a commit that keeps the tail adds its delta to the total and keeps list and heads |
| Threads.OneMoreThreads | lfs.c:1363-1380 | a list and the list with one more pair are threaded together |
| Threads.OneMoreTotal | lfs.c:1363-1380 | the deltas add up when a pair is threaded in, or dropped with its delta taken over |
| Threads.OneMoreHeads | lfs.c:1382-1413 | which pairs are first pairs of directories when a pair is threaded in or dropped |
| Protocols.ReachableListed | lfs.c:3735-3801 | every directory pair that can be reached from the root is on the tail list |
| Protocols.OnlyOrphans | lfs.c:3997-4067 | any other first pair on the list is the orphan: nothing refers to it, it is empty, and the sync bit is set |
| Protocols.FormattedSound | lfs.c:3506-3585 | a formatted file system satisfies the invariant |
| Protocols.SameDirectory | lfs.c:3239-3249 | within one directory the shifted id names the old entry, and the one commit leaves the entry moved |
| Protocols.RenameOntoItself | lfs.c:3239-3259 | within a directory the new entry is there afterwards, and one entry less if another was replaced; but renamed onto itself the entry is lost |
| Protocols.Fs.PrepOrphans | lfs.c:3955-3961 | the pending state becomes the one with the sync bit exactly if there are orphans now, and the same move; the deltas add up to the pending state as before |
| Protocols.Fs.PrepMove | lfs.c:3963-3967 | the pending state becomes the one with the new move, and the same sync bit; the deltas add up to the pending state as before |
| Protocols.Fs.FindPred | lfs.c:3825-3842 | finds the pair before a pair on the list, exactly if there is one |
| Protocols.Fs.HasParent | lfs.c:3868-3886 | whether an entry on the list refers to a pair |
| Protocols.Fs.Drop | lfs.c:1363-1380 | the pair leaves the list, and its delta and tail go to the pair before it |
| Protocols.Fs.Commit | lfs.c:1698-1811 | the entries after deletes, creates and the pending move; the total after folding the delta; when and only when the pair is dropped instead; done exactly if there is power |
| Protocols.Fs.CommitAgain | lfs.c:1763-1811 | a commit whose append failed after folding: the deltas add up to the pending state afterwards exactly if there was nothing to fold or the pair stored nothing |
| Protocols.AnnouncementLost | lfs.c:1766-1779 | a file system in which such a commit of lfs_remove leaves a directory on the list that no entry refers to and no delta announces |
| Protocols.Fs.Split | lfs.c:1382-1413 | the entries from k on move to a new pair, which comes directly behind the old one on the list, as the part the directory goes on with; no other pair is written; list, references and global state stay sound; done exactly if the power lasts for two commits |
| Protocols.Fs.Mkdir | lfs.c:1858-1943 | whichever of its two or three commits are done, the invariant holds; from the second on the new pair is on the list directly behind the last pair that the directory goes on with, told by the split flags; nothing is written but these two pairs and the one that gets the entry; the directory shows the new entry exactly if all are done, which is if and only if the power lasts for them |
| Protocols.Fs.Remove | lfs.c:3101-3171 | refused exactly for a directory with entries or a second pair; otherwise done exactly if the power lasts for its one or two commits; whichever of them are done, the invariant holds; the entry is gone exactly if the first is; at the end the list has lost exactly the pair of a removed directory, and the pair of the entry if that was its last and the pair is not the first of its directory |
| Protocols.Fs.MoveIn | lfs.c:3251-3259 | the first commit of a rename: the new entry shows, the old one does not; done exactly if there is power |
| Protocols.Fs.FinishMove | lfs.c:1715-1723 | deleting the moved entry changes nothing that shows; the pair is dropped exactly if the entry was its last and it is not the first of its directory, and then memory keeps the move pending; the deltas stay right exactly if none was pending with it |
| Protocols.Fs.Rename | lfs.c:3173-3294 | with no move pending in memory: crash-atomic: whatever commits are done, all pairs show the state before or the state after, decided by the first commit; refused exactly if it would replace a directory with entries; otherwise done exactly if the power lasts for its one to three commits; which pairs have left the list then; when memory keeps the move pending |
| Protocols.Fs.RenameStale | lfs.c:3173-3294 | with a move pending in memory that the disk has not: refused and done exactly as without, every pair shows the state after, but the deltas add up to that old move; cut off behind the first of two commits they add up to both moves xored |
| Protocols.StrandedMove | lfs.c:1715-1736 | a file system and a rename after which memory still has the move pending, while the disk has not |
| Protocols.Fs.KeptUnlessLagging | lfs.c:1715-1736 | global state is conserved exactly while memory has no such move |
| Protocols.StaleMoveMounted | lfs.c:3687-3715 | such a rename and a mount, after which a move is pending on a pair that is not on the list |
| Protocols.Fs.Demove | lfs.c:3970-3995 | carrying out a pending move, on the list or off it, changes nothing that shows; done exactly if there is power |
| Protocols.Fs.Deorphan | lfs.c:3997-4067 | removes exactly the orphan from the list and no other pair |
| Protocols.Fs.ForceConsistency | lfs.c:4069-4081 | changes nothing that shows, and ends without move and orphan on the disk, exactly if the power lasts for the repairs there are; the list then has lost the orphan and a pair that the moved entry left empty, and no other |
| Protocols.Fs.Mount | lfs.c:3687-3715 | the xor of all deltas on the list becomes the global state; on a sound disk that is its sync bit and its move, with one orphan counted if the sync bit is set |
| Protocols.Fs.Restart | lfs.c:4069-4081 | mount and repair after a loss of power change nothing that shows, and get the file system ready exactly if the power lasts for the repairs |
| Protocols.Fs.Run | lfs.c:4069-4081 | over every run of mkdir, remove, rename and split, each cut off after any number of commits, with a mount and repair after every loss: the invariant holds before each operation, and the repairs are those for the move and the orphan on that disk, or for a move that lags behind in memory after a rename or a repair; an operation shows its change, and all of it, exactly if it applies to the repaired disk and has the power for the repairs and its commits up to the one that shows it; it reports success exactly if it applies and has the power for all its commits, and the file system stays mounted exactly if the power lasted; mounts and repairs change nothing that shows, and take exactly the orphan and a pair that the moved entry leaves empty from the list; the run ends early only where memory has a move pending that the disk has not and the next operation would act on it |
| Path.WalkIsNormal | lfs.c:1084-1168 | the look-ahead in constant memory looks up what stack normalisation leaves, if '.' is not taken for a level |
| Path.WalkMeans | lfs.c:1101-1124 | the code, which takes '.' for a level, does so exactly if, behind every name, '..' somewhere outnumber the names only where they do with '.' counted as names, too |
| Path.LookCounts | lfs.c:1101-1124 | a name is taken back exactly if in some stretch behind it there are more '..' than levels |
| Path.DotFreeMeans | lfs.c:1084-1168 | in particular for all paths without '.' |
| Path.DotIsALevel | lfs.c:1108-1116 | a path for which it does not |
| Path.ComponentsOfJoin | lfs.c:1087-1089 | components joined by slashes are found again |
| Path.LookAhead | lfs.c:1099-1124 | whether a later '..' takes the name back, and where the path goes on |
| Path.Find | lfs.c:1071-1169 | the names looked up, in order, up to the first that is not found |
| File.BytesSlice | lfs.c:2786-2808 | bytes read inside a block are the bytes of the file at that position |
| File.ExtendedBytes | lfs.c:2178-2277 | after lfs_ctz_extend the list reads the same up to the position it was extended at |
| File.ReadBytes | lfs.c:2775-2815 | the read loop delivers the bytes of the version, across blocks |
| File.File.Grow | lfs.c:2878-2911 | finding where to go on and taking a new block keeps everything in front of the cursor, and touches only blocks the allocator handed out; the first of these is linked behind the blocks in front of the cursor, the others stay available; it fails exactly if there is none |
| File.File.WriteBytes | lfs.c:2877-2945 | the bytes in front of the cursor grow by what is written; blocks of the last version and of other files are untouched; the blocks that are linked are those next in supply, as many as the bytes take; it fails exactly if the bytes take more than there are, and then every block is full |
| File.File.CopyRest | lfs.c:2608-2637 | copying what is behind the cursor changes nothing in the contents, and fails exactly if the rest takes more blocks than there are |
| File.File.Flush | lfs.c:2595-2673 | contents and cursor stay, the branch becomes the version, made of the old branch and the blocks next in supply, as many as the contents take; the blocks of the old version are as they were; it fails exactly if the contents take more blocks than the branch and the supply have |
| File.File.Read | lfs.c:2741-2819 | delivers the bytes at the cursor, as many as there are, and moves it; fails exactly if a flush would |
| File.File.Write | lfs.c:2821-2950 | the contents are the old ones with the data at the cursor (at the end when appending) and zeros in a gap; exactly if the positions up to the end of the data take more new blocks than there are, it reports no space, and then what was written fills all of them; the blocks used are those next in supply, the others stay available |
| File.File.Seek | lfs.c:2952-2985 | moves the cursor if the position is in range, and keeps the contents; fails exactly if a flush would |

## Left out

Not modelled:

- Relocation of bad and worn blocks, `block_cycles`, and the repair of half-orphans and of parents that relocation makes necessary (lfs.c:1638-1671, 2512-2581, 3888-3953, 4043-4057).
- The superblock entry, its limits, its expansion during compaction (lfs.c:1484-1502) and the choice of the root while mounting.
- Inline files, `lfs_dir_getread` (lfs.c:564-623) and outlining; files in the model have their own blocks.
- Truncation (lfs.c:2987-3040), which looks up `size` and not `size - 1` when it cuts at a block boundary.
- Opening, closing and syncing of files: flags other than append, user attributes, the errored state, and the commit that puts the head of a flushed file into its directory.
- Listing directories, stat, getattr, setattr, traversal of the whole file system, and everything under `LFS_MIGRATE`.
- Errors of the device other than wrong bytes noticed by validation in the caches, and device sync.
- Adjustment of ids in open handles after a commit (lfs.c:1819-1851).
- How a commit buffers through the caches: `Cache` proves that contiguous programs through a cache arrive on the device; `CommitWriter`, `MetaPair`, `SkipList` and `File` program the device without it.
- The widths of id (10 bits), count (16 bits) and orphan counter fields; ids, counts and the number of orphans are natural numbers.

Narrower than the source:

- DirLog.GetSlice: reads from inside an attribute, and lookups of what belongs to no id (tail and global state), are left out.
- DirCompact.Traverse: the tags that copy attributes of another pair or from user memory (lfs.c:724-744) are not expanded; a pending deletion is the last entry, as in lfs.c:683-689.
- DirCompact.CompactionPreservesMeaning: stated for the classes that the traversal is for, in which an entry is replaced by a later one of the same key.
- DirSplit.CompactChain: how many pairs can still be allocated is a parameter.
- DirSearch.FetchMatch: for logs in which the names are in strict order after every entry, as the lemmas of `DirWrites` prove of commits and compactions and `Directory.Run` of all runs (with ids in any order as long as there are no creates and deletes); other logs are not described.
- MetaPair.Pair.Compact: the attributes to be written are a parameter; `Directory.Update` takes them from the traversal. Garbled writes are those of appends; a compaction writes to an erased block.
- MetaPair.Pair.Append: power is lost between whole words, not inside one; commits without any attribute are left out.
- MetaPair.Pair.Run: each commit comes with the attributes that a compaction would write (`Directory.Update` computes them); splitting into several pairs is not part of a run.
- Directory.Update: a new name is refused once the pair has 1023 ids, and a directory that outgrows its pair is not split (`DirSplit` does that); open handles, moves pending on the pair and the limit on name lengths (lfs.c:1876-1880, 2368-2371) are left out.
- Directory.ChecksumDecides: an append that was garbled, or was given up with some of its bytes on the device, is left to `Directory.Run`.
- Protocols.Fs.Commit: one commit of one pair is one step; that it is atomic is `MetaPair.Pair.Run`. A commit that splits is `Protocols.Fs.Split` followed by a commit; the block addresses of new pairs are parameters.
- Protocols.FormattedSound: without the superblock entry that format writes into the root pair.
- Protocols.Fs.FindPred: for the first pair on the list the source answers at once with success (lfs.c:3825-3842) and the model that there is none; `Commit` asks only about a pair without entries, which the superblock entry keeps the root from being.
- Protocols.Fs.Rename: source and destination are found already, as pairs and ids; an entry replaced is of the same kind, an entry is not renamed onto itself; with a move pending in memory from before it is `Protocols.Fs.RenameStale`.
- Protocols.Fs.MoveIn: no move pending in memory from before, as in `Protocols.Fs.Rename`.
- Protocols.Fs.Split: the attributes of the commit that splits are those of a commit after it.
- Protocols.Fs.Run: stops where memory has a stale move that the next operation would act on; no append of a run fails after folding its delta, which is `Protocols.Fs.CommitAgain`.
- Protocols.Fs.Deorphan: without relocation no entry refers to a pair under an outdated address, so only the branch for full orphans remains; the order of the two addresses of a pair plays no role.
- Path.Find: how many of the names exist is a parameter; lookup of one name is `DirSearch.FetchMatch`.
- File.File.Flush: blocks come from a supply of free ones, as `Allocator` hands them out; dropping a block that turns out bad is relocation.
- File.File.Write: contents are the bytes of a file with its own blocks, from any state that the operations can leave it in.
- Allocator.Lookahead.Alloc: the blocks that the traversal of the file system reports are a parameter; the window starts anywhere on the device (lfs.c:3710 takes the seed modulo the block size, which the first refill corrects).
