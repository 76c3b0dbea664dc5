# A verified model of the LSM storage engine

This project models a log-structured merge-tree storage engine and proves what its durability
notes, comments and tests promise: an acknowledged write survives, recovery reads back exactly
what landed, compaction never changes the map a reader sees, concurrent inserts into the memtable
behave like inserts into one atomic map, and every fast read path equals the simple one.

`dafny verify dfyconfig.toml` checks everything.

## How it is organised

| part | files | shape |
|---|---|---|
| Log protocol | `GroupCommit`, `GroupCommitInvariant`, `GroupCommitTheorems`, `GroupCommitTickets`, `GroupCommitCauses`, `LogCoupling` | step system: any number of threads, a kernel that answers any write in any order with any outcome; one inductive invariant; theorems over all runs |
| Log bytes | `Bytes`, `Crc32`, `CrcDivision`, `CrcCheck`, `WalCodec`, `WalImage`, `WalDamage`, `WalPlaces`, `WalRecovery` | encoder, checksum and parser as loops over buffers, proved against functions on byte sequences |
| Engine and crashes | `Engine`, `EngineInvariant`, `EngineTheorems`, `AsyncHistory`, `LoadOrder` | step system over directory, log and memory; a crash may come between any two atomic disk actions |
| Compaction and reads | `CompactionView`, `Merge`, `Compactor`, `Reads`, `KeyOrder`, `Store` | what a stack of tables means; the heap merge, publish, roll-back and removal as methods on a mutable directory; point reads and scans |
| Memtable | `SkipList`, `SkipListInvariant`, `SkipListTheorems`, `SkipListCalls`, `Memtable`, `Arena` | step system whose steps are the single atomic loads, stores and compare-and-swaps of any number of threads; the arena as a class |
| Tables | `TableCodec`, `TableIndex`, `TableFile`, `SSTable`, `TableReader`, `Bloom` | file layout, block cutting, binary search, filter bits in place, iterator objects |
| Block cache | `BlockCache`, `CacheCoherence`, `CacheBlocks` | the LRU list and map as a class; the cache run beside the engine's step system |

Bytes are numbers below 256, keys and values are byte sequences in lexicographic order, and
machine words are unbounded numbers with the reduction written out (`% 2^32`, `% 2^64`, or a
`Size` type whose every use is proved not to wrap). `round`, `acked`, `landed`, `seen` and the like
are history: no modelled step reads them.

Three places where the code and its documentation disagree; the model follows the code.

- `DURABILITY.md:129-130` promises that cutting the log at any byte recovers exactly the records
  with intact bodies. `WalDamage.TornTailFails` gives a log for which it does not (a put whose
  value carries an encoded record at a block boundary), and `WalDamage.TornTail` gives the exact
  condition under which it does.
- `ARCHITECTURE.md:35-36` describes a sparse index with one entry per 64 keys; the writer opens a
  block once the last one has reached 4096 bytes.
- `ARCHITECTURE.md:31` describes a binary search over level-1 tables; `get` asks every table from
  newest to oldest.

## Model

| member | source | states |
|---|---|---|
| `GroupCommitInvariant.StepInv` | src/wal/wal_writer.cpp:88-194 | every action of any thread or of the kernel keeps one invariant over locks, leader, epochs, completions, buffers, tiling, tickets and promises |
| `GroupCommitTheorems.BehaviorInv` | src/wal/wal_writer.cpp:88-438 | that invariant holds in every reachable state |
| `GroupCommitTheorems.LandedMeans` | src/wal/wal_writer.cpp:359-415 | a record counts as landed only after a completion of its full length was delivered |
| `GroupCommitTheorems.SyncedMeans` | src/wal/wal_writer.cpp:102-122 | a record counts as synced only if a successful fdatasync began after that completion |
| `GroupCommitTheorems.WaitDurableIsSafe` | src/wal/wal_writer.cpp:88-136 | when waitDurable(t) returns normally, the log of t's epoch has been replaced or every record of that epoch ending by t.end was written in full and then covered by a successful fdatasync begun afterwards, whatever the completion order and outcomes |
| `GroupCommitTheorems.AcknowledgedStaysStable` | src/wal/wal_writer.cpp:84-92 | the same holds of every acknowledged ticket in every later state |
| `GroupCommitTheorems.OneLeader` | src/wal/wal_writer.cpp:93-99 | at most one leader; a thread asleep on sync_cv_ always has a leader to wake it; durable_end_ never passes write_offset_ |
| `GroupCommitTheorems.EpochFixedUnderLeader` | src/wal/wal_writer.cpp:138-148 | neither epoch nor log file changes while a leader runs |
| `GroupCommitTheorems.ClearStopsForLeader` | src/wal/wal_writer.cpp:139-145 | clear() can neither take mu_ nor replace the log while a leader runs |
| `GroupCommitTheorems.OneSyncPerCall` | src/wal/wal_writer.cpp:90-135 | one waitDurable call issues at most one fdatasync |
| `GroupCommitTheorems.UnblockedCanStep` | src/wal/wal_writer.cpp:88-194 | a thread inside a call and not waiting for a lock or a wake-up has a step to take |
| `GroupCommitTheorems.SomeoneUnblocked` | src/wal/wal_writer.cpp:88-148 | following locks and then the leader from a blocked thread always ends at one that is not blocked |
| `GroupCommitTheorems.NoDeadlock` | src/wal/wal_writer.cpp:88-148 | in every reachable state with a thread inside a call, some thread inside a call waits neither for a lock nor for a wake-up and has a step of its own to take: no lock cycle, no lost wake-up |
| `GroupCommitTheorems.CancellationAccounting` | src/wal/wal_writer.cpp:340-415 | pending_cqes_ counts exactly the writes still owed an answer; each is the request first issued, at its first offset and length, submitted at most six times, its buffer not freed |
| `GroupCommitTheorems.FreedOnce` | src/wal/wal_writer.cpp:406-413 | whatever the step, only a reap frees, it frees nothing but the buffer of the completion it takes, that buffer was not free before, and no request refers to a freed buffer afterwards |
| `GroupCommitTheorems.ReapUsesWork` | src/wal/wal_writer.cpp:382-413 | the sum of (7 - attempts) over outstanding writes strictly decreases with each completion reaped, resubmissions included |
| `GroupCommitTheorems.DeliverKeepsWork` | src/wal/wal_writer.cpp:359-363 | a completion arriving does not change that sum |
| `GroupCommitTheorems.ReapCompletion` | src/wal/wal_writer.cpp:361-414 | one turn of the reap loop keeps the log invariant and uses up work; a cancelled write with fewer than six attempts goes back in flight at its first offset and length, one attempt on, with count, failure and buffers as they were; any other completion is no longer counted, frees its buffer unless a failed resubmission may still read it, and records a failure unless the write went through in full |
| `GroupCommitTheorems.Drain` | src/wal/wal_writer.cpp:417-438 | for every kernel behaviour drain() ends, and either a failure is recorded or no write is outstanding and every record has landed; a healthy log never fails if the kernel only completes writes in full or cancels them short of the sixth time |
| `GroupCommitTickets.AppendTicketCovers` | src/wal/wal_writer.cpp:322-328 | in every run the one ticket an append returns has the epoch and the end of the record that same call submitted |
| `GroupCommitTickets.SyncTicketCovers` | src/wal/wal_writer.cpp:74-82 | the ticket sync() waits for ends at or past every record of the current log |
| `GroupCommitTickets.DurableAppend` | src/wal/wal_writer.cpp:64-72 | when a wait for the ticket an append returned ends normally, that append's own record is stable or its log has been replaced |
| `GroupCommitTickets.RecordStays` | src/wal/wal_writer.cpp:275-284 | a record's epoch, offset and length never change |
| `GroupCommitTickets.ReplacedLogIsFresh` | src/wal/wal_writer.cpp:138-193 | clear() leaves a log at offset zero with nothing outstanding and no failure, in the next epoch, to which no earlier record belongs |
| `GroupCommitCauses.EveryReap` | src/wal/wal_writer.cpp:382-413 | every reap of every run is such a turn |
| `GroupCommitCauses.AttemptedAlways` | src/wal/wal_writer.cpp:340-395 | the attempts of a request are exactly the times the kernel cancelled its record, and the one under way |
| `GroupCommitCauses.FailureHasCause` | src/wal/wal_writer.cpp:331-433 | a recorded failure has a cause since the log was opened or last replaced: a short or failed write, a sixth cancellation of one record, a cancelled write that could not be submitted again, or a drain that timed out |
| `GroupCommitCauses.FailedLogStops` | src/wal/wal_writer.cpp:199-205 | once a failure is recorded it stays and no record is added, until the log is replaced |
| `GroupCommitTheorems.LogOrderIsSubmissionOrder` | src/wal/wal_writer.cpp:275-284 | records of an epoch occupy disjoint 512-aligned intervals in submission order |
| `GroupCommitTheorems.LandedFrom` | src/wal/wal_writer.cpp:399-407 | once answered with a full-length success a record counts as landed for ever |
| `GroupCommitTheorems.FirstEpochAbove` | src/wal/wal_writer.cpp:25-33 | until the first clear() every record lies above what the file held when it was opened |
| `GroupCommitTheorems.EpochIsNext` | src/wal/wal_writer.cpp:145-148 | the epoch is never more than one ahead of the log file |
| `LogCoupling.WaitJustifiesAcknowledge` | src/db/lsm_engine.cpp:91-104 | where engine records and tickets are those of the log protocol, a returned waitDurable gives exactly what the engine's acknowledgement rests on |
| `LogCoupling.SubmitIsAppend` | src/db/lsm_engine.cpp:81-87 | submitting a record is appending to the engine's log |
| `LogCoupling.CompleteIsLand` | src/wal/wal_writer.cpp:359-415 | a full-length completion is the landing of that engine record |
| `LogCoupling.ReplaceIsClear` | src/wal/wal_writer.cpp:145-194 | replacing the log file is clearing the engine's log |
| `LogCoupling.OtherStep` | src/wal/wal_writer.cpp:88-194 | every other step of the log's threads keeps the coupling |
| `LogCoupling.EngineStep` | src/db/lsm_engine.cpp:255-290 | so does every engine step that touches neither log nor epoch |
| `LogCoupling.TicketsTaken` | src/wal/wal_writer.cpp:322-328 | the ticket an append or sync() adds and the one the engine adds at the same moment count every operation so far and name the same position |
| `LogCoupling.TicketStays` | src/wal/wal_writer.cpp:322-328 | and go on doing so as records are added |
| `GroupCommitTheorems.RecordsAreAligned` | src/wal/wal_writer.cpp:225-227 | every record starts on a block boundary and fills whole blocks |
| `WalRecovery.LogRecoversLanded` | src/wal/wal_reader.cpp:98-186 | in every reachable state of a log opened on any file of whole records and holes, if some records of an epoch landed, in any order and any number of times, recovery returns the records the epoch's file held at first and then exactly the landed operations, in submission order |
| `WalRecovery.PositionIsOffset` | src/wal/wal_writer.cpp:279-284 | the file positions used there are the offsets the protocol assigned |
| `WalImage.RecoverLanded` | src/wal/wal_reader.cpp:98-186 | the same for any file and any placement above it in increasing disjoint blocks, with holes of any size |
| `WalImage.ParseImage` | src/wal/wal_reader.cpp:98-186 | records and holes followed by anything: recovery yields exactly the records, then whatever follows |
| `WalImage.ExamineBody` | src/wal/wal_reader.cpp:104-181 | a complete record body is accepted wherever it stands, whatever follows it, and yields the operation it was encoded from |
| `WalImage.ParseHole` | src/wal/wal_reader.cpp:104-109 | unwritten blocks are stepped over |
| `WalImage.AcceptsExactly` | src/wal/wal_reader.cpp:104-181 | a block is accepted if and only if it starts with a type of 1 or 2, the lengths of some key and value, these, and their checksum; the operation is the put of that key and value for 1, the delete of that key for 2 |
| `WalCodec.EncodeEntry` | src/wal/wal_writer.cpp:213-245 | the zeroed, copied-into buffer is the record's encoding; lengths over 4 GiB are refused |
| `WalCodec.ReadEntry` | src/wal/wal_reader.cpp:99-176 | the bounds-checked read of one entry on any bytes; the 32-bit size cannot wrap within 1 GiB |
| `WalCodec.Advance` | src/wal/wal_reader.cpp:104-109 | both ways of moving the offset, next block and past the entry rounded up to 512, lead from a boundary to where the parse goes on |
| `WalCodec.Turn` | src/wal/wal_reader.cpp:98-185 | one turn of the loop moves strictly forward to a block boundary and loses nothing it should find |
| `WalCodec.Recover` | src/wal/wal_reader.cpp:41-186 | total on every byte string: a log over 1 GiB is refused, any other yields exactly the parse of its blocks |
| `WalDamage.TornTail` | src/wal/wal_reader.cpp:98-186 | a log cut at any byte recovers a list beginning with the records whose bodies are intact, and exactly those if and only if no block left of the torn record passes for a record |
| `WalDamage.TornTailOneBlock` | DURABILITY.md:129-130 | with records of one block the torn-tail promise holds at every byte |
| `WalDamage.TornTailFails` | DURABILITY.md:129-130 | a two-block record for which the promise fails, for every one-block record hidden in its value |
| `WalDamage.SilentParse` | src/wal/wal_reader.cpp:98-186 | recovery finds nothing in a byte string if and only if no block of it is accepted |
| `WalDamage.ExamineDamaged` | src/wal/wal_reader.cpp:139-157 | changing one byte of type, key, value or checksum makes the entry unacceptable |
| `WalDamage.OneByteDropsOne` | src/wal/wal_reader.cpp:147-157 | such a change drops exactly that record and keeps all others, provided its further blocks do not pass for records |
| `WalPlaces.OneByteExactly` | src/wal/wal_reader.cpp:147-157 | for a record of any length: recovery finds the other records, where they were and no others, if and only if no further block of the damaged record passes for a record |
| `WalPlaces.SpotsHoldRecords` | src/wal/wal_reader.cpp:98-186 | the positions spoken of are one for each record recovered, and the bytes there pass for that record |
| `WalDamage.OneByteDropsOneBlock` | src/wal/wal_reader.cpp:147-157 | for a one-block record, with no proviso |
| `WalDamage.PaddingIsFree` | src/wal/wal_reader.cpp:182-185 | damage in the padding loses nothing |
| `Crc32.Compute` | src/wal/wal_writer.cpp:440-450 | the byte and bit loops compute the checksum of type, key and value |
| `CrcDivision.ChecksumIsRemainder` | src/wal/wal_writer.cpp:440-450 | the checksum's bits are the complement of the remainder on dividing the message, its first 32 bits complemented and 32 zeros added, by the generator polynomial of section 8 of RFC 1952, bytes taken lowest bit first |
| `CrcDivision.Division` | src/wal/wal_writer.cpp:440-450 | that division divides: over coefficients modulo 2 the dividend is quotient times generator plus remainder |
| `CrcDivision.PolynomialBits` | src/wal/wal_writer.cpp:444 | the constant's bits are the generator's coefficients below the leading one, in reverse |
| `CrcCheck.CheckValue` | src/wal/wal_writer.cpp:440-450 | the digits 1 to 9 have the standard's check value 0xCBF43926 |
| `Crc32.BitStepInjective` | src/wal/wal_writer.cpp:444 | one bit step is a bijection on the 32-bit state |
| `Crc32.DetectsOneByte` | src/wal/wal_writer.cpp:440-450 | every change confined to one byte changes the checksum |
| `Crc32.ChecksumFits` | src/wal/wal_writer.cpp:244-245 | the checksum fits its four bytes and is read back from them |
| `EngineInvariant.StepInv` | src/db/lsm_engine.cpp:255-300 | every client, kernel, flush, compaction and crash step keeps the engine invariant |
| `EngineInvariant.BehaviorInv` | src/db/lsm_engine.cpp:21-31 | it holds in every state of every run with any number of crashes and reopens |
| `EngineInvariant.CompactingView` | src/compaction/leveled_compactor.cpp:184-253 | however far publishing, roll-back or removal has got, the directory reopens to the view of the inputs |
| `EngineInvariant.ReopenedView` | src/db/lsm_engine.cpp:302-374 | the table order rebuilt from names alone shows what the table list showed before the crash |
| `EngineTheorems.GetIsPlainMap` | src/db/lsm_engine.cpp:111-128 | in every reachable state get() equals the operations since reopening applied to a plain map |
| `Store.ReplayOver` | src/db/lsm_engine.cpp:267-284 | replaying a log over tables that already hold any further prefix of its operations gives all operations applied once: the window between a table's registration and the log's clear, and a flush abandoned in it |
| `EngineTheorems.AsyncRule` | src/wal/wal_writer.cpp:74-82 | at any crash, each key recovers to its value after some prefix of its operations that includes every one a returned sync covers |
| `EngineTheorems.AsyncRuleAtCrash` | src/db/lsm_engine.cpp:292-300 | the same at every crash of every run, for the engine as reopened |
| `AsyncHistory.AsyncRuleOverRuns` | src/db/lsm_engine.cpp:255-300 | over a whole lifetime of flushes, compactions and crashes: each key holds what some issued operation on it left, or is absent if none did, and no operation on it that any sync of any of the processes covered came later |
| `AsyncHistory.SyncCovers` | src/wal/wal_writer.cpp:74-82 | the ticket a sync takes counts every operation issued earlier in the same process; once the wait for it returns, each of them is covered in every later state |
| `AsyncHistory.SyncGetsThrough` | src/wal/wal_writer.cpp:74-82 | once every record has landed a sync is acknowledged and then covers every operation, so that a client in Durable mode can go on |
| `EngineTheorems.CoveredGrows` | src/wal/wal_writer.cpp:74-82 | what a returned sync covers stays covered until the process dies |
| `EngineTheorems.DurableCrash` | src/db/lsm_engine.cpp:81-105 | with at most one unacknowledged operation the whole recovered map is exactly all operations or all acknowledged ones |
| `EngineTheorems.DurableHistory` | src/db/lsm_engine.cpp:81-105 | one client in Durable mode over a lifetime of crashes: the map is always the accepted operations in order, and a crash drops at most the last one, only if unacknowledged |
| `LoadOrder.LoadTables` | src/db/lsm_engine.cpp:360-373 | tables sorted by level descending and counter ascending, and a next level-0 counter past every one on disk |
| `LoadOrder.LoadOrderUnique` | src/db/lsm_engine.cpp:360-366 | the directory decides the order: there is only one |
| `LoadOrder.L0CountCounts` | src/compaction/leveled_compactor.cpp:57-68 | the number compared with the threshold is the number of level-0 tables in the list |
| `CompactionView.PublishedView` | src/compaction/leveled_compactor.cpp:197-208 | with all inputs present, any stretch of the outputs leaves the live map alone |
| `CompactionView.RemovedView` | src/compaction/leveled_compactor.cpp:224-252 | with all outputs present, the oldest inputs may be missing, although tombstones are gone from the outputs |
| `Compactor.MergeCount` | src/compaction/leveled_compactor.cpp:134-171 | the number of output files is the number of live keys by the thousand, rounded up |
| `Merge.Top` | src/compaction/leveled_compactor.cpp:36-41 | the heap's top is the smallest key and, among equals, the newest table |
| `Merge.NextKey` | src/compaction/leveled_compactor.cpp:144-160 | popping a key yields its newest version, moves every table past it, and uses up entries |
| `Compactor.MergeTables` | src/compaction/leveled_compactor.cpp:119-171 | outputs are strictly increasing within and across files, each of exactly 1000 entries but for a last, non-empty one of at most 1000, and hold exactly the newest live version of every key |
| `Compactor.FilesAreMerge` | src/compaction/leveled_compactor.cpp:134-142 | the cut files are outputs a compaction may publish one by one |
| `Compactor.Publish` | src/compaction/leveled_compactor.cpp:199-204 | every directory state while publishing reopens to the inputs' map, and the inputs are untouched |
| `Compactor.RollBack` | src/compaction/leveled_compactor.cpp:215-222 | undoing published outputs ends at the original directory, through safe states only |
| `Compactor.RemoveInputs` | src/compaction/leveled_compactor.cpp:240-252 | removing inputs oldest first passes through safe states only and leaves the outputs |
| `Compactor.Run` | src/compaction/leveled_compactor.cpp:52-257 | throws if and only if there are four level-0 tables and the merge throws or publishing does no later than its last output, of which there are as many as live keys by the thousand, rounded up; below the threshold or on a throw nothing changes; otherwise exactly those outputs remain, as level-1 tables; in every case every state in between reopens to the same map |
| `KeyOrder.LessIsLexicographic` | src/db/lsm_engine.cpp:214-217 | one key is before another if and only if it is a proper prefix of it or has the smaller byte where they first differ |
| `Reads.FindIn` | src/sstable/sstable_reader.cpp:201-207 | the early-stopping search of a sorted block finds value, tombstone or absence |
| `Reads.GetNewest` | src/db/lsm_engine.cpp:111-128 | memtable first, then tables newest to oldest: lookup in the overlay of all |
| `Reads.Sources` | src/db/lsm_engine.cpp:199-210 | the sources opened, with tables skipped by bounds, agree with all tables on the range |
| `Reads.SkipIsSound` | src/db/lsm_engine.cpp:203-208 | a table skipped by its bounds holds no key of the range |
| `Reads.ScanRange` | src/db/lsm_engine.cpp:191-246 | exactly the first `limit` live pairs in [start, end), in order |
| `Reads.ScanIsUnique` | src/db/lsm_engine.cpp:191-246 | that specification admits one result only |
| `Reads.ScanAgreesWithGet` | src/db/lsm_engine.cpp:134-137 | every pair a scan returns is what get() returns, and a live key of the range is missing only past the last pair of a result that reached its limit |
| `SkipListInvariant.StepInv` | src/memtable/skip_list.h:108-168 | every atomic step of every thread, stale neighbours included, keeps the structural invariant |
| `SkipListInvariant.BehaviorInv` | src/memtable/skip_list.h:108-168 | it holds in every reachable state |
| `SkipListTheorems.LevelIsSortedList` | src/memtable/skip_list.h:133-149 | each level's links lead from the head to null in strictly increasing key order through exactly the nodes linked there; each level lies within the one below |
| `SkipListTheorems.NothingIsLost` | src/memtable/skip_list.h:138-149 | no linked node and no key ever disappears from any level |
| `SkipListTheorems.CasTakesEffect` | src/memtable/skip_list.h:138 | an insert of a new key takes effect at its level-0 compare-and-swap, and the key was absent |
| `SkipListTheorems.MissIsRight` | src/memtable/skip_list.h:156-168 | a lookup that misses was right at its last level-0 load |
| `SkipListTheorems.StepRefines` | src/memtable/skip_list.h:112-153 | every step is one step of an atomic map, or none, and no other client notices |
| `SkipListTheorems.EffectsAreSequential` | src/memtable/skip_list.h:112-153 | over every run the steps at which operations take effect form a sequential run of a map ending in the one the list holds |
| `SkipListCalls.ReturnsWereEffective` | src/memtable/skip_list.h:223-232 | a return is preceded by its call and, between the two, by exactly one step at which the operation took effect, with the answer returned |
| `SkipListCalls.Linearisable` | src/memtable/skip_list.h:108-168 | both together, over every run |
| `Memtable.BeginListsMap` | src/memtable/skip_list.h:251-272 | in every reachable state iteration from begin() lists exactly the map, in strictly increasing key order |
| `Memtable.FindLandsOnFirst` | src/memtable/skip_list.h:274-281 | find() ends, hit or miss, with succs[0] on the first key not before the one sought |
| `Memtable.SeekYields` | src/memtable/skip_list.h:276-281 | iteration from seek(key) yields exactly the entries from the first key not before it |
| `SkipListTheorems.NeverStuck` | src/memtable/skip_list.h:140-149 | every thread inside a call can always take its next step |
| `Arena.MaskTest` | src/memtable/arena.h:61 | the mask test accepts exactly the powers of two |
| `Arena.PadFor` | src/memtable/arena.h:117-120 | less than one alignment of padding, and the padded address is aligned |
| `Arena.Arena.Allocate` | src/memtable/arena.h:58-114 | over any sequence of calls and block addresses: aligned, inside one owned block, disjoint from every earlier region; no size_t expression wraps; failures change nothing |
| `Bloom.Hash` | src/sstable/block_bloom_filter.h:123-141 | one pass computes both hashes |
| `Bloom.IsFnv1a` | src/sstable/block_bloom_filter.h:124-129 | the first hash is 64-bit FNV-1a: the published offset basis, and for each byte the bitwise exclusive or and a product with the published prime |
| `Bloom.SecondHashStep` | src/sstable/block_bloom_filter.h:131-133 | each byte goes into the second hash by a bitwise exclusive or, a product modulo 2^64 and a rotation of every bit by 27 places |
| `Bloom.SecondHashEnds` | src/sstable/block_bloom_filter.h:136-140 | the probe step folds the high bits in by 33 places, multiplies, folds by 29 and sets the lowest bit |
| `Bloom.ProbesDistinct` | src/sstable/block_bloom_filter.h:116-122 | the odd step makes a key's eight probes eight different bits |
| `Bloom.BloomFilter.Insert` | src/sstable/block_bloom_filter.h:42-53 | sets exactly the key's probe bits |
| `Bloom.BloomFilter.MayContain` | src/sstable/block_bloom_filter.h:55-69 | true if and only if all the key's probe bits are set |
| `Bloom.FilterOfSnoc` | src/sstable/block_bloom_filter.h:42-53 | after an insert the filter is the filter of exactly the keys inserted so far |
| `Bloom.NoFalseNegative` | src/sstable/block_bloom_filter.h:55-69 | an inserted key is never rejected |
| `Bloom.BloomFilter.Serialize` | src/sstable/block_bloom_filter.h:74-78 | 64 bytes a block, from which the bits can be read back |
| `Bloom.BloomFilter.Deserialize` | src/sstable/block_bloom_filter.h:80-99 | counts clamped to one, bits as stored, or empty if the data is short |
| `Bloom.SerializedRoundTrip` | src/sstable/block_bloom_filter.h:74-99 | reading back what was serialised gives the same bits |
| `TableCodec.EntryRoundTrip` | src/sstable/sstable_builder.cpp:194-214 | an entry, tombstone or value, is read back from its bytes whatever follows |
| `TableCodec.DataRoundTrip` | src/sstable/sstable_reader.cpp:8-37 | parsing the bytes of an entry list gives that list |
| `TableCodec.ParseBlockEntries` | src/sstable/sstable_reader.cpp:8-37 | the offset loop computes that parse on any bytes |
| `TableIndex.CutFlatten` | src/sstable/sstable_builder.cpp:92-104 | the blocks are the entries in order, none empty |
| `TableIndex.CutSizes` | src/sstable/sstable_builder.cpp:96-103 | a block is closed by the entry that takes it to 4096 bytes, never earlier or later |
| `TableIndex.BlockSlice` | src/sstable/sstable_reader.cpp:168-171 | between one index entry and the next lie exactly the block's bytes |
| `TableIndex.FindBlock` | src/sstable/sstable_reader.cpp:161-166 | the binary search picks the block that may hold the key |
| `TableIndex.IndexIsSorted` | src/sstable/sstable_builder.cpp:96-99 | index keys increase, as the search needs |
| `TableIndex.ChosenDecides` | src/sstable/sstable_reader.cpp:161-181 | a key absent from that block is absent from the table, and its version there is the table's |
| `SSTable.CheckSorted` | src/sstable/sstable_builder.cpp:73-79 | the neighbour check accepts exactly strictly increasing entries |
| `SSTable.WriteEntries` | src/sstable/sstable_builder.cpp:89-104 | one loop yields data, index and the filter of exactly the keys; an entry with an oversized field is refused |
| `SSTable.Write` | src/sstable/sstable_builder.cpp:54-121 | the file laid out, or which of the refusals applies, each if and only if |
| `TableFile.FooterRoundTrip` | src/sstable/sstable_reader.cpp:53-66 | the footer checks pass on every written file and give its two positions |
| `TableFile.IndexSectionRoundTrip` | src/sstable/sstable_reader.cpp:68-94 | the count bound passes and the index read is the index written |
| `TableFile.BloomSectionRoundTrip` | src/sstable/sstable_reader.cpp:323-353 | the block-count bound passes and the filter bytes read are those written |
| `TableReader.OpensWritten` | src/sstable/sstable_reader.cpp:41-107 | opening a written file succeeds and finds its index, filter, smallest and largest key |
| `TableReader.Open` | src/sstable/sstable_reader.cpp:41-107 | the constructor's outcome on any file, error or table |
| `TableReader.OpenedHolds` | src/sstable/sstable_reader.cpp:96-106 | a table opened on the file written for a list is the table of that list, its filter included |
| `TableReader.WriteAndOpen` | src/db/lsm_engine.cpp:267-268 | a flushed table opens, and is the table of the flushed entries, unless the write refused: entries unsorted, a field too long, index or file too large |
| `TableReader.Get` | src/sstable/sstable_reader.cpp:145-213 | filter, index, cache or block slice, and parse together equal lookup in the entry list for every key; absent, tombstone and value are told apart, and the cache stays right |
| `TableReader.FetchBlock` | src/sstable/sstable_reader.cpp:168-210 | the block, whether cached or read, and a cache that holds it |
| `TableReader.TableIterator.constructor` | src/sstable/sstable_reader.cpp:229-233 | an iterator at an entry boundary stands before exactly the remaining entries |
| `TableReader.TableIterator.Next` | src/sstable/sstable_reader.cpp:235-262 | hands out the first remaining entry and keeps the rest |
| `TableReader.CreateIterator` | src/sstable/sstable_reader.cpp:268-284 | the entries from the first key not before `start`, losing none |
| `BlockCache.FittedIsLongest` | src/sstable/lru_block_cache.h:113-121 | eviction keeps the longest most-recently-used stretch that meets both limits |
| `BlockCache.AgreeSize` | src/sstable/lru_block_cache.h:123-129 | list and map have the same size, so the capacity test counts lines |
| `BlockCache.BlockCache.Get` | src/sstable/lru_block_cache.h:43-52 | a hit on line i returns its block and gives line i, then the lines before it, then those after it; a miss changes nothing |
| `BlockCache.BlockCache.Put` | src/sstable/lru_block_cache.h:54-74 | of the new line followed by the other lines in their order, the longest front part within both limits stays; list and map agree and the byte total is exact |
| `BlockCache.BlockCache.EvictIfNeeded` | src/sstable/lru_block_cache.h:113-121 | both limits hold afterwards |
| `BlockCache.BlockCache.InvalidatePath` | src/sstable/lru_block_cache.h:76-87 | exactly the lines of that table go, the others keep their order |
| `CacheCoherence.FilesStable` | src/compaction/leveled_compactor.cpp:87-113 | no step changes the file under an open table, although names are reused |
| `CacheCoherence.CoherentAlways` | src/sstable/sstable_reader.cpp:109-115 | over every run of the engine every cached line belongs to an open table and equals what its file holds there |
| `CacheCoherence.LookUpIsCurrent` | src/sstable/sstable_reader.cpp:173-210 | a lookup, hit or miss, is given what the table's current file holds, for every way of reading blocks from tables |
| `CacheBlocks.ReadBlockIsBlock` | src/sstable/sstable_reader.cpp:189-199 | parsing the written file's bytes at a block's offset gives that block |
| `CacheBlocks.CacheOkAlways` | src/sstable/sstable_reader.cpp:173-210 | over every run of the engine, whatever the cache holds of an open table are the blocks parsed from its file, which is what `TableReader.Get` relies on |
| `CacheBlocks.LookUpIsBlock` | src/sstable/sstable_reader.cpp:173-210 | a lookup of a block, hit or miss, is given that block of the table's current file |

## Left out

- io_uring submission anomalies: a submit returning zero or several entries, a full submission
  queue, stale queued entries after a failed submit. Each successful submit puts one write in flight.
- A clear() that fails half-way, and an interrupted wait in drain(), which only repeats the wait.
- Power loss, device caches and torn sectors: rename and remove are ordered and persist once done,
  and a record lands whole or not at all. Torn and damaged logs are treated separately, as bytes.
- Weak memory ordering: atomics are sequentially consistent steps.
- The engine is a step system over values, not a class: its fields are updated by one lock holder
  at a time, and what matters is where a crash may fall between updates.
- A put() that throws between the log append and the memtable insert, a table that is renamed but cannot
  be registered, a compacted input that cannot be removed, and orphan files left by these.
- Reopening a log whose size is not a multiple of 512.
- Parsing of file names and counters beyond `int`: names are pairs of level and counter.
- The heap is modelled by its order: the top is found by comparing the sources' current entries. The
  scan advances the winner after the older duplicates and the compaction before them; both are
  `Merge.NextKey`.
- What recovery returns once an inner block of a torn or damaged record does pass for a record, and
  damage to the length fields, which the checksum does not cover.
- WalDamage.OneByteDropsOne: states the recovered list and so goes one way only, since an accepted inner
  block can by coincidence lead to the same list; `WalPlaces.OneByteExactly` is exact.
- TableReader.Open: on damaged files a short read is an error here, where the stream leaves zeros
  behind, and the largest key is read from the last block's bytes up to the index.
- Filter sizing by floating point and the false-positive rate: the block count is a parameter, at
  least one. The filter's 64-bit words are modelled by the bits they hold in little-endian memory
  order.
- calculateBlockBytes: the byte size of a cached block depends on string capacities and is a parameter.
- Memtable byte accounting, `randomHeight` (any height from 1 to 12), destructor registration in the
  arena, `SSTable` moves, `readAll`, file descriptors and read errors, the command line, benchmarks,
  fault injection and printing.
