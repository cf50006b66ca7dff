# Verified model of the exchange

A Dafny model of a multithreaded exchange server and proofs about it. Four linked parts:

- **The matching engine.** An incoming order is planned against a simulated copy of each price level
  and the plan is then committed by editing linked queues, cached totals and an id index. Beside it
  stands a direct matcher on values that repeatedly trades the head of the best level and then pops or
  rotates it. Plan and commit are proved to refine the direct matcher, and the book's laws are proved
  of the direct matcher and of every run of commands.
- **The write-ahead log and recovery.** The record codec with its checksum, a replay that stops at
  damage, truncation, the sync policies, writes and syncs that fail, and a machine that may die at any
  byte, any number of times.
- **The bounded command queue**, as interleaved steps of any number of threads, the engine loop that
  drains it, and the orderly stop.
- **The stream codec.** The frame assembler and the wire messages.

## How it is laid out

Values and their laws: `Orders` (one order), `Matching` (the direct matcher), `Ladders`, `MatchTheorems`,
`Reach` and `LadderTheorems` (one side), `BookModel` and `BookTheorems` (the whole book). Objects proved
against them: `PriceLevels`, `OrderBooks`, `Planner`, `Committing`, `Book`; `SideStats` reads their totals.
`BoundedQueue` stands alone. Storage: `Bytes`, `Wire`, `Registers` and `Crc32`, `WalRecords`,
`RecordFiles` (files of records for any codec that meets a few laws), `Ledgers` (such a file while it is
being written), `WriteAheadLogs`, `Recovery`, `CrashSafety` (the crash machine for any records and state),
`Durability` (the exchange in it). The engine: `EngineModel` (as a value), `Engines` (the object, with its
book and its log), `Agreement` (when the file replays to the engine's book), `Service` (queue, engine, stop
and restart together). Network: `Streams` (arrivals in pieces, for any parser that meets two laws),
`Frames`, `Protocol`.

Five of these are stated for any codec, state, parser or register rather than for the exchange's own. The
exchange's own is then shown to meet the laws (`WalIsWal`, `ExchangeIsExchange`, `FramesLawful`,
`CrcDivides`, `CrcMovesUp`, `CrcKeepsApart`), and the theorem is restated for it.

## Where the code limits what holds

- **Iceberg aggressors.** The planner caps a fill by the resting order's tranche, not by the
  aggressor's, so an iceberg that crosses can be filled beyond its own tranche or come to rest showing
  nothing. `AggressorBoundary` says exactly when it does not, from what stands on the other side before
  the submit, and `BoundaryIsReal` gives the inputs. The planner in turn demands that an order at a price
  it may trade at shows quantity (core/price_time_strategy.cpp:78); `Serviceable` is that demand, and
  `CommandKeepsHealthIff` says exactly when a command leaves a book that meets it everywhere.
  Where the tranche underflows, the model follows the release build: unsigned 64-bit wrap-around.
- **Icebergs that display all they hold** are logged as limit orders. `StoredExactly` says exactly
  which orders come back unchanged, `ReplaysAlike` exactly which commands replay to another book,
  `RunReplaysAlikeIff` exactly which runs do, and `FullDisplayDiverges` gives one. The crash theorems ask
  of each submitted order that it is fresh, and of such an iceberg only that it does not come to rest.
- **Failed appends.** The engine says that when an append throws, log and book cannot disagree
  (core/engine.cpp:110-111). That is false in two ways. A failed sync leaves the whole record in the file
  and the command unapplied (`FailedForceDisagrees`). A failed write leaves part of a record, behind which
  replay no longer reads what is appended and applied (`FailedWriteDisagrees`). `LogAgreesIff` is the exact
  condition under which the file replays to the engine's book all along a run: up to the first partial
  record, each append whose sync failed was of a command the book it met would have ignored and each command
  applied replays alike; behind it, each command applied would have been ignored. It holds wherever the
  decoder does not take the partial record and what follows for a record, which `ShortScrapsAgreeIff` proves
  of partial records of up to three bytes. Only the whole run can be characterised so: `SentAgainHeals` shows
  a disagreement that a later command removes.
- The stored side byte is not validated: any value but zero is read as a sell.

## Model

| member | source | states |
|---|---|---|
| MatchTheorems.SweepKeepsShape | core/book.cpp:150-211 | a sweep of any length leaves the side sorted best price first, every order at its own price and side, plain orders in time order, and every order at a price the aggressor accepts showing between one and all of its quantity |
| MatchTheorems.SweepLeavesNoEmptyLevel | core/order_book.hpp:160-164 | levels emptied by matching can only stand in front, so dropping from the front leaves no empty level anywhere |
| MatchTheorems.SweepAddsNoOrder | core/book.cpp:159-185 | no order id and no sequence number stands more often on the side after a sweep than before it |
| MatchTheorems.SweepConserves | core/book.cpp:159-184 | fills plus remainder equal the quantity wanted, and fills plus what is left on the side equal what was there |
| MatchTheorems.SweepClosedForm | core/book.cpp:65-101 | closed form: unless blocked by its own account the aggressor takes exactly the smaller of what it wants and what the side offers at its limit, hidden size included; blocked, it takes strictly less |
| Reach.SweepReach | core/price_time_strategy.cpp:53-106 | closed form of every sweep, blocked ones included, from the side before it: the quantity left over is what is wanted beyond the reach, which ends in front of the first crossing order of the own account, counting one tranche of each order ahead of it in its level; and it is blocked iff such an order stands within reach and more was wanted |
| MatchTheorems.SweepExhausts | core/book.cpp:72-98 | an unblocked aggressor with quantity left no longer crosses the best level that remains |
| MatchTheorems.SweepPrices | core/price_time_strategy.cpp:56-87 | over the whole sweep prices never improve, each satisfies the aggressor's limit, no fill pairs two orders of one account, and none is empty |
| MatchTheorems.IcebergFairness | core/price_time_strategy.cpp:53-106 | between two consecutive fills of one resting order, every other order then in that level's queue is filled exactly once, in queue order, and nothing else is |
| MatchTheorems.WaitsForThoseAhead | core/price_time_strategy.cpp:56-106 | an order's first fill comes after exactly one fill of each order ahead of it, in queue order |
| LadderTheorems.RestShaped | core/price_level.cpp:75-86 | resting an order stamped later than all others keeps the side sorted, seated and in time order |
| LadderTheorems.FindIffCounted | core/order_book.hpp:119-122 | a lookup by id answers exactly when the id stands on the side |
| LadderTheorems.RemoveSum | core/order_book.hpp:239-260 | removing an order takes exactly that order's share out of every sum over the side |
| LadderTheorems.ReduceOnlyShrinks | core/order.cpp:81-87 | an in-place reduction moves nobody and raises no order's remaining or displayed size |
| Planner.PlanLevel | core/price_time_strategy.cpp:28-107 | the simulated queue plans exactly the fills the direct matcher makes on this level, in order, with the same self-match verdict, each named by a handle of the level |
| Planner.LevelPlanned | core/book.cpp:72-98 | an unblocked crossing level always yields something and is used up before the next one is reached |
| Planner.PlanNext | core/book.cpp:77-92 | one turn of the walk: what the level adds to the plan, and that the sweep of the levels behind it makes up the rest of the whole sweep |
| Planner.PlanAgainst | core/book.cpp:65-101 | the plan over all levels is the whole sweep of the direct matcher, fills, verdict and quantity; every planned handle names the order it was planned for; the break on nothing planned is never reached |
| Committing.HandleIsHead | core/book.cpp:159-163 | when a planned fill is reached, its handle still names an order, and that order is the head of its level |
| Committing.CommitOne | core/book.cpp:159-183 | a planned fill meets every precondition of applyFill when it is reached and leaves the side in step with the rest of the plan |
| Committing.CommitFills | core/book.cpp:159-185 | applying the plan leaves the side, its index and its totals exactly where the direct matcher leaves them, with the same fills |
| PriceLevels.PriceLevel.ApplyFill | core/price_level.cpp:32-44 | the order is filled where it stands and both cached totals stay the sums over the queue |
| PriceLevels.PriceLevel.Extract | core/price_level.cpp:18-30 | the node is unlinked, the others keep order and handles, the totals stay exact, and the order is handed back |
| PriceLevels.PriceLevel.ReplenishAndRequeue | core/price_level.cpp:46-59 | the node goes to the back with a fresh tranche under the same handle, and the totals stay exact |
| PriceLevels.PriceLevel.TradeHead | core/book.cpp:163-183 | one execution against the head followed by the pop, rotation or nothing it calls for is one trade of the direct matcher |
| PriceLevels.PriceLevel.ReduceQuantity | core/price_level.cpp:61-73 | the order shrinks where it stands and the totals stay exact |
| PriceLevels.PriceLevel.Adopt | core/price_level.cpp:75-86 | the node is linked at the back and the totals stay exact |
| OrderBooks.OrderBook.Execute | core/book.cpp:159-183 | index, queues and totals stay exact through one planned fill, whose order leaves the index exactly when it is spent |
| OrderBooks.OrderBook.DropEmptyLevelsFromFront | core/order_book.hpp:160-164 | drops exactly the empty levels in front and keeps the index exact |
| OrderBooks.OrderBook.Cancel | core/order_book.hpp:239-260 | finds the order through the index, removes it and its level if emptied, or reports an unknown id and changes nothing |
| OrderBooks.OrderBook.ReduceInPlace | core/book.cpp:17-21 | shrinks the indexed order without moving it |
| OrderBooks.OrderBook.InstallLevel | core/order_book.hpp:201-204 | the node goes to its sorted place, or is discarded when the price has a level; handles stay unused |
| OrderBooks.OrderBook.RestOrder | core/book.cpp:187-190 | installing level and index entry and then splicing the node is resting the order at the back of its level |
| OrderBooks.OrderBook.Lookup | core/order_book.hpp:119-122 | the index leads to the order with that id, or there is none |
| OrderBooks.OrderBook.IndexAnswers | core/order_book.hpp:239-291 | an id is indexed if and only if it stands on the side |
| Book.Prepare | core/book.cpp:107-144 | plan, level node and position are right for the two sides as they are, and nothing is modified, so a failure here leaves the book as it was |
| Book.Commit | core/book.cpp:149-211 | committing what was prepared gives both sides, fills and report of the direct matcher, with every precondition on the resting side met |
| Book.Replace | core/book.cpp:245-275 | preparing a replacement while the original still rests, then withdrawing it and committing, is what submitting it after the withdrawal gives |
| Book.Book.Submit | core/book.cpp:215-232 | refuses exactly a zero quantity or a resting id and then changes nothing; otherwise book and report are those of the direct matcher and the book is not crossed; asks only that orders at prices an admissible order accepts show quantity |
| Book.Book.Cancel | core/book.cpp:234-239 | removes and returns the order, or nothing; the representation invariant holds |
| Book.Book.Requeue | core/book.cpp:245-275 | a requeueing amendment equals cancel followed by submit of the amended clone: same fills, book and sequence counter |
| Book.Book.Modify | core/book.cpp:277-329 | zero quantity, unknown id, in-place reduction and requeue each give the book and report the model says; only a requeue asks that orders at prices its replacement accepts show quantity |
| Book.Book.Apply | core/apply.cpp:23-48 | dispatching a command does to the objects what one transition of the model does to the value |
| BookTheorems.AcceptKeepsStructure | core/book.cpp:149-232 | a submit of any order, also one that is self-match blocked, keeps ids and sequences unique, levels sorted and non-empty, time order, and the sides uncrossed |
| BookTheorems.SubmitForetold | core/book.cpp:65-101 | what a submit fills, whether it is blocked and whether it rests, told from the book before it |
| BookTheorems.SubmitReport | core/book.cpp:184-211 | each status, the quantities filled and resting, told from the book before the submit; the book gains what rests and loses what was filled |
| BookTheorems.AggressorBoundary | core/book.cpp:159-196 | exact boundary, told from the book before the submit: every commit-time fill fits the aggressor's tranche iff what it can take does, and a healthy book stays healthy iff an order that comes to rest can take less than its tranche; limit and market orders always meet both |
| BookTheorems.BoundaryIsReal | core/order.cpp:61-69 | two concrete icebergs for which the fill does not fit, and for which the remainder rests showing nothing |
| BookTheorems.CancelUndoesSubmit | core/book.cpp:234-239 | cancelling an order that found nothing to take and came to rest gives back the book before it, but for the sequence counter |
| BookTheorems.ModifyKeepsStructure | core/book.cpp:277-329 | an amendment of any kind, including one that trades on re-entry, keeps the structure and never crosses the book |
| BookTheorems.CommandKeepsStructure | core/apply.cpp:23-48 | every command keeps ids and sequences unique, levels sorted and non-empty, time order, and the sides uncrossed |
| BookTheorems.CommandKeepsHealthIff | core/apply.cpp:23-48 | a command keeps every resting order showing quantity iff a condition on the command and the book it finds holds |
| BookTheorems.ReachableBooks | core/book.cpp:37-41 | every book reached by commands meeting that condition has the full invariant and is not crossed |
| SideStats.StatsAreExact | analytics/side_stats.hpp:63-87 | resting, visible and through-a-price quantity, read off the cached totals, are the sums over the orders, and predict what an unblocked sweep fills |
| BoundedQueue.NoLostWakeup | concurrent/thread_safe_queue.hpp:62-150 | for any number of threads and any interleaving, spurious wakeups included: while open, free slots never exceed the notifications and woken producers on their way to sleeping producers, and likewise for consumers; once closed a sleeper has a closer still to notify it; delivery is in order, exact and bounded |
| BoundedQueue.QuietSleepersAreRight | concurrent/thread_safe_queue.hpp:62-117 | when no notification is outstanding, producers sleep only at a full open queue and consumers only at an empty open one, so never both |
| BoundedQueue.UnquietGoesOn | concurrent/thread_safe_queue.hpp:62-150 | while something is outstanding, a step that finishes it is enabled |
| BoundedQueue.SettlesInTime | concurrent/thread_safe_queue.hpp:62-150 | such finishing steps use up a bounded amount of work, so they come to an end |
| BoundedQueue.DrainedForGood | concurrent/thread_safe_queue.hpp:103-117 | a consumer told of exhaustion has seen every value ever accepted, and none is accepted afterwards |
| BoundedQueue.ConsumerSeesAll | core/engine.cpp:67-74 | when one thread does all the popping and is told of exhaustion, its own pops returned every value accepted, in that order, and no more is ever accepted |
| Registers.BurstChangesRemainder | store/crc32.hpp:46-54 | over any register obeying the laws, two bit strings that differ only inside a window as wide as the register leave different remainders |
| Crc32.MakeCrcTable | store/crc32.hpp:28-40 | every entry is its index shifted eight times through the division |
| Crc32.TableStep | store/crc32.hpp:49-51 | one lookup and one exclusive-or do the work of eight single-bit division steps |
| Crc32.ComputeCrc32 | store/crc32.hpp:46-54 | the table-driven loop equals bit-at-a-time division by the reflected polynomial, for every input |
| Crc32.BurstDetected | store/crc32.hpp:46-54 | no error burst of up to 32 bits, wherever it falls, leaves the checksum unchanged |
| Crc32.FourBytesDetected | store/crc32.hpp:46-54 | nor does any change confined to four consecutive bytes |
| Wire.AbsorbedEmitted | core/wire.hpp:63-67 | a number that fits its width is read back as written |
| Wire.EmittedAbsorbed | core/wire.hpp:121-129 | bytes written from what was read are the same bytes |
| Wire.AsSigned | core/wire.hpp:55-60 | two's complement: the signed reading of an unsigned number is in range and converts back to it |
| Wire.Writer.Emit | core/wire.hpp:63-67 | the byte loop appends exactly the little-endian bytes |
| Wire.Reader.Consume | core/wire.hpp:115-129 | fails without moving iff too few bytes remain, else returns the number at the cursor and moves past it |
| WalRecords.WriteOrder | store/wal_record.cpp:30-49 | appends the 38-byte layout of the order |
| WalRecords.EncodeRecord | store/wal_record.cpp:81-115 | length, checksum and payload of the record, the checksum by table |
| WalRecords.ReadOrder | store/wal_record.cpp:51-69 | fails on underrun or unknown kind, else rebuilds the order stored at the cursor |
| WalRecords.DecodeRecord | store/wal_record.cpp:117-206 | decides between whole, incomplete and corrupt on any bytes whatever, as the fixed-offset reading of the layout does |
| WalRecords.RecordReadBack | store/wal_record.cpp:81-206 | an encoded record decodes, whatever follows it, to its sequence and its command as stored, and consumes its own length |
| WalRecords.StoredExactly | store/wal_record.cpp:30-49 | a freshly made order is read back unchanged iff it is no iceberg that displays all it holds |
| WalRecords.CutRecord | store/wal_record.cpp:117-148 | a record cut at any byte is incomplete, never corrupt and never a record |
| WalRecords.DecodedStorable | store/wal_record.cpp:158-198 | whatever the decoder accepts fits the widths it came from |
| WalRecords.BurstIsCorrupt | store/wal_record.cpp:150-156 | a payload damaged by one burst of up to 32 bits is reported corrupt |
| WalRecords.FourBytesCorrupt | store/wal_record.cpp:150-156 | so is one changed anyhow within four consecutive bytes |
| WalRecords.ScrapIsCorrupt | store/wal_record.cpp:136-142 | one to three bytes of anything in front of a record make its length field spell more than a record may hold |
| WalRecords.LateScrap | store/wal_record.cpp:150-156 | a record whose last one to four bytes were not written is corrupt whatever is written next, unless that spells just the missing bytes, and then it is the record |
| RecordFiles.TornTail | store/write_ahead_log.cpp:158-177 | for any records and any cut, replay returns exactly the whole records, where they end, and truncated iff the cut is elsewhere |
| RecordFiles.TrimThenAppend | store/write_ahead_log.cpp:180-184 | truncating to the valid bytes and appending more replays to the concatenation |
| RecordFiles.WholeInIsLongest | store/write_ahead_log.cpp:158-177 | the records counted whole are the longest run ending within the cut |
| WriteAheadLogs.WalIsWal | store/wal_record.cpp:81-206 | the record codec meets the laws the replay theorems ask for |
| WriteAheadLogs.CutLog | store/write_ahead_log.cpp:158-184 | torn-tail exactness and trim-then-append for the log's own records |
| WriteAheadLogs.ReplayFile | store/write_ahead_log.cpp:158-177 | the offset loop computes the replay of any contents, damaged or not |
| Ledgers.FrontReplays | store/write_ahead_log.cpp:158-177 | whatever stands behind them, records at the front of a file are replayed |
| Ledgers.HidesIff | store/write_ahead_log.cpp:158-177 | replay gives just the records at the front iff what stands behind them is nothing, or does not start like a record |
| Ledgers.CutOpens | store/write_ahead_log.cpp:58-63 | a file of records cut anywhere is one that can be opened, with the records that are whole |
| Ledgers.LossIsBounded | store/write_ahead_log.cpp:77-119 | a cut at or behind what was forced keeps a prefix of the records of a clean file and loses at most the appends since the last force |
| WriteAheadLogs.WriteAheadLog.constructor | store/write_ahead_log.cpp:48-66 | opening a file of records with anything behind them that replay does not take for a record, a torn tail or the scraps of failed writes, carries on the numbering of the records |
| WriteAheadLogs.WriteAheadLog.Append | store/write_ahead_log.cpp:77-106 | success, a write that fails after any number of bytes, or a sync that fails: which of them is told by the attempt and the policy; the number and the counts move unless the write failed; the record is in the file whole unless the write failed, and what was a clean file stays clean unless the write failed partway; after a success the policy's bound on unforced records holds, whatever the clock reads and whatever failed before |
| WriteAheadLogs.WriteAheadLog.Flush | store/write_ahead_log.cpp:121-125 | everything written is forced, whatever the policy, or the sync fails and nothing changes |
| WriteAheadLogs.BoundedLoss | store/write_ahead_log.cpp:77-119 | a power loss keeps a prefix of the records of a clean log and loses at most the last sinceSync of the appends: none under Always, at most max(batchRecords, 1) - 1 under Batch |
| WriteAheadLogs.FrontSurvives | store/write_ahead_log.cpp:158-177 | whatever appends failed, all records in front of the first partial one are replayed |
| WriteAheadLogs.ScrapHidesTheRest | store/write_ahead_log.cpp:168-173 | once a write failed after one to three bytes, no record appended later is ever replayed |
| Recovery.RecoverBookOnly | store/recovery.cpp:38-55 | the book becomes the one all intact commands lead to through the live path, the file is trimmed to them, and the report counts them |
| Recovery.ReplayAll | store/recovery.cpp:45-47 | accepted and rejected add up to the records, and the fills are those of the run |
| EngineModel.EachCountedOnce | core/engine.cpp:74-94 | every command is counted once, as processed, rejected or storage failure, whatever fails |
| EngineModel.RunAmountsTo | core/engine.cpp:67-135 | book, fills and counts are those of the commands whose append succeeded; the log has gained those whose record was written whole |
| Agreement.IdleIff | core/apply.cpp:23-48 | a command leaves the book as it is iff it is a refused submit, an unknown id, a zero quantity, or an amendment to the size the order has, of an order that shows and displays no more than that |
| Agreement.LogAgreesIff | core/engine.cpp:110-114 | the file replays to the engine's book all along a run iff, up to the first partial record, each append whose sync failed was of such a command and no command applied was a full-display iceberg that comes to rest, and behind it each command applied was of such a kind |
| Agreement.ShortScrapsAgreeIff | store/write_ahead_log.cpp:77-91 | the same with nothing assumed about the decoder, when no failed write leaves more than three bytes |
| Agreement.FailedForceDisagrees | core/engine.cpp:110-114 | a concrete failed sync: the order is not in the book, is counted as a storage failure, and a restart replays it |
| Agreement.FailedWriteDisagrees | store/write_ahead_log.cpp:168-173 | a concrete failed write: one byte is written, the second try succeeds and is forced, the order is in the book, and a restart finds nothing |
| Agreement.SentAgainHeals | core/engine.cpp:110-114 | a cancel whose sync failed leaves log and book apart, and sent again brings them together, so agreement at the end alone has no such condition |
| Engines.Engine.Apply | core/engine.cpp:99-135 | one turn over the real book and the real log, or no log: book, file, fills and counters move as the model says for each outcome of the append, and only a command whose record is last in the log, and on the device under Always, reaches the book |
| Engines.Engine.Run | core/engine.cpp:67-97 | the loop handles every delivered command once and in order, whichever appends fail |
| Service.ServesWhatWasAccepted | core/engine.cpp:67-97 | for every interleaving: once the engine thread is told of exhaustion it has handled just the commands ever accepted, in that order, and its three counters have grown by their number |
| Service.ServeThenStop | core/engine.cpp:31-57 | drain, join and flush: engine, book and log are where the accepted commands lead, the counters add up to them, and after a flush that succeeds nothing is left unforced |
| Service.LogRecovers | store/write_ahead_log.cpp:77-119 | a power loss at any byte from what was forced on: a restart replays a prefix of what a clean log holds, short by at most the appends since the last force, and all of it when nothing was pending |
| Service.EngineRecovers | store/recovery.cpp:38-55 | a power loss under a running engine: with every byte on the device a restart rebuilds the engine's book iff log and book agreed, whatever failed before |
| Service.Restart | store/recovery.cpp:38-55 | recovery run over what the power loss left leaves the book of the surviving commands, and of all logged commands when the log was clean and nothing was pending |
| CrashSafety.RunKeepsInv | core/engine.cpp:99-121 | write-ahead invariant over every run with any number of crashes and recoveries |
| CrashSafety.CrashSafe | store/recovery.cpp:38-55 | wherever the machine dies, at any byte, the surviving file replays to the state after a prefix holding every published command and at most one more than was served |
| CrashSafety.PublishedForGood | store/write_ahead_log.hpp:53-62 | no published command is ever lost from the log or moved in it by anything that happens later |
| Durability.ExchangeIsExchange | store/recovery.cpp:17-34 | the exchange's records, book and command application are an instance of the crash machine |
| Durability.RecoveredExchange | core/engine.cpp:99-135 | for every run of the exchange on fresh orders, full-display icebergs among them as long as they do not come to rest, and every crash point (any length not below what was forced when every record is forced before it is applied, or the death of the process under any policy) the recovered book equals in every field the live book after some first m commands, all published ones among them and at most one more than was served |
| Durability.RecoveredBookIsFit | core/engine.cpp:99-135 | where each command met its condition for keeping orders on display, the recovered book and the live one have the full invariant |
| Durability.ExchangeSound | store/wal_record.cpp:30-69 | such commands are stored like what they are read back as, and the two do the same to the book |
| Durability.ReplaysAlike | store/wal_record.cpp:38-39 | a command and what the log gives back for it lead to the same book iff it is no admissible submit of a full-display iceberg that comes to rest, told from the book it finds |
| Durability.RunReplaysAlikeIff | store/recovery.cpp:17-34 | a run and the run the log gives back for it lead to the same book after every command iff no command is such a submit in the book it finds |
| Durability.KeepsItsEffectIff | store/wal_record.cpp:38-39 | which commands the crash theorems admit, told from the book the command finds |
| Durability.NumberedFromOne | store/write_ahead_log.cpp:58-63 | across restarts the log numbers its records one, two, three |
| Durability.FullDisplayDiverges | store/wal_record.cpp:38-39 | a concrete iceberg displaying all it holds: doubled in size, the live book shows ten and the replayed one twenty |
| Streams.AnyChunking | net/frame_assembler.cpp:15-63 | for any split of a stream into arrivals, with frames taken at any time, what was handed out and what is held are one parse of the whole stream |
| Streams.DrainedReceiver | net/frame_assembler.cpp:19-63 | once drained, the receiver has handed out exactly the frames of the whole stream and meets the same error after them |
| Frames.FramesLawful | net/frame_assembler.cpp:19-63 | a verdict on the front of the stream is never changed by later bytes |
| Frames.FrameAssembler.Append | net/frame_assembler.cpp:15-17 | the pending bytes grow by exactly what arrived |
| Frames.FrameAssembler.Compact | net/frame_assembler.cpp:65-76 | the pending bytes are unchanged, and the used front is then under half of the buffer |
| Frames.FrameAssembler.Next | net/frame_assembler.cpp:19-63 | yields the frame, the wait or the error of the pending bytes and consumes only a frame; after a wait the buffer holds at most 2 * (maxBody + 3) bytes |
| Frames.Drain | net/session.cpp:88-95 | taking frames until none is whole gives the frames, rest and error of one parse |
| Protocol.FinishFrame | net/protocol.cpp:31-39 | the loop writes the body length over the placeholder and nothing else |
| Protocol.Encode | net/protocol.cpp:74-136 | each message becomes the frame of its type and payload |
| Protocol.DecodeClientMessage | net/protocol.cpp:142-183 | accepts exactly client types of exact length with side and kind in range, and reads their fields |
| Protocol.DecodeServerMessage | net/protocol.cpp:185-221 | accepts exactly server types of exact length with reason and side in range, and reads their fields |
| Protocol.MessageReadBack | net/protocol.cpp:74-221 | every sendable message is read back as sent by its own direction and refused by the other |
| Protocol.FrameReadBack | net/frame_assembler.cpp:31-62 | a frame is taken off whatever follows it iff its body is within the limit, else the length error names it |
| Protocol.ReceivedAsSent | net/frame_assembler.cpp:15-76 | messages sent one after another, cut into any arrivals and taken off at any times, are received as the same messages, without error and with nothing left over |
| Protocol.StreamReadBack | net/protocol.cpp:74-221 | concatenated encodings parse and decode to the original messages with nothing left over |

## Left out

- Sockets, epoll, sessions and thread wiring (net/reactor.cpp, net/socket.cpp, net/server.cpp, net/session.cpp): mostly system calls.
- SQLite and the database half of recovery (store/sqlite.cpp, store/sqlite_store.cpp, store/recovery.cpp:57-96): foreign calls around an easy sum.
- Floating-point statistics, the L2 snapshot and feed (analytics): floating point, or a projection that would only add easy members.
- core/book_iterator.hpp: a walk over the same levels and queues; easy beside what is proved of them.
- Task type erasure and the worker pool (concurrent/task.hpp, concurrent/thread_pool.cpp): the queue with several consumers covers their interesting part.
- Order objects: an order is a value owned by the list node that holds it, and updating it in place is replacing that value, so aliasing of one order object by several pointers is not captured; `amend`, which the book never calls, is not modelled.
- List iterators are numbers kept by their node through unlinking and splicing, unique among the live nodes of a side.
- Allocation failure: preparing modifies nothing, which is the strong guarantee; which allocation fails is not modelled.
- The matching strategy is the price-time one; the strategy interface is not.
- Quantities, cached totals and the sequence counter are unbounded naturals except where an order's own quantity underflows, which wraps; their sums do not.
- Book.Book.Submit: requires that orders at prices an admissible order accepts show quantity, because the planner's own precondition does (core/price_time_strategy.cpp:78, undefined behaviour in a release build); `CommandKeepsHealthIff` gives the exact condition that keeps it so.
- Book.Book.Modify: requires the same of an amendment that requeues.
- Book.Book.Apply: requires the same of the command it dispatches.
- Recovery.ReplayAll: requires that each replayed command finds such a book, which `HealthyIsReady` derives from the condition on the commands.
- Recovery.RecoverBookOnly: requires the same.
- Engines.Engine.Run: requires the same of each command whose append succeeds.
- Durability.RecoveredExchange: asks nothing about orders on display; where a book violates the planner's precondition it speaks of the direct matcher, whose values need none. `RecoveredBookIsFit` adds the condition under which that cannot happen.
- WriteAheadLogs.WriteAheadLog.constructor: a file is opened with records this log could have written in front; bytes that decode to records but were encoded otherwise, such as a side byte of seven, are not covered.
- WriteAheadLogs.ScrapHidesTheRest: partial records of four or more bytes are not covered, because whether the decoder takes them for a record then depends on a checksum over the bytes that follow; `HidesIff` gives the condition on those bytes, and `LateScrap` settles the case of at most four missing.
- Power loss keeps a prefix of the file at least as long as what was forced; reordered or garbled unforced blocks are not modelled.
- File descriptors, short-write retries outside the crash machine, paths and the clock: writes append to a byte sequence, what the system makes of each is an arbitrary input, and so are clock readings.
- Log sequence numbers stay below two to the 64th.
- The lifetime of a frame's payload view: frames carry a copy of their bytes.
- Memory ordering of the engine's atomic counters: they are plain numbers of the one thread that writes them.
