# Smart Quant Collector: a verified model of its stateful cores

This project models, in Dafny 4.11, the parts of the market-data collector whose correctness depends on state kept
across many operations, and proves what they promise over every input, every run or every interleaving.

| file | what it models |
|---|---|
| `MpscQueue.dfy`, `RingIndex.dfy` | the cross-process multi-producer ring of the Rithmic gateway, as a step machine |
| `MpscOrder.dfy`, `MpscHalts.dfy`, `MpscPassing.dfy`, `MpscDrops.dfy`, `MpscMarks.dfy`, `MpscScenes.dfy` | what its drop branch does in every run: what is kept, when the consumer stops, what each position gives |
| `PriceLevels.dfy`, `BookSpec.dfy`, `BookCallbacks.dfy`, `OrderBook.dfy`, `BookBest.dfy` | the per-symbol order book, its batches, the callbacks that drive it, and what its bound hides |
| `DegradeProtocol.dfy`, `TickBuffer.dfy` | the DolphinDB insert, reconnect and fallback protocol, and the tick double buffer |
| `RecordLayout.dfy`, `MmapLog.dfy` | the binary orderbook record and the rolling append log it is written to |
| `Calendar.dfy`, `TradeDates.dfy`, `Partitions.dfy` | the three pieces of calendar arithmetic and the partition window |
| `SpscQueue.dfy`, `PubWorker.dfy` | the single-producer ring and the round-robin publisher on top of it |
| `TelemetrySlot.dfy`, `RestartLimiter.dfy` | the seqlock telemetry slot and the child restart limiter |
| `Machine.dfy` | shared definitions |

Lock-free and locking code is a step machine: every atomic access, lock operation or payload copy is one step, a run is
any sequence of steps, and atomics are sequentially consistent (the single-producer ring also admits stale loads of the
other side's counter). Code that updates objects or arrays in place is a class or an array method proved against a
specification function; the theorems are about those functions. Clocks, system calls, client calls and sends are
parameters.

## What the proofs say about the code

Where a promise is false of the code, the model follows the code; a lemma gives the failing input and another the
exact condition.

- Giving up in `TryPush` is not harmless, in three ways. Its sequence store a lap or more ahead of the consumer stops
  the consumer for good. In every run the consumer can get past the dropped position exactly if that is less than a lap
  ahead of it and nothing before it is impassable: published a lap too early, published and then published over, or
  waited for by a `Push` whose slot was published over. In a ring without a publish over a busy slot behind it, that
  means exactly if the slot had been freed when the drop is published; later on it does not. Its payload write, which
  comes before, destroys the event in the slot exactly if that event can not get through from elsewhere: from its
  pushing thread, if that can still come to write, or from the consumer, if it was copied out. And if a slow thread
  writes its event over the drop's blank and the drop then publishes on time, the consumer gets that event twice; no
  run gives a position anything but its event, the blank one or an earlier event of its slot. The expectation in
  `tests/test_rithmic_queue.cpp` that 64 queued ticks survive ten drops does not hold: none is ever popped.
- `Capacity == 1` passes the ring's static assertion, and the second push overwrites the first event.
- A full side of the order book rejects a better price. Its best level is the market's exactly if it holds a better
  price than every price it missed.
- `degraded_ == false` does not imply a working connection. There are three ways to get there: the initial `Connect`
  fails and only logs, a thread that reaches the gate late reconnects a healthy client and fails, or a working
  connection is lost. There is no fourth, and the first insert that fails on such a connection sets the flag. Unless
  the connection is lost meanwhile, a reconnect is sure to leave the flag right, however it ends, exactly if the flag
  was still set when it began.
- A tick can be stored twice. An insert that fails at a row leaves the earlier rows in the writer, which commits them
  when it is drained, and the whole batch then goes to the mmap file. Nothing is stored twice exactly if no insert of
  more than one tick reported failure after handing over a row while the file had room.
- CSV file names are one per day only for years before 9999: from then on the clamped year makes days share a name.
- Every date the validator accepts from January 1 of last year on has exactly one partition if and only if the schema
  was built in a year not before the validator's (one uses local time, the other UTC). The validator also accepts dates
  from 2000 on, which have none. The comment in `timestamp_util.h` puts the window's end at the end of the year
  five years ahead; the code ends it at the last day before that year, and the model follows the code.
- `DrainAll` stops at the first cycle that sends nothing. It empties the queues exactly if every cycle before the last
  item of the longest queue gets some item out, which depends only on the queues and on how the sends end.
- The restart limiter allows one restart more per minute than `max_restarts_per_min`, and no more. As it looks at the
  child every half second, it can get there exactly for a maximum below 120. It does not give up on a rate: it gives up
  exactly after `max_restarts_per_min + 1` gaps in a row shorter than a minute, so also on deaths 59 seconds apart, with
  never more than two restarts in a minute. At the largest 32-bit maximum the counter wraps and it never gives up.

## Model

| member | source | states |
|---|---|---|
| `MpscQueue.StructureStep` | src/exchange/rithmic/rithmic_queue.h:97-170 | every step that does not publish a drop over a busy slot keeps the slot discipline: claimed positions are published or held by one producer, blocked claims may be laps ahead, sequences are those of the current lap |
| `MpscQueue.PayloadsStep` | src/exchange/rithmic/rithmic_queue.h:104-170 | every step whose drops hit only freed slots keeps each published slot holding the event its claimer offered |
| `MpscQueue.Fifo` | src/exchange/rithmic/rithmic_queue.h:97-170 | in every interleaving of any number of producers and the consumer without the drop branch, the events popped are the claimed events in claim order |
| `MpscQueue.FifoWithFreeDrops` | src/exchange/rithmic/rithmic_queue.h:97-170 | with drops on freed slots the k-th event popped is the one claimed at k, blank if its producer gave up, and every claimed and unpopped event is in its slot or still held by its producer |
| `MpscQueue.ExclusiveSlots` | src/exchange/rithmic/rithmic_queue.h:109-141 | no slot is being written by two producers, or while it holds an unread event or one being popped |
| `MpscOrder.OrderStep` | src/exchange/rithmic/rithmic_queue.h:97-170 | every step, publishes over busy slots included, keeps positions popped in order, each held by at most one producer and published by that one only, events written only less than a lap ahead of the consumer, and no slot free for a position a lap or more ahead |
| `MpscHalts.DropOnBusySlotHalts` | src/exchange/rithmic/rithmic_queue.h:119-135 | for every drop of every run: published a lap or more ahead of the consumer it is popped in no continuation; if an earlier position of its slot was published and not being popped, no continuation pops that position or anything after it; and before the first publish over a busy slot every drop over a busy slot is a lap ahead |
| `MpscPassing.PoppableIff` | src/exchange/rithmic/rithmic_queue.h:104-170 | after every run some continuation pops a claimed position if and only if every position up to it is being popped, or published less than a lap ahead, or held by a thread other than a `Push` that missed its slot's turn |
| `MpscPassing.DropPassedIff` | src/exchange/rithmic/rithmic_queue.h:124-135 | after any drop of any run is published some continuation pops its position if and only if it was less than a lap ahead of the consumer and nothing before it was impassable |
| `MpscScenes.BusyDropPopped` | src/exchange/rithmic/rithmic_queue.h:124-135 | a run in which a drop finds its slot not free for it, publishes, and its position can be popped |
| `MpscHalts.DroppedPositionPoppableIff` | src/exchange/rithmic/rithmic_queue.h:124-135 | in an intact ring, one without a publish over a busy slot behind it: after a drop is published some continuation pops its position if and only if the slot had been freed for it at that moment |
| `MpscDrops.EventSurvivesDropIff` | src/exchange/rithmic/rithmic_queue.h:131-131 | for every drop of every run: after its blank payload is written over the slot of an earlier position, some continuation still delivers the event claimed there if and only if nothing before is impassable and the event is copied out or with its pushing thread, which has the slot or finds it free; up to the first publish over a busy slot, if and only if it is copied out or still with its pushing thread |
| `MpscMarks.MarkedStep` | src/exchange/rithmic/rithmic_queue.h:104-170 | every step keeps each payload that is shown, written, copied or popped what the marks of destroyed and overwritten payloads say it is |
| `MpscMarks.WhatIsPopped` | src/exchange/rithmic/rithmic_queue.h:97-170 | in every run a position popped gave its claimed event, or blank exactly if a drop destroyed that event in its slot; a position given up on gave blank, or the event of an earlier position of its slot exactly if that was written over the blank |
| `MpscScenes.DropRepeatsEvent` | src/exchange/rithmic/rithmic_queue.h:125-142 | a run with one drop, and no publish over a busy slot, in which one event is popped twice |
| `MpscDrops.DropErasesUnreadEvent` | src/exchange/rithmic/rithmic_queue.h:125-134 | on a full ring of any size a drop whose slot is freed in time for its publish has turned the oldest event blank |
| `MpscDrops.BlankedForever` | src/exchange/rithmic/rithmic_queue.h:109-170 | once blanked, an event is delivered in no continuation, clobbering ones included |
| `MpscDrops.ReadyDelivers` | src/exchange/rithmic/rithmic_queue.h:158-170 | a published event less than a lap ahead, with nothing impassable before it, has a continuation that pops everything before it and then it, unchanged |
| `MpscHalts.NoDeadlock` | src/exchange/rithmic/rithmic_queue.h:104-170 | from every state without a busy-slot drop behind it there is a continuation that pops any given claimed position |
| `MpscHalts.DropOnFullRingLosesEverything` | tests/test_rithmic_queue.cpp:145-157 | fill the ring, let one push give up, and no event is ever popped, whatever follows |
| `MpscHalts.OneSlotOverwrites` | src/exchange/rithmic/rithmic_queue.h:28-29 | with capacity 1 the second push succeeds over the unread first event and nothing is ever popped |
| `MpscHalts.GiveUpOnFull` | src/exchange/rithmic/rithmic_queue.h:119-135 | a bounded push on a full ring spins out, counts one drop and leaves the consumer stuck at the oldest event |
| `RingIndex.IndexIsRemainder` | src/exchange/rithmic/rithmic_queue.h:80-80 | the slot function used throughout is the remainder that masking with a power of two takes |
| `PriceLevels.Canonical` | src/rithmic_gateway/rithmic_orderbook.h:125-141 | a sorted side is determined by its price-to-quantity map |
| `PriceLevels.RemovedAt` | src/rithmic_gateway/rithmic_orderbook.h:112-117 | shifting left over a level keeps the side sorted and removes exactly that price |
| `PriceLevels.InsertedAt` | src/rithmic_gateway/rithmic_orderbook.h:125-141 | shifting right and inserting at the ordered position keeps the side sorted and adds exactly that price |
| `PriceLevels.UpdatedAt` | src/rithmic_gateway/rithmic_orderbook.h:107-110 | overwriting a quantity is the map update at that price and nothing else |
| `OrderBook.ShiftLeft` | src/rithmic_gateway/rithmic_orderbook.h:113-115 | the in-place loop removes one position of the live prefix |
| `OrderBook.ShiftRight` | src/rithmic_gateway/rithmic_orderbook.h:136-140 | the in-place loop inserts one level into the live prefix |
| `OrderBook.InsertPosition` | src/rithmic_gateway/rithmic_orderbook.h:128-133 | the position found has exactly the better prices before it, for either side |
| `OrderBook.ApplyLevelTo` | src/rithmic_gateway/rithmic_orderbook.h:98-142 | the array stays strictly sorted with positive quantities and at most 100 levels, and read as a map it is the bounded-map update |
| `OrderBook.ApplyImageTo` | src/rithmic_gateway/rithmic_orderbook.h:78-91 | the array becomes the first 100 entries of positive size, in order |
| `OrderBook.RithmicOrderBook.constructor` | src/rithmic_gateway/rithmic_orderbook.h:228-239 | a new book is empty on both sides, with empty pending buffers and no batch |
| `OrderBook.RithmicOrderBook.ApplyImage` | src/rithmic_gateway/rithmic_orderbook.h:78-91 | one side is replaced by the truncated image, all else is unchanged, the sorted arrays still represent the maps |
| `OrderBook.RithmicOrderBook.ApplyLevel` | src/rithmic_gateway/rithmic_orderbook.h:98-142 | one side takes the bounded update, all else is unchanged, the sorted arrays still represent the maps |
| `OrderBook.RithmicOrderBook.BeginBatch` | src/rithmic_gateway/rithmic_orderbook.h:148-152 | pending buffers are emptied and a batch is open; the book is unchanged |
| `OrderBook.RithmicOrderBook.BufferLevel` | src/rithmic_gateway/rithmic_orderbook.h:154-161 | one side's buffer grows by the level unless it holds 100; the book is unchanged |
| `OrderBook.RithmicOrderBook.CommitBatch` | src/rithmic_gateway/rithmic_orderbook.h:163-173 | both sides take their buffered levels and the batch is closed with empty buffers |
| `OrderBook.RithmicOrderBook.CancelBatch` | src/rithmic_gateway/rithmic_orderbook.h:175-179 | the batch is closed with empty buffers and the book is unchanged |
| `OrderBook.RithmicOrderBook.Clear` | src/rithmic_gateway/rithmic_orderbook.h:183-189 | book and buffers are empty and no batch is open |
| `OrderBook.RithmicOrderBook.SnapshotTo` | src/rithmic_gateway/rithmic_orderbook.h:194-215 | the event lists the book's levels, best first on both sides, and nothing else |
| `OrderBook.ShownOnce` | src/rithmic_gateway/rithmic_orderbook.h:194-215 | a book has only one snapshot: two events that show the same sides carry the same levels |
| `OrderBook.MyCallbacks.PushSnapshot` | src/rithmic_gateway/rithmic_callbacks.cpp:72-81 | exactly one event showing the book is pushed, stamped with the clock if the exchange gave no time, and none for an empty book without a time |
| `OrderBook.MyCallbacks.OnQuote` | src/rithmic_gateway/rithmic_callbacks.cpp:275-376 | an ask or bid quote moves the real book as the run of callbacks specifies and pushes the replay of the committed updates, with its time, exactly when it completes an update |
| `OrderBook.MyCallbacks.OnEndQuote` | src/rithmic_gateway/rithmic_callbacks.cpp:380-393 | the same for the end-of-quote callback, which commits only an open batch |
| `OrderBook.MyCallbacks.OnLimitOrderBook` | src/rithmic_gateway/rithmic_callbacks.cpp:214-263 | the same for the full image and the incremental update |
| `BookSpec.CommitInArrivalOrder` | src/rithmic_gateway/rithmic_orderbook.h:148-173 | applying all buffered bids and then all asks gives the book of the batch in arrival order, for every interleaving of sides and with levels beyond 100 per side ignored alike |
| `BookSpec.CallbackInSync` | src/rithmic_gateway/rithmic_callbacks.cpp:214-393 | each callback keeps the book equal to the replay of the committed updates and the buffers equal to the accepted levels of the open batch |
| `BookSpec.SnapshotsAreCommittedUpdates` | src/rithmic_gateway/rithmic_callbacks.cpp:214-393 | for every trace of callbacks the pushed snapshots are the replays of the updates committed by then: open or cancelled batches never show, committed ones show whole, and no open batch means empty buffers |
| `BookSpec.BoundedBookIsSubmap` | src/rithmic_gateway/rithmic_orderbook.h:78-173 | for every update sequence the 100-level book is a submap of the unbounded book, and equal to it until something is rejected or truncated |
| `BookSpec.BookIsSubmapOfIdeal` | src/rithmic_gateway/rithmic_callbacks.cpp:214-393 | the same for the book after any trace of callbacks |
| `BookCallbacks.IncrementalUpdate` | src/rithmic_gateway/rithmic_callbacks.cpp:232-256 | in any trace an incremental LimitOrderBook with distinct prices on a side sets each of its first entries, capped by the depth and by 100, to exactly its size if that is positive and the price was there or there was room at its turn, and leaves it absent otherwise; all other prices keep their quantity |
| `BookCallbacks.PositiveIs` | src/rithmic_gateway/rithmic_orderbook.h:78-91 | the levels taken from an image are exactly its entries of positive size, each with its own price and size, in order |
| `BookCallbacks.ImageUpdate` | src/rithmic_gateway/rithmic_callbacks.cpp:225-231 | in any trace a sorted image leaves the side with exactly its first 100 entries of positive size |
| `BookCallbacks.SoloQuote` | src/rithmic_gateway/rithmic_callbacks.cpp:284-290 | in any trace a solo quote sets its price to its size, or deletes it without a size flag or with a size that is not positive, needs room for a new price, changes nothing without a price flag, and touches no other price and not the other side |
| `BookCallbacks.OtherQuote` | src/rithmic_gateway/rithmic_callbacks.cpp:314-319 | a clearing quote empties the book, and a quote of an unknown type changes nothing |
| `BookCallbacks.PushesOnce` | src/rithmic_gateway/rithmic_callbacks.cpp:281-393 | one snapshot of the new book is pushed by a solo, ending or clearing quote, by an EndQuote with a batch open and by every LimitOrderBook, and none by a quote that begins or continues a batch |
| `BookCallbacks.EndIsMiddleThenEnd` | src/rithmic_gateway/rithmic_callbacks.cpp:299-313 | an ending quote does what the same quote as a Middle and then an EndQuote do, with a batch open or not |
| `BookCallbacks.BatchIsSolos` | src/rithmic_gateway/rithmic_callbacks.cpp:291-313 | a batch with at most 100 prices a side, sent in any trace, leaves the book its quotes leave when sent one by one, and pushes it once and nothing before |
| `BookBest.MissedIsTheDifference` | src/rithmic_gateway/rithmic_orderbook.h:121-123 | the prices rejected or truncated and not set or deleted since are exactly those the unbounded book has and the book has not |
| `BookBest.BestShownIff` | src/rithmic_gateway/rithmic_orderbook.h:121-123 | after any trace of callbacks a side shows the best level of the unbounded book if and only if it holds a better price than every price it missed |
| `BookBest.BestBidHidden` | src/rithmic_gateway/rithmic_orderbook.h:123-123 | a trace of 101 rising bids after which the best bid is not shown |
| `DegradeProtocol.InvNext` | src/storage/backend/dolphindb_backend.cpp:57-127 | every step of every thread keeps the agreement of locks, gate, flag and connection generation |
| `DegradeProtocol.CallsNext` | src/storage/backend/dolphindb_backend.cpp:57-127 | every step of every thread keeps each call where its own history of attempts and recovery puts it |
| `DegradeProtocol.FlagIsHonest` | src/storage/backend/dolphindb_backend.cpp:57-127 | in every run, a clear flag with no pending store means no insert failed since the latest reconnect, and a failure on an old connection never degrades a newer one |
| `DegradeProtocol.FlagHidesDeadConnectionIff` | src/storage/backend/dolphindb_backend.cpp:41-127 | in every run with no store to the flag outstanding, the flag is clear over a dead connection if and only if no insert has failed on it yet and it is the initial one, or was made by a reconnect that ran with the flag already clear, or worked and was lost |
| `DegradeProtocol.LossGoesUnnoticed` | src/storage/backend/dolphindb_backend.cpp:119-126 | a run in which a reconnect succeeds and clears the flag and the connection is lost before anybody tries it |
| `DegradeProtocol.ReconnectIsExclusive` | src/storage/backend/dolphindb_backend.cpp:103-127 | at most one thread is past the gate or reconnecting, and nobody inserts meanwhile |
| `DegradeProtocol.EveryCallSettles` | src/storage/backend/dolphindb_backend.cpp:57-127 | every finished call had one insert report success or ran the fallback once, not both and not neither; it made a second attempt if and only if it may retry, the first did not store and TryReconnect returned true; it ran the fallback if and only if no attempt stored; it gave up at the gate without a shutdown only after the whole spin budget |
| `DegradeProtocol.RetryStores` | src/storage/backend/dolphindb_backend.cpp:73-79 | a run in which an insert fails, the reconnect succeeds and the second attempt stores, without the fallback |
| `DegradeProtocol.StepProgresses` | src/storage/backend/dolphindb_backend.cpp:57-127 | every step that is not a wait for a lock brings the end of the running calls nearer |
| `DegradeProtocol.NoDeadlock` | src/storage/backend/dolphindb_backend.cpp:99-127 | while a call runs, some thread can move |
| `DegradeProtocol.AllCallsReturn` | src/storage/backend/dolphindb_backend.cpp:57-127 | from every reachable state all calls can be driven to their end, even if every client call fails |
| `DegradeProtocol.RedundantReconnectGoesUnnoticed` | src/storage/backend/dolphindb_backend.cpp:103-127 | a run of two threads that ends with a clear flag and a dead connection |
| `DegradeProtocol.FlagRightAfterReconnectIff` | src/storage/backend/dolphindb_backend.cpp:119-126 | whatever other threads do meanwhile, if the connection is not lost in between, the flag matches it after a reconnect, however that ends, if and only if the flag was still set when it began |
| `TickBuffer.DolphinDBBackend.constructor` | src/storage/backend/dolphindb_backend.cpp:149-153 | both buffers start empty with nothing given and nothing flushed |
| `TickBuffer.DolphinDBBackend.InsertTick` | src/storage/backend/dolphindb_backend.cpp:149-181 | the buffers and the flush log move as the run specification says, with the inactive buffer empty and the two sinks holding exactly what the log records |
| `TickBuffer.DolphinDBBackend.Buffer` | src/storage/backend/dolphindb_backend.cpp:152-177 | the locked section keeps all ticks: it either hands over the whole active buffer with the new tick and flips, or keeps them buffered |
| `TickBuffer.DolphinDBBackend.Validate` | src/storage/backend/dolphindb_backend.cpp:208-217 | exactly the ticks with a valid timestamp remain, in order |
| `TickBuffer.ValidCounts` | src/storage/backend/dolphindb_backend.cpp:208-217 | validation keeps every tick that passes the test as often as it came, and no other |
| `TickBuffer.OnlyValidTicks` | src/storage/backend/dolphindb_backend.cpp:208-228 | over every run a tick is in database, file or lost only if it passed the test of the flush it was in, so never with timestamp 0, before 2000 or past the largest valid one; the valid ticks are exactly those that passed, as often as they were given |
| `TickBuffer.DolphinDBBackend.WriteBatchToMmap` | src/storage/backend/dolphindb_backend.cpp:224-227 | the fallback receives the batch in order, as far as the file takes it |
| `TickBuffer.DolphinDBBackend.TableInsertTrades` | src/storage/client/dolphindb_client.cpp:272-296 | rows go to the writer in order up to the first it refuses, where they stay, and success is reported exactly if it refused none |
| `TickBuffer.DolphinDBBackend.FlushBuffer` | src/storage/backend/dolphindb_backend.cpp:205-229 | the log grows by this flush, with its batch, validity test, reported result, offers, room and destinations, and the sinks grow by what it records, partial commits of a failed insert included |
| `TickBuffer.FlushOfOk` | src/storage/backend/dolphindb_backend.cpp:205-229 | a reported success put everything valid in the database and nothing in the file; after a reported failure a proper prefix may be in the database, the file has as much from the front as fits, and lost is what neither has; the batch is offered at most once and not at all if nothing is valid |
| `TickBuffer.DolphinDBBackend.FlushAndClose` | src/storage/backend/dolphindb_backend.cpp:231-242 | both buffers are drained as the run specification says, each with its own fate and room, and the sinks hold what the log records |
| `TickBuffer.EveryTickInOneBatch` | src/storage/backend/dolphindb_backend.cpp:149-181 | after every sequence of InsertTick calls each tick given is in exactly one flushed batch or in the active buffer, in order |
| `TickBuffer.FlushedWhenDue` | src/storage/backend/dolphindb_backend.cpp:156-176 | in every run a tick makes a flush if and only if the unflushed ticks with it have reached the buffer size or the interval has passed; the batch then is all of them, and otherwise they stay buffered |
| `TickBuffer.EveryValidTickDelivered` | src/storage/backend/dolphindb_backend.cpp:149-243 | for every sequence of InsertTick calls ending in FlushAndClose, database and mmap file each hold their ticks in the order given; with the lost ones they are the ticks valid when flushed and once more those in both; none is lost exactly if every batch whose insert reported failure fitted the file, and no batch is offered twice |
| `TickBuffer.NoTickTwiceIff` | src/storage/backend/dolphindb_backend.cpp:220-228 | over the same runs every valid tick is in exactly one of database, file and lost if and only if no insert of more than one tick reported failure after handing over a row while the file had room |
| `TickBuffer.FirstRowStoredTwice` | src/storage/backend/dolphindb_backend.cpp:220-228 | a batch of two whose insert fails at the second row leaves the first tick in the database and in the file |
| `TickBuffer.OpenFallbackLosesNothing` | src/storage/backend/dolphindb_backend.cpp:149-243 | with a fallback that stays open, after FlushAndClose every tick given has been flushed, every one that was valid is in the database or the mmap file, and in both are exactly the rows committed by inserts that reported failure |
| `TickBuffer.OneTestPasses` | src/storage/backend/dolphindb_backend.cpp:208-217 | if one validity test judged all batches, those are exactly the valid ticks of the whole stream |
| `TickBuffer.NothingLostIff` | src/storage/backend/dolphindb_backend.cpp:224-228 | nothing valid is lost over a history of flushes if and only if every batch whose insert reported failure fitted the mmap file |
| `TickBuffer.PassedIsValidGiven` | src/storage/backend/dolphindb_backend.cpp:205-243 | under one validity window, validating batch by batch is validating the whole flushed stream |
| `RecordLayout.NumberRoundTrip` | src/storage/record_layout.h:38-44 | a number that fits its field is read back from its little-endian bytes |
| `RecordLayout.LevelsRoundTrip` | src/orderbook/orderbook_event.h:16-19 | an array of levels is read back from its 16-byte entries |
| `RecordLayout.MostSignificantLast` | src/storage/record_layout.h:38-44 | the last byte of a field is the most significant |
| `RecordLayout.HeaderLayout` | src/storage/record_layout.h:38-44 | timestamp, local time, symbol with zero padding and the two counts are at bytes 0, 8, 16, 48 and 52 |
| `RecordLayout.LevelLayout` | src/storage/backend/mmap_backend.cpp:115-117 | bid i is at byte 56 + 16 i and ask i behind all bids, each as price and then quantity |
| `RecordLayout.ParseEncoded` | src/storage/backend/mmap_backend.cpp:107-118 | a reader of the layout recovers the record and exactly the bytes behind it |
| `RecordLayout.ParsePartial` | src/storage/backend/mmap_backend.cpp:115-117 | a record cut short at any byte is not taken for a record |
| `RecordLayout.DecodeEncoded` | src/storage/backend/mmap_backend.cpp:107-118 | decoding a stream of records gives them back and leaves what follows to be decoded on its own |
| `MmapLog.MappedSize` | src/storage/engine/mmap_engine.cpp:37-38 | rounding up to pages gives a mapping that holds the maximum file size with less than a page to spare, and at least one page for a non-empty file |
| `MmapLog.WriteInsideIff` | src/storage/engine/mmap_engine.cpp:88-96 | an append stays inside the mapping from every offset if and only if an empty file can hold it |
| `MmapLog.AppendOk` | src/storage/engine/mmap_engine.cpp:88-96 | an append that an empty file can hold keeps every file's contents inside its mapping and the offset at their end |
| `MmapLog.AppendStores` | src/storage/engine/mmap_engine.cpp:88-143 | an append that is not refused adds its bytes at the end of the stream of files, roll or no roll |
| `MmapLog.ClosedStoresNothing` | src/storage/engine/mmap_engine.cpp:89-89 | a closed engine never stores another byte |
| `MmapLog.StoredIsChunkPrefix` | src/storage/engine/mmap_engine.cpp:88-143 | for every run of appends the stream is the chunks up to the first failed roll, and the engine is open exactly if no roll failed |
| `MmapLog.FilesFilled` | src/storage/engine/mmap_engine.cpp:88-96 | over every run of appends the chunks stored lie in the files in order; a file is left only when its contents and the chunk that opened the next one reach the maximum together, a file with more than that chunk stays below the maximum, and a roll that failed was needed |
| `MmapLog.OneFileWhileItFits` | src/storage/engine/mmap_engine.cpp:90-95 | everything stays in the first file while header and chunks are below the maximum |
| `MmapLog.WritesCompose` | src/storage/backend/mmap_backend.cpp:107-118 | successive orderbook writes are one run of appends |
| `MmapLog.DecodeReturnsWritten` | src/storage/backend/mmap_backend.cpp:107-118 | while rolls succeed, decoding the files in order returns exactly the orderbooks written, even where a roll parts a header from its levels |
| `MmapLog.FailedRollKeepsCompleteRecords` | src/storage/engine/mmap_engine.cpp:98-133 | after a failed roll the files hold the chunks before it, the reader gets exactly the records complete by then, and no later write adds anything |
| `MmapLog.MmapStorageEngine.constructor` | src/storage/engine/mmap_engine.cpp:21-64 | a successfully opened engine has one empty file and its offset behind the 64-byte header |
| `MmapLog.MmapStorageEngine.RollNewFile` | src/storage/engine/mmap_engine.cpp:98-143 | success gives a fresh mapping at offset 64, failure leaves the engine closed |
| `MmapLog.MmapStorageEngine.AppendRaw` | src/storage/engine/mmap_engine.cpp:88-96 | all bytes are written inside the mapping and the chain of files changes as specified, closed engines and empty chunks included |
| `MmapLog.MmapStorageEngine.WriteOrderbook` | src/storage/backend/mmap_backend.cpp:107-118 | the branches append exactly the record's chunks, skipping empty sides |
| `Calendar.YearBracket` | src/storage/engine/csv_writer.cpp:38-43 | the corrected division of the day of era finds the one year of era that contains the day |
| `Calendar.DaysRoundTrip` | src/storage/engine/csv_writer.cpp:36-47 | the date computed from a day number is a valid date whose day number, computed by the other formula, is that number |
| `Calendar.DateRoundTrip` | src/storage/timestamp_util.h:37-44 | every valid date is recovered from its day number |
| `Calendar.DayNumberMonotone` | src/storage/timestamp_util.h:37-44 | an earlier date has a smaller day number |
| `Calendar.DayNumberInjective` | src/storage/timestamp_util.h:37-44 | different dates have different day numbers |
| `Calendar.NextDay` | src/storage/engine/csv_writer.cpp:36-47 | stepping the day number and stepping the date agree across month ends, leap days and year ends |
| `TradeDates.YearAtMost9999` | src/storage/engine/csv_writer.cpp:49-49 | the year clamp is idle exactly up to the last day of 9999 |
| `TradeDates.TimestampToDateIs` | src/storage/engine/csv_writer.cpp:36-56 | the printed string is the full-date form of section 5.6 of RFC 3339 of the day's date, with only the year ever clamped |
| `TradeDates.FullDateCharacters` | src/storage/engine/csv_writer.cpp:53-54 | the printed date is, character by character, four year digits, '-', two month digits, '-', two day digits |
| `TradeDates.TimestampLimits` | src/storage/timestamp_util.h:21-27 | the two limits of a timestamp are 2000-01-01 and 2100-01-01 |
| `TradeDates.TimestampRoundTrip` | src/storage/engine/csv_writer.cpp:36-56 | parsing the printed date and counting its days gives back the timestamp's day, for every timestamp up to year 9999 |
| `TradeDates.DatePrintedForItsDay` | src/storage/engine/csv_writer.cpp:36-56 | every date from 1970 to 9999 is the one printed for the timestamps of its day |
| `TradeDates.FileNameIsUniqueIff` | src/storage/engine/csv_writer.cpp:58-69 | over all 64-bit timestamps a file name belongs to one day if and only if the day's year is before 9999 |
| `TradeDates.NamesCollide` | src/storage/engine/csv_writer.cpp:49-49 | from year 9999 on every 64-bit timestamp's day shares its file name with another day of the range |
| `Partitions.TradeDateCache.IsValidTradeDate` | src/storage/timestamp_util.h:63-87 | under sequential calls the cached bound gives the answer of a fresh computation for the current day |
| `Partitions.TradeDateCache.IsValidExchangeTimestamp` | src/storage/timestamp_util.h:48-93 | a timestamp is accepted exactly if it is not zero, not past the largest valid one, and its day is valid today |
| `Partitions.BuildRangeSpec` | src/storage/client/dolphindb_schema.cpp:14-50 | the nested loops print exactly the boundary dates of the granularity, quoted and comma-separated, and a reader of the list gets exactly them back |
| `Partitions.ReadJoined` | src/storage/client/dolphindb_schema.cpp:25-47 | reading a printed list of dates gives back the dates, in order |
| `Partitions.QuotedCharacters` | src/storage/client/dolphindb_schema.cpp:31-31 | a listed date is, character by character, year, month and day with dots, in quotes |
| `Partitions.BoundariesIncrease` | src/storage/client/dolphindb_schema.cpp:24-47 | for day, month and year granularity the boundaries are valid, strictly increasing dates over the years asked for, and consecutive days for day granularity |
| `Partitions.CoveredIff` | src/storage/client/dolphindb_schema.cpp:14-50 | with increasing boundaries a day lies in an interval exactly from the first boundary up to before the last, and then in only one |
| `Partitions.WindowCoversIff` | src/storage/client/dolphindb_schema.cpp:131-136 | every day from January 1 of last year to the validator's maximum has exactly one partition if and only if the validator's year is not after the schema's |
| `Partitions.OldDatesHaveNoPartition` | src/storage/client/dolphindb_schema.cpp:135-136 | a date from 2000 on but before last year is accepted by the validator and has no partition |
| `Partitions.AcceptedDatesCoveredIff` | src/storage/timestamp_util.h:86-86 | every accepted date has exactly one partition if and only if the schema reaches back to 2000-01-01 and the validator's year is not after the schema's, or nothing is accepted |
| `RingIndex.IndexNested` | src/common/spsc_queue.h:44-44 | a counter taken modulo a multiple of the capacity selects the slot of the unbounded counter |
| `RingIndex.WrapSubIndex` | src/common/spsc_queue.h:41-41 | the wrapped difference of two counters less than a modulus apart is their true difference |
| `SpscQueue.InvNext` | src/common/spsc_queue.h:38-59 | every step of either side keeps the ring's invariant, with any staleness of the other side's counter |
| `SpscQueue.Fifo` | src/common/spsc_queue.h:38-59 | in every interleaving, with stale loads and counters wrapping at 2^64, the items popped are the items pushed in order, none lost, repeated or overwritten, and never more than the capacity are held |
| `SpscQueue.StepRefines` | src/common/spsc_queue.h:38-59 | every step is a step of a bounded FIFO queue: enqueue into a queue with room, dequeue of its front, or nothing |
| `SpscQueue.PushRefusedIff` | src/common/spsc_queue.h:39-43 | a push is refused exactly if the queue was full by the counter it saw |
| `SpscQueue.PopRefusedIff` | src/common/spsc_queue.h:52-56 | a pop is refused exactly if the queue was empty by the counter it saw |
| `PubWorker.Conservation` | src/pubsub/pub_worker.cpp:50-165 | over any number of cycles, arrivals and send failures, accepted publishes are sent, dropped for one counted reason, unroutable or still queued |
| `PubWorker.DrainConserves` | src/pubsub/pub_worker.cpp:169-176 | the same across a drain |
| `PubWorker.VisitedExactlyOnce` | src/pubsub/pub_worker.cpp:154-165 | from any cursor a cycle visits each queue exactly once |
| `PubWorker.FirstExactlyOnce` | src/pubsub/pub_worker.cpp:164-164 | over as many cycles as there are queues each queue is visited first exactly once |
| `PubWorker.EveryItemInLine` | src/pubsub/pub_worker.cpp:50-150 | over any mix of publishes and visits from a new worker, what was taken from a queue and what waits in it are exactly the items published for it that did not find it full by the read counter they saw, in order, and the queue drops are exactly the others |
| `PubWorker.VisitsAreMix` | src/pubsub/pub_worker.cpp:154-165 | the visits of a cycle, with the arrivals between them, are such a mix |
| `PubWorker.RoutableIff` | src/pubsub/pub_worker.cpp:80-90 | a channel is routable exactly if it has a non-empty prefix and a topic of at most 63 characters |
| `PubWorker.Fairness` | src/pubsub/pub_worker.cpp:130-165 | n cycles pop exactly the first items a queue held, one for each of its pops that sees an item, whatever is pushed meanwhile, so an item with k ahead of it goes at pop k + 1 of those, which is in cycle k + 1 if no counter load is stale |
| `PubWorker.DrainEmpties` | src/pubsub/pub_worker.cpp:169-176 | a drain whose sends succeed empties every queue |
| `PubWorker.DrainEmptiesIff` | src/pubsub/pub_worker.cpp:169-176 | a drain empties every queue if and only if in every cycle j after which some queue would still hold an item, some queue with more than j items gets its send through; the visits are computed from the cursor and the initial queue lengths |
| `PubWorker.DrainMayStopEarly` | src/pubsub/pub_worker.cpp:169-176 | one refused send among successes can leave an item behind |
| `PubWorker.Worker.constructor` | src/pubsub/pub_worker.cpp:32-43 | a new worker has three empty queues per shard and all counters zero |
| `PubWorker.Worker.Enqueue` | src/pubsub/pub_worker.cpp:50-72 | an item goes to the back of its shard's queue, or is counted as dropped if that is full by the read counter seen, however stale; a shard out of range changes nothing |
| `PubWorker.Worker.SendTyped` | src/pubsub/pub_worker.cpp:77-121 | a send succeeds exactly if the channel has a topic that fits, a buffer is free and both frames are accepted, and each way of failing moves exactly its own counter |
| `PubWorker.Worker.TrySendOne` | src/pubsub/pub_worker.cpp:130-150 | the front item of one queue is popped whether or not it can be sent, unless the pop sees no item, and the result is true exactly if it was sent |
| `PubWorker.Worker.DispatchCycle` | src/pubsub/pub_worker.cpp:154-165 | the loop is the specified cycle, the cursor moves on by one, and work is reported exactly if something was sent |
| `PubWorker.Worker.DrainAll` | src/pubsub/pub_worker.cpp:169-176 | the loop terminates because the backlog shrinks, and ends in the state the drain specifies |
| `TelemetrySlot.InvNext` | src/common/telemetry_slot.h:18-38 | every step of writer and reader keeps even versions showing one whole write and the reader's loads from that write while the version stands still |
| `TelemetrySlot.SnapshotsAreLatest` | src/common/telemetry_slot.h:18-38 | in every interleaving each accepted snapshot is, whole, the latest write completed when it is accepted (or the initial zeros), no older than any write completed before the read began, and successive ones never go back |
| `TelemetrySlot.QuietReadReturnsLatest` | src/common/telemetry_slot.h:28-38 | a read that meets no writer ends after one round with the latest write |
| `RestartLimiter.InvOnDead` | src/exchange/rithmic/rithmic_process_manager.cpp:318-332 | each handled death keeps counts running on while restarts are less than a minute apart, never above the maximum |
| `RestartLimiter.RestartsPerWindow` | src/exchange/rithmic/rithmic_process_manager.cpp:317-345 | in every run, restarts within less than a minute are at most the maximum plus one |
| `RestartLimiter.LoopIsMonitor` | src/exchange/rithmic/rithmic_process_manager.cpp:215-220 | the monitor loop over any rounds is a run of the limiter over exactly the rounds that found the child dead, in order |
| `RestartLimiter.DeadRoundsApart` | src/exchange/rithmic/rithmic_process_manager.cpp:215-220 | rounds a sleep apart see deaths a sleep apart |
| `RestartLimiter.FoundDeadIff` | src/exchange/rithmic/rithmic_process_manager.cpp:273-312 | a running child is found dead exactly if it has a heartbeat and was silent for at least the timeout plus one second of nanoseconds, in 64-bit arithmetic; a child that is gone always is |
| `RestartLimiter.AnyDeathsSeen` | src/exchange/rithmic/rithmic_process_manager.cpp:215-220 | every run of the limiter over deaths in order is one of the loop |
| `RestartLimiter.BoundIsAttainedIff` | src/exchange/rithmic/rithmic_process_manager.cpp:215-220 | with rounds at least half a second apart, some run of the monitor loop makes the maximum plus one restarts in less than a minute if and only if that many half seconds fit in a minute |
| `RestartLimiter.GivesUpIff` | src/exchange/rithmic/rithmic_process_manager.cpp:318-332 | over every sequence of deaths the monitor has given up if and only if some maximum plus one gaps in a row, counted from its start, are each shorter than a minute |
| `RestartLimiter.GivesUpBelowTheRate` | src/exchange/rithmic/rithmic_process_manager.cpp:321-328 | for every maximum, deaths 59 seconds apart make the monitor give up although no three restarts lie within a minute |
| `RestartLimiter.NeverGivesUpWithoutLimit` | src/exchange/rithmic/rithmic_process_manager.cpp:322-323 | with the largest 32-bit maximum the counter wraps, every death is followed by a restart and the monitor never stops |
| `RestartLimiter.NoRestartAfterGivingUp` | src/exchange/rithmic/rithmic_process_manager.cpp:215-220 | after giving up, no later death leads to a restart |
| `RestartLimiter.RithmicProcessManager.constructor` | src/exchange/rithmic/rithmic_process_manager.cpp:40-41 | no restart has been counted and the limiter's clock starts at construction |
| `RestartLimiter.RithmicProcessManager.CheckHealth` | src/exchange/rithmic/rithmic_process_manager.cpp:267-346 | the limiter moves exactly if the child is gone or silent beyond the timeout; the result is true exactly if it was alive, or was restarted within the limit and spawned, and exactly if there is a child afterwards |
| `RestartLimiter.RithmicProcessManager.RestartChild` | src/exchange/rithmic/rithmic_process_manager.cpp:318-345 | the limiter's new state is the specified one, its invariant is kept, and the result is true exactly if it did not give up and the spawn succeeded |
| `RestartLimiter.RithmicProcessManager.MonitorLoop` | src/exchange/rithmic/rithmic_process_manager.cpp:215-220 | any number of rounds ends as the loop's specification says: a run of the limiter over exactly the rounds found dead, which are a sleep apart if the rounds are |

## Left out

- Weak memory orders: atomics are sequentially consistent, except for the stale counter loads of the single-producer ring.
- 64-bit wrap of the multi-producer ring's positions and of the telemetry version: both are unbounded here.
- Floating-point rounding and NaN: prices and quantities of the book are `real`; in records they are bit patterns.
- `OrderBook.MyCallbacks.OnQuote`: AskQuote and BidQuote are one method with the side as a parameter; the lookup of the book by symbol, the per-book spinlock and a full depth queue are not modelled.
- `OrderBook.RithmicOrderBook.SnapshotTo`: channel id, symbol, update id and the local clock reading are not carried.
- `OrderBook.RithmicOrderBook.ApplyImage`: takes the source's statement that images arrive sorted as a precondition, meaning strictly sorted once empty sizes are dropped.
- `TickBuffer.DolphinDBBackend.InsertTick`: concurrent callers are serialised at the buffer lock, and the flush after it is part of the same call, so the order of batches from different threads at the database is not modelled; one validity clock reading covers a batch, and how many more ticks the fallback file takes is an input.
- `Partitions.TradeDateCache.IsValidTradeDate`: calls are sequential; the two atomics of the cache are not interleaved.
- `Partitions.BuildRangeSpec`: start years before 1 are excluded, as the calendar formulas are.
- `MmapLog.MmapStorageEngine.AppendRaw`: requires that an empty file can hold the chunk; beyond that the source writes past the mapping, as `MmapLog.WriteInsideIff` delimits.
- `MmapLog.MmapStorageEngine.constructor`: models a successful open; a failed one is never used by its callers.
- `RestartLimiter.RestartsPerWindow`: excludes the maximum 2^32 - 1, for which `RestartLimiter.NeverGivesUpWithoutLimit` shows there is no bound.
- `PubWorker.Worker.DispatchCycle`: requires at least one shard, without which the source divides by zero.
- `PubWorker.Worker.DrainAll`: takes the producers to have been stopped and joined before, as the program does, so that nothing arrives and no counter load is stale.
- `PubWorker.Worker.Enqueue`: the three publish functions are one method with the kind as a parameter, and each queue is used as the bounded FIFO that `SpscQueue.StepRefines` shows it to be.
- Rows the database writer took are counted as in the database: rows it fails to send later, in its own threads, are not modelled, and the rows a failed insert handed over are taken to be committed.
- Splitting of loop bodies: some inner loops and loop bodies of the source are methods of their own here.
- AppendRecord, WriteBookTicker and the mixed fallback file: fixed-size records in the same log add only easy members, and the mixed file carries no tags to decode by.
- Reopening an existing mmap file, CSV writing, and the DDL and extension of partitions.
- WebSocket clients, exchange parsers, sockets, the buffer pool, shared-memory setup, process control, configuration and logging.
