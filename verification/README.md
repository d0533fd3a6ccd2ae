# Verified model of the storage engine and its companions

This project models, in Dafny, the code of the repository that keeps data: three buffer pools and the
slotted page of the database track, and, from the foundation track, the parser for telemetry frames, the
key-value store whose entries expire, and the bounded command queue. It proves what each of them promises.

`dafny verify dfyconfig.toml` checks everything.

| files | what they model |
|---|---|
| `Storage.dfy` | page identities, bytes, access modes, outcomes of a store write |
| `PoolV3*.dfy` | the sharded concurrent buffer pool, as a transition system |
| `Clock.dfy`, `ClockScan.dfy` | the CLOCK scan of the pools behind one lock, as a specification and as a class over the counts |
| `PagePool*.dfy` | what such a pool does to its state: single steps, exact outcomes of a fetch, whole runs, and flushes that others interrupt |
| `BufferPoolV1.dfy`, `BufferPoolV2.dfy` | the two pools behind one lock, as classes |
| `Page*.dfy`, `SlottedPage.dfy` | the slotted page: bytes, records, compaction, and the class over its array |
| `FrameCodec.dfy`, `FrameStream.dfy` | the frame format, the cursor, and the buffering connection |
| `TtlStore.dfy`, `PurgeTask.dfy` | the expiring store, and its background task with wake-ups |
| `CommandQueue.dfy`, `QueueMonitor.dfy` | command order, the bounded queue, and its monitor with two condition variables |

**The concurrent pool (V3).** Every critical section is one step of one thread: a shard lock, a frame's state
lock, an atomic operation outside both, or a call into the store. A thread's program counter names the critical
section it enters next; any interleaving is a run, and every store call may succeed, fail without effect, or
fail half way. A guard write has a beginning and an end, between which it holds the data lock. Two history
variables, the version in a page image and the list of contents each page has had, are read by no branch.
The steps are in `PoolV3.dfy`, the invariant in `PoolV3Invariant.dfy`; `PoolV3Steps`, `PoolV3Pins` and
`PoolV3Safety` prove it step by step, `PoolV3Runs` along runs, and `PoolV3Coherence`, `PoolV3Progress` and
`PoolV3Durability` say what it means. `PoolV3Fetch` follows one operation over a whole run, `PoolV3Alone` runs
one alone, `PoolV3Search` and `PoolV3GivingUp` say what a search for a victim finds, and `PoolV3Marks` who moves
reference marks and guards. `PoolV3TornFlush` and `PoolV3Missed` hold the runs in which something goes wrong, put
together from `PoolV3Schedules`.

**The pools behind one lock (V1, V2).** An operation is one step, but guards are dropped without the lock, so
the scan for a victim runs against an arbitrary schedule of drops between any two looks at a frame. A flush is
one step for every frame, and before each of them others do what the lock lets them do: use guards, and in V2
hit pages and flush frames. Between the two critical sections of a fetch in V2 anything may happen. Both classes
are proved to make exactly the steps of one specification, and that specification to be a page map.

## Findings

- *A failed write is not always harmless in V3.* A page whose write failed half way stays dirty in its frame
  and is written again, unless two calls of `flush_all` overlap on it: both find the frame dirty, the first
  writes it and marks it clean, then the second one's write fails half way. The frame is clean, the store
  is damaged, and an eviction drops the only good copy (`crates/database-track/src/module1/project1/buffer_pool_v3.rs:449-461`
  reads the dirty mark before taking the data lock). `PoolV3TornFlush.TearExactly` says exactly which failing
  write does the damage, `PoolV3TornFlush.SafeRunsExactly` that the runs without such a write are exactly those
  in which no store copy goes bad unnoticed, `PoolV3TornFlush.DamageSpreads` what an eviction then does, and
  `PoolV3TornFlush.OverlappingFlushesLoseAnUpdate` is a run from an initial state. All results about V3 hold
  for every run without such a write; `PoolV3Runs.RunsKeepInvariant` shows that there is none if failed writes
  leave the store as it was, or if flushes do not overlap.
- *A V3 fetch can fail with AllFramesPinned although a frame is free.* All searches advance one hand
  (`crates/database-track/src/module1/project1/buffer_pool_v3.rs:292-309`). `PoolV3Missed.SpuriousAllFramesPinned`
  is a run in which other searches keep it away from a frame that nobody ever pins. A search that runs alone
  finds an unpinned frame if and only if there is one, as long as the hand does not wrap during the search or the
  number of frames divides 2^64 (`PoolV3Search.AloneFindsUnpinned`). `PoolV3Search.SearchAlone` is the exact
  condition in every other case, and `PoolV3Search.WrapMisses` a state in which three frames and a wrapping hand
  make a lone search miss the free one.
- *`from_bytes` accepts pages that `compact` cannot compact.* It checks that every live slot lies inside the
  record region (`crates/database-track/src/module1/project1/page.rs:46-56`), not that records are disjoint or fit
  together, and `compact` subtracts every length from a 16-bit cursor
  (`crates/database-track/src/module1/project1/page.rs:224-226`). `PageRuns.CrowdedPageIsAccepted` is an accepted
  page with two slots on the same 4000 bytes, whose cursor comes to 4096 - 8000. The cursor underflows if and only
  if the live records are longer than a page, and the result is a page again if and only if they fit behind
  the slot directory (`PageCompact.CompactedExactly`). Where they do, compaction is right even if records
  overlap. `insert_compacting` never compacts any other page (`PageRuns.WorthIsSafe`).

## Model

| member | source | states |
|---|---|---|
| `PoolV3Runs.Reachable` | crates/database-track/src/module1/project1/buffer_pool_v3.rs:129-472 | the invariant (table, frames, loaders, guards, pins and page contents agree) holds in every state of every run from an empty pool in which no flush's write tears a page behind another flush |
| `PoolV3Runs.KeepStep` | crates/database-track/src/module1/project1/buffer_pool_v3.rs:129-472 | each single critical section, of any thread and with any store outcome, keeps it |
| `PoolV3Runs.RunsKeepInvariant` | crates/database-track/src/module1/project1/buffer_pool_v3.rs:422-472 | it holds over every run at all when failed writes leave the store as it was, and over every run with any store when flushes do not overlap |
| `PoolV3Coherence.NoLostUpdate` | crates/database-track/src/module1/project1/buffer_pool_v3.rs:179-290 | the content of a page, read off frame and store, is what the last finished guard write left, through hits, dirty evictions, failed writes, failed reads with roll-back and flushes |
| `PoolV3Coherence.RefinesPageMap` | crates/database-track/src/module1/project1/buffer_pool_v3.rs:129-290 | every step refines a plain page map: the end of a guard write replaces that page's bytes, no other step changes any page |
| `PoolV3Coherence.GuardReadsItsPage` | crates/database-track/src/module1/project1/buffer_pool_v3.rs:504-510 | what a guard reads through its frame is its own page's content |
| `PoolV3Coherence.FetchReturnsLatest` | crates/database-track/src/module1/project1/buffer_pool_v3.rs:129-177 | a fetch that succeeds, by hit or by load, returns a new guard on the page that it is working on, which shows the latest bytes |
| `PoolV3Fetch.FetchAnswers` | crates/database-track/src/module1/project1/buffer_pool_v3.rs:129-259 | over every run, from the start of a fetch of p: it works on p, through waits, lost claims and loads, until it replies; then with a guard on p that shows the last bytes written to p, or with an I/O error if and only if one of its own store calls has failed, or that all frames are pinned |
| `PoolV3Fetch.FlushAnswers` | crates/database-track/src/module1/project1/buffer_pool_v3.rs:422-472 | over every run: a flush replies Ok unless one of its own store calls has failed, and then it replies with an I/O error |
| `PoolV3Alone.FetchAlone` | crates/database-track/src/module1/project1/buffer_pool_v3.rs:129-259 | a lone fetch of an existing page over a store that works waits if another thread is loading or evicting the page; else ends with a guard on it if it is in a frame or some frame is unpinned; else waits for a frame being evicted or reports that all are pinned (with a hand that goes round evenly) |
| `PoolV3Alone.LoadAlone` | crates/database-track/src/module1/project1/buffer_pool_v3.rs:202-259 | in any state a loader with a victim, whose store calls succeed, comes to its reply by steps of its own |
| `PoolV3Alone.FailedLoadIsUndone` | crates/database-track/src/module1/project1/buffer_pool_v3.rs:261-290 | after a failed store call four steps of the loader undo the load: frame, old page, bytes, dirty mark and mapping are as before, pin count 0, and the page to be loaded is unmapped |
| `PoolV3Alone.FlushAlone` | crates/database-track/src/module1/project1/buffer_pool_v3.rs:422-472 | a lone flush over a store that works replies Ok |
| `PoolV3Coherence.ReadyIffValid` | crates/database-track/src/module1/project1/buffer_pool_v3.rs:236-248 | page p is mapped Ready to frame i if and only if frame i is Valid for p |
| `PoolV3Coherence.NoPageInTwoFrames` | crates/database-track/src/module1/project1/buffer_pool_v3.rs:233-248 | no page is in two frames |
| `PoolV3Coherence.OneLoaderPerPage` | crates/database-track/src/module1/project1/buffer_pool_v3.rs:163-175 | at most one thread is loading a page |
| `PoolV3Coherence.LeavingNamesOneFrame` | crates/database-track/src/module1/project1/buffer_pool_v3.rs:370-406 | an Evicting entry names the pending of exactly one frame being evicted |
| `PoolV3Coherence.PinAccounting` | crates/database-track/src/module1/project1/buffer_pool_v3.rs:143-149 | a pin count is the number of live guards, flush pins and loader reservations on the frame; a frame being evicted has its loader's reservation and nothing else |
| `PoolV3Coherence.GuardKeepsItsFrame` | crates/database-track/src/module1/project1/buffer_pool_v3.rs:345-399 | while a guard lives, no step takes its frame away from its page |
| `PoolV3Marks.GuardsExactly` | crates/database-track/src/module1/project1/buffer_pool_v3.rs:498-527 | a reply adds its own new guard, dropping one removes it, nothing else makes or removes any; a guard is writing from the beginning of a write to its end |
| `PoolV3Marks.GuardLives` | crates/database-track/src/module1/project1/buffer_pool_v3.rs:522-527 | over every run a guard exists until it is dropped, with its page and frame, and never again |
| `PoolV3Marks.MarksExactly` | crates/database-track/src/module1/project1/buffer_pool_v3.rs:329-420 | the reference mark that decides who is evicted next: a Normal hit sets it, a load sets it in Normal mode and clears it for a bulk read, the first sweep clears it where a frame is free to be taken, and nothing else changes it |
| `PoolV3Marks.MarkLasts` | crates/database-track/src/module1/project1/buffer_pool_v3.rs:228-259 | whatever others do, the mark of a frame that is being loaded stays what the mode of the fetch demands until the fetch replies |
| `PoolV3Progress.NoPanic` | crates/database-track/src/module1/project1/buffer_pool_v3.rs:261-290 | no reachable step indexes out of bounds, underflows a pin count, or misses the entry that roll-back expects |
| `PoolV3Progress.GuardIsCounted` | crates/database-track/src/module1/project1/buffer_pool_v3.rs:522-527 | a guard that is not writing can always be dropped, without underflowing the pin count of its frame |
| `PoolV3Progress.NoDeadlock` | crates/database-track/src/module1/project1/buffer_pool_v3.rs:311-327 | whenever an operation is in flight, some operation in flight can take a step |
| `PoolV3Progress.WaitsDownwards` | crates/database-track/src/module1/project1/buffer_pool_v3.rs:158-200 | whoever waits for an unfinished pending waits for a live loader of strictly lower rank |
| `PoolV3Progress.VictimHolderRuns` | crates/database-track/src/module1/project1/buffer_pool_v3.rs:202-290 | a loader that holds a victim is never blocked |
| `PoolV3Progress.VictimHolderDescends` | crates/database-track/src/module1/project1/buffer_pool_v3.rs:202-290 | a loader that holds a victim finishes its pending within eight steps of its own, whatever the store answers and whatever others do |
| `PoolV3Progress.SearchDescends` | crates/database-track/src/module1/project1/buffer_pool_v3.rs:292-327 | a search for a victim ends within seven of its own steps per frame and four more: with a victim, with a load to wait for, or giving up |
| `PoolV3Search.AloneFindsUnpinned` | crates/database-track/src/module1/project1/buffer_pool_v3.rs:184-200 | a search that runs alone, from its start or from the end of a wait, with a hand that goes round evenly, reserves an unpinned frame if and only if there is one; otherwise it waits for a frame being evicted if there is one, or answers AllFramesPinned |
| `PoolV3Search.SearchAlone` | crates/database-track/src/module1/project1/buffer_pool_v3.rs:292-361 | however the hand moves, it reserves a frame if and only if one of its looks is at an unpinned frame in the second sweep, or at an unreferenced or already spared one in the first |
| `PoolV3GivingUp.AllPinnedIsEarned` | crates/database-track/src/module1/project1/buffer_pool_v3.rs:184-200 | over every run: a fetch that reports AllFramesPinned has, since it claimed its page or since its last wait, made two sweeps whose every look was in vain and then met every frame in turn without one being evicted |
| `PoolV3Search.WrapMisses` | crates/database-track/src/module1/project1/buffer_pool_v3.rs:295-297 | a state of the invariant in which the hand wraps and a lone search answers AllFramesPinned with one of three frames unpinned |
| `PoolV3Missed.SpuriousAllFramesPinned` | crates/database-track/src/module1/project1/buffer_pool_v3.rs:292-309 | a run from an initial state in which a fetch fails with AllFramesPinned while one frame is unpinned in every state |
| `PoolV3Progress.FinishedOnce` | crates/database-track/src/module1/project1/buffer_pool_v3.rs:185-200 | a pending is finished by its own loader only, once, and on every way out of a load |
| `PoolV3Progress.ReachablePendingIsLive` | crates/database-track/src/module1/project1/buffer_pool_v3.rs:166-175 | every pending found in a table or a frame is unfinished and owned by exactly one live loader |
| `PoolV3Durability.FlushIsDurable` | crates/database-track/src/module1/project1/buffer_pool_v3.rs:422-472 | once a flush has returned Ok, the store's version of every page is the last one finished before the flush started or a later one, however pages moved between frames; an intact store copy holds that version's bytes, and a page that a failed write has torn since is held, latest and dirty, in a frame |
| `PoolV3Durability.AtomicFlushIsDurable` | crates/database-track/src/module1/project1/buffer_pool_v3.rs:422-472 | if failed writes leave the store as it was, the store then holds, of every page, the bytes of some write no older than the last one finished before the flush started |
| `PoolV3Durability.StoreGrows` | crates/database-track/src/module1/project1/buffer_pool_v3.rs:205-216 | the store's version of a page never goes backwards |
| `PoolV3TornFlush.TearExactly` | crates/database-track/src/module1/project1/buffer_pool_v3.rs:449-461 | a flush's write that fails half way leaves no clean frame over a damaged page if and only if the frame is still dirty and no other flush has written it and is about to mark it clean |
| `PoolV3TornFlush.SafeRunsExactly` | crates/database-track/src/module1/project1/buffer_pool_v3.rs:422-472 | over whole runs: no state has a clean frame, or one about to be marked clean, over a bad store copy if and only if every half-failed flush write of the run meets that condition |
| `PoolV3TornFlush.DamageSpreads` | crates/database-track/src/module1/project1/buffer_pool_v3.rs:202-256 | in any state, a loader that is about to replace a clean frame whose page is bad in the store leaves that page in no frame and not in the store within four steps of its own |
| `PoolV3TornFlush.OverlappingFlushesLoseAnUpdate` | crates/database-track/src/module1/project1/buffer_pool_v3.rs:422-472 | a run from an initial state with two overlapping flushes and an eviction: one flush has replied Ok, and the write it covers is in no frame and not in the store |
| `Clock.ScanDecides` | crates/database-track/src/module1/project1/buffer_pool.rs:163-199 | six sweeps suffice under any schedule of dropped guards; AllFramesPinned is answered if and only if the first sweep saw every frame pinned, and then nothing else has changed |
| `Clock.ClosedForm` | crates/database-track/src/module1/project1/buffer_pool.rs:163-199 | with no guard dropped: the victim is the unpinned frame of least usage u nearest to the hand, unpinned frames lose u uses, those before the victim one more, second chances rise by the uses removed |
| `Clock.BestIsUnique` | crates/database-track/src/module1/project1/buffer_pool.rs:168-191 | that victim is unique |
| `Clock.ScanConserves` | crates/database-track/src/module1/project1/buffer_pool.rs:183-190 | total usage plus second chances is conserved by every scan |
| `ClockScan.Scanner.ChooseVictim` | crates/database-track/src/module1/project1/buffer_pool.rs:163-199 | the nested loops, looking at pin counts (V1) or taking a pin and giving it back (V2, `buffer_pool_v2.rs:205-251`), compute the scan that these results are about, and never reach their end |
| `ClockScan.Scanner.ReserveAt` | crates/database-track/src/module1/project1/buffer_pool_v2.rs:214-243 | with a pin taken before the look and given back with a second chance, a look has the same outcome and leaves the same counts as without |
| `BufferPoolV1.BufferPool.FetchPage` | crates/database-track/src/module1/project1/buffer_pool.rs:63-140 | hit, eviction or failure: exactly the fetch that `PagePoolFetch` characterises; no page changes; a guard obtained shows its page's content |
| `BufferPoolV1.BufferPool.FlushAll` | crates/database-track/src/module1/project1/buffer_pool.rs:201-229 | frame by frame, with any guard writes and drops in between: after Ok the store holds of every page what the page was at some moment of the flush |
| `BufferPoolV1.BufferPool.WritePage` | crates/database-track/src/module1/project1/buffer_pool.rs:289-299 | the content of the guard's page becomes the given bytes, and nothing else changes |
| `BufferPoolV1.BufferPool.ReadPage` | crates/database-track/src/module1/project1/buffer_pool.rs:281-287 | a guard reads its page's content |
| `BufferPoolV2.BufferPool.TryHit` | crates/database-track/src/module1/project1/buffer_pool_v2.rs:80-88 | the read-locked section answers exactly when the page is mapped, and is then the whole fetch; otherwise it changes nothing |
| `BufferPoolV2.BufferPool.HitOrLoad` | crates/database-track/src/module1/project1/buffer_pool_v2.rs:90-171 | the write-locked section is exactly the fetch that `PagePoolFetch` characterises, and leaves no frame Evicting |
| `BufferPoolV2.BufferPool.ReplaceVictim` | crates/database-track/src/module1/project1/buffer_pool_v2.rs:100-171 | Evicting is never met in the reserved frame; on failure state and pin are taken back; the replacement is the one of `PagePoolFetch.MissEffects` |
| `BufferPoolV2.BufferPool.FetchPage` | crates/database-track/src/module1/project1/buffer_pool_v2.rs:75-171 | a hit in the first section is the whole fetch; after a miss any events may happen, and the second section is the specified fetch of the pool they leave; a guard obtained shows its page's content |
| `BufferPoolV2.BufferPool.FlushAll` | crates/database-track/src/module1/project1/buffer_pool_v2.rs:253-286 | the same with hits and other flushes in between, for every page whose frame has not been torn by another flush since its visit |
| `PagePoolRuns.PoolRefinesMap` | crates/database-track/src/module1/project1/buffer_pool.rs:63-140 | over any run of fetches, guard writes, drops and flushed frames with failing I/O the pool is the page map that the guard writes describe, every live guard reads its page from it, and hits plus misses are the successful fetches |
| `PagePoolProofs.FetchRefines` | crates/database-track/src/module1/project1/buffer_pool.rs:63-140 | a fetch keeps the invariant and every page's content, a guard obtained shows its page, and a failed fetch keeps every mapping |
| `PagePoolFetch.FetchFailsExactly` | crates/database-track/src/module1/project1/buffer_pool.rs:63-140 | AllFramesPinned if and only if the page is unmapped and the scan saw every frame pinned; an I/O error if and only if it is unmapped, there is a victim, and the page cannot be read or the dirty victim cannot be written; success in every other case |
| `PagePoolFetch.HitEffects` | crates/database-track/src/module1/project1/buffer_pool.rs:70-81 | a hit adds one pin, one access and one hit, and changes nothing else |
| `PagePoolFetch.MissEffects` | crates/database-track/src/module1/project1/buffer_pool.rs:83-139 | a successful miss puts the page, with its content, clean, pinned once and used once, into the victim's frame, unmaps the page that was there, writes it back if it was dirty, and counts a miss and an eviction if there was one; a failed one gives the frame back |
| `PagePoolFetch.EvictsBest` | crates/database-track/src/module1/project1/buffer_pool.rs:163-199 | with no guard dropped meanwhile the page takes over the least used unpinned frame nearest to the hand |
| `PagePoolProofs.FlushFrameRefines` | crates/database-track/src/module1/project1/buffer_pool.rs:201-229 | flushing a frame changes no page, even when the write fails half way |
| `PagePoolFlush.FlushIsDurable` | crates/database-track/src/module1/project1/buffer_pool.rs:201-229 | on any run in which every frame is flushed in turn and no page is loaded or evicted, the store ends up with what each page was at some moment of the run, unless its frame has been torn since |
| `PagePoolFlush.UndisturbedFlush` | crates/database-track/src/module1/project1/buffer_pool.rs:201-229 | if no guard writes and no write is torn meanwhile, the store ends up as the page map itself |
| `PagePoolFlush.UndisturbedFlushCleans` | crates/database-track/src/module1/project1/buffer_pool.rs:201-229 | and no frame is left dirty |
| `PagePool.AccessesCount` | crates/database-track/src/module1/project1/buffer_pool.rs:142-161 | n normal accesses raise a usage count by n up to 5; bulk reads, however many, leave it at least 1 and otherwise as it was |
| `PagePoolProofs.StatisticsAgree` | crates/database-track/src/module1/project1/buffer_pool.rs:130-134 | misses minus evictions are the mapped pages, which are the occupied frames, at most the capacity |
| `PagePoolRuns.EveryRunExists` | crates/database-track/src/module1/project1/buffer_pool.rs:63-140 | any sequence of events can happen to any pool, so the results about runs are about all of them |
| `PageRuns.PageRefinesMap` | crates/database-track/src/module1/project1/page.rs:99-234 | after any operations on any accepted page, slot k reads back exactly the record stored in it last, or what it held before; a page built by the operations keeps its live regions disjoint and inside [upper, 4096), the directory below, live bytes that fit |
| `PageRuns.OnlyReportedSlotChanges` | crates/database-track/src/module1/project1/page.rs:109-206 | an operation changes the slot it reports and no other |
| `PageRuns.InsertCompactingRefines` | crates/database-track/src/module1/project1/page.rs:141-173 | on any accepted page a slot is returned if and only if the record fits as things are, or header, directory, live records and the new record fit in 4096 bytes (on a built page: the latter alone); None leaves the page byte for byte as it was |
| `PageRuns.WorthIsSafe` | crates/database-track/src/module1/project1/page.rs:148-170 | whenever it decides to compact an accepted page, compaction is safe on that page |
| `PageRuns.PageReadsBack` | crates/database-track/src/module1/project1/page.rs:31-58 | whatever was done to a new page, its bytes are accepted again under its number and under no other |
| `PageRuns.DeleteRefines` | crates/database-track/src/module1/project1/page.rs:193-206 | deletion removes exactly the live record of that slot, on any accepted page |
| `PageRuns.DeletedBytes` | crates/database-track/src/module1/project1/page.rs:193-206 | deletion writes FF FF 00 00 into the slot and touches no other byte |
| `PageInsert.InsertRefines` | crates/database-track/src/module1/project1/page.rs:109-139 | on any accepted page insertion takes the first tombstone or a new slot, decides exactly by free space, and changes no other record |
| `PageInsert.RoomByNumbers` | crates/database-track/src/module1/project1/page.rs:109-121 | there is room if and only if 17 bytes, four per slot, four more unless some slot is free, and the record fit below the record region |
| `PageInsert.InsertedByNumbers` | crates/database-track/src/module1/project1/page.rs:123-138 | the record region then begins with the record and is otherwise untouched |
| `PageCompact.CompactRefines` | crates/database-track/src/module1/project1/page.rs:209-234 | on every accepted page whose live records fit behind the directory, overlapping or not, compaction keeps every record and tombstone, never crosses the directory, leaves as free space all that header, directory and records do not need, and makes the records disjoint |
| `PageCompact.CompactableExactly` | crates/database-track/src/module1/project1/page.rs:222-231 | an accepted page is of that kind if and only if no record is ever moved into the directory |
| `PageCompact.CompactedExactly` | crates/database-track/src/module1/project1/page.rs:209-234 | on any accepted page the cursor falls below zero if and only if the live records are longer than a page; otherwise the result is a page if and only if the records fit behind the directory |
| `PageRuns.CrowdedPageIsAccepted` | crates/database-track/src/module1/project1/page.rs:31-58 | a page that is accepted and whose compaction takes the cursor to -3904 |
| `PageCompact.CompactTwice` | crates/database-track/src/module1/project1/page.rs:209-234 | on every such page compaction is idempotent on the whole byte array |
| `PageHeader.HeaderRoundTrip` | crates/database-track/src/module1/project1/page.rs:271-307 | every header comes back from its bytes, and the bytes behind it are left alone |
| `PageHeader.BytesRoundTrip` | crates/database-track/src/module1/project1/page.rs:271-307 | an accepted header, written back, is the bytes it was read from |
| `PageHeader.HeaderByPosition` | crates/database-track/src/module1/project1/page.rs:280-307 | bytes are read as a header if and only if they have the mark, a type number from 0 to 4 and the fields at bytes 4, 8, 9, 11 and 13, low byte first |
| `PageHeader.WrittenByPosition` | crates/database-track/src/module1/project1/page.rs:271-278 | a header is written in that layout |
| `PageLayout.RecordByPosition` | crates/database-track/src/module1/project1/page.rs:82-90 | slot k is the four bytes from 17 + 4k on, offset and length with the low byte first, 65535 for no record |
| `PageRuns.NewPageBytes` | crates/database-track/src/module1/project1/page.rs:15-24 | every byte of a new page, type 1 at byte 8 and 4096 at bytes 11 and 12 among them |
| `SlottedPage.Page.constructor` | crates/database-track/src/module1/project1/page.rs:15-29 | a new page is valid and empty |
| `SlottedPage.Page.FromBytes` | crates/database-track/src/module1/project1/page.rs:31-58 | bytes are accepted if and only if the header is that of the expected data page and every live slot is in bounds |
| `SlottedPage.Page.Insert` | crates/database-track/src/module1/project1/page.rs:109-139 | on any accepted page the array becomes exactly the specified insertion, or stays as it was |
| `SlottedPage.Page.InsertCompacting` | crates/database-track/src/module1/project1/page.rs:141-173 | on any accepted page it succeeds if and only if the record fits as things are or after compaction, and never fails while compacting; None leaves the array as it was |
| `SlottedPage.Page.Get` | crates/database-track/src/module1/project1/page.rs:177-190 | the record of the slot, on any accepted page, in bounds |
| `SlottedPage.Page.Delete` | crates/database-track/src/module1/project1/page.rs:193-206 | on any accepted page the specified deletion, and whether there was a record |
| `SlottedPage.Page.Compact` | crates/database-track/src/module1/project1/page.rs:209-234 | on any accepted page: it fails if and only if the live records are longer than a page; otherwise collecting copies and rewriting them from the end is the specified compaction of the array |
| `FrameCodec.ParseInvertsEncode` | crates/foundation-track/src/module5/project5/frame.rs:111-182 | parsing yields a frame of some length if and only if the input starts with that frame's encoding, in both payload modes |
| `FrameCodec.FrameRoundTrip` | crates/foundation-track/src/module5/project5/frame.rs:41-79 | every frame comes back from its bytes whatever follows them |
| `FrameCodec.PrefixStable` | crates/foundation-track/src/module5/project5/frame.rs:147-182 | a frame that has been parsed stays the same when more bytes arrive |
| `FrameCodec.ParseByPosition` | crates/foundation-track/src/module5/project5/frame.rs:111-182 | timestamp, sequence, satellite, count, station and flags are bytes 0, 8, 16, 20, 22 and 23 on, high byte first, the payload follows at 24, and there is no frame if and only if the bytes break off |
| `FrameCodec.FirstByteWeighs` | crates/foundation-track/src/module5/project5/frame.rs:116-119 | the first of n + 1 bytes counts 256^n |
| `FrameStream.Cursor.GetPayload` | crates/foundation-track/src/module5/project5/frame.rs:147-182 | by count or by the first CRLF, the payload and where the cursor stands; None only if it has not arrived |
| `FrameStream.Cursor.TryExtractFrame` | crates/foundation-track/src/module5/project5/frame.rs:111-144 | the frame at the cursor, or None if it is incomplete |
| `FrameStream.CreateAt` | crates/foundation-track/src/module5/project5/frame.rs:41-79 | the bytes created have every field at its position and a payload of letters and digits, and parse back to the fields given |
| `FrameStream.AlnumInOrder` | crates/foundation-track/src/module5/project5/frame.rs:25-25 | a random byte gives the letter or digit of its remainder modulo 62, in the order upper case, lower case, digits |
| `FrameStream.Connection.ReadFrame` | crates/foundation-track/src/module5/project5/connection.rs:43-58 | however the stream was cut into chunks, the answer is that of parsing everything at once; the stream ends well if and only if no byte is left over |
| `FrameStream.Connection.ParseFrame` | crates/foundation-track/src/module5/project5/connection.rs:60-78 | the buffer is advanced by exactly the frame, or left alone |
| `FrameStream.Connection.ReadAll` | crates/foundation-track/src/module5/project5/server.rs:127-146 | reading until the end yields all frames of the stream, and tells whether anything was left over |
| `FrameStream.StreamRoundTrip` | crates/foundation-track/src/module5/project5/connection.rs:85-94 | a stream of encoded frames yields exactly those frames and leaves no byte over |
| `FrameStream.StreamPutBack` | crates/foundation-track/src/module5/project5/connection.rs:43-58 | any stream is the encoding of the frames it yields followed by an incomplete rest |
| `TtlStore.Db.Set` | crates/foundation-track/src/module3/db.rs:95-141 | the entry is replaced, the index agrees, and a wake-up is stored exactly if the entry expires before everything indexed |
| `TtlStore.Db.PurgeExpiredKeys` | crates/foundation-track/src/module3/db.rs:153-175 | unless shut down, exactly the entries that expire later or never remain, and the least remaining expiry is returned |
| `TtlStore.Db.NextExpiration` | crates/foundation-track/src/module3/db.rs:185-190 | the least expiry in the index, or none if it is empty |
| `PurgeTask.Reachable` | crates/foundation-track/src/module3/db.rs:95-208 | over every run: index and entries agree, the purger never sleeps through an expiry, a shutdown is never missed, only expired entries are ever missing |
| `PurgeTask.OverdueIsNoticed` | crates/foundation-track/src/module3/db.rs:195-205 | when an entry is overdue the purger can run, or a notification that wakes it is still owed, or it is done |
| `PurgeTask.ShutdownIsNoticed` | crates/foundation-track/src/module3/db.rs:143-147 | after a shutdown an unfinished purger can run or is still owed the notification that wakes it |
| `PurgeTask.AwakeTaskPurges` | crates/foundation-track/src/module3/db.rs:195-205 | an awake purger needs three steps to remove exactly what has expired, and then sleeps until the next expiry |
| `PurgeTask.RunningTaskPurges` | crates/foundation-track/src/module3/db.rs:195-205 | whenever the purger can step, woken up or at the end of its sleep too, four steps of its own suffice for that |
| `PurgeTask.ExpiredIsPurged` | crates/foundation-track/src/module3/db.rs:153-205 | once the time of an entry has come, one notification still owed at most and four steps of the purger remove it |
| `PurgeTask.ShutdownTakesEffect` | crates/foundation-track/src/module3/db.rs:143-147 | over every run with a shutdown the flag stays set, and delivering the notifications still owed and then steps of the purger alone end it |
| `PurgeTask.SetIsRemembered` | crates/foundation-track/src/module3/db.rs:95-141 | over every run the entry set last for a key is the one stored, unless it has expired |
| `QueueMonitor.Reachable` | crates/foundation-track/src/module2/project2/cmd_queue.rs:57-103 | over every run, with spurious wake-ups, barging and shutdown: queued commands are covered by woken consumers while one sleeps, free slots by woken producers, and no command is lost or duplicated |
| `QueueMonitor.SleepersAreServed` | crates/foundation-track/src/module2/project2/cmd_queue.rs:74-94 | if a thread sleeps although the queue has what it waits for, another of its kind has been woken and can run |
| `QueueMonitor.NobodySleepsAfterShutdown` | crates/foundation-track/src/module2/project2/cmd_queue.rs:97-103 | with the queue shut down no thread sleeps |
| `QueueMonitor.PopIsGreatest` | crates/foundation-track/src/module2/project2/cmd_queue.rs:81-95 | a pop hands out a greatest command; it fails only when the queue is shut down, empty, and everything accepted has been popped |
| `QueueMonitor.DrainedStaysDrained` | crates/foundation-track/src/module2/project2/cmd_queue.rs:57-95 | with the queue shut down nothing more is accepted, and an emptied queue has handed out all it accepted, for ever |
| `QueueMonitor.ShutdownTakesEffect` | crates/foundation-track/src/module2/project2/cmd_queue.rs:97-103 | after any run that contains a shutdown: the queue is shut down, nobody sleeps, nothing was accepted since, every push that runs is refused, and so is every pop that runs on an empty queue |
| `QueueMonitor.PushIsStored` | crates/foundation-track/src/module2/project2/cmd_queue.rs:57-79 | one pass of a push stores the command and replies Ok, or is refused exactly after a shutdown, or sleeps exactly when the queue is full |
| `QueueMonitor.PushIsDecided` | crates/foundation-track/src/module2/project2/cmd_queue.rs:57-79 | over every run a producer goes on pushing the command it was given until that command is stored or refused |
| `QueueMonitor.CountersAgree` | crates/foundation-track/src/module2/project2/cmd_queue.rs:65-89 | over every run the counters are the accepted commands, the popped ones, and the safe-mode ones accepted |
| `CommandQueue.Queue.TryPush` | crates/foundation-track/src/module2/project2/cmd_queue.rs:60-78 | one pass of a push: refused after shutdown, full exactly at capacity, else stored and counted |
| `CommandQueue.Queue.TryPop` | crates/foundation-track/src/module2/project2/cmd_queue.rs:84-94 | one pass of a pop: a greatest command, or refused, or nothing yet |
| `CommandQueue.CompareIsTotalOrder` | crates/foundation-track/src/module2/project2/command.rs:17-38 | the comparison is a total order up to equality, and equality is as defined |
| `CommandQueue.IssuedOrder` | crates/foundation-track/src/module2/project2/command.rs:24-60 | a command keeps its kind and time; among issued ones: safe mode, abort, repoint, status, housekeeping, and within a kind the older one |
| `CommandQueue.GreatestExists` | crates/foundation-track/src/module2/project2/command.rs:24-33 | a queue that is not empty has a greatest command |

## Left out

- Memory orderings, lock poisoning and panics inside guard closures: sequential consistency, closures that return.
- Shards: which shard a page hashes to. The model has one table; each shard critical section of V3 touches one page's entry.
- Widths of pin counts, usage counts and statistics (no overflow), and the statistics counters of V3; the shared hand of V3 does wrap.
- The checksum that the disk manager patches into bytes 13 to 17 of a written copy: the store is verbatim.
- The size of a page's bytes in the pools: contents are arbitrary byte strings.
- V3 frames, tables and threads are values of a transition system, not objects, because their steps interleave.
- V1 and V2 frames are records of a sequence, and guards name them by index. A guard write that overlaps a critical section in time is ordered before or after it, and a flush's part for one frame is one step.
- PoolV3Runs.Reachable: excludes the one kind of failing write that the findings describe, for which it is false.
- PoolV3Progress.NoDeadlock: says that some operation can step, not that each one eventually ends; a loader that looks for a victim may in principle starve.
- SlottedPage.Page.Compact: a cursor that falls below zero is a failed call, after which nothing is said about the array; with overflow checks the source panics there, without them the cursor wraps.
- FrameStream.Connection.ReadAll: reads until the stream ends; the session loop's shutdown signal, its validation and its batches are not in it.
- `initialize` in place on a borrowed buffer; the constructor builds the same bytes.
- The socket, its errors and its write side; `Connection` receives the chunks that reads will return. The session loop's batching, deduplication and sorting of headers, and `validate`.
- FrameStream.CreateAt: the random draws are parameters.
- Time: `now` is a parameter of the purge and a variable of its model; an expiry lies at or after the time it is set.
- Which of several entries with the same expiry is purged first, and which of several equal commands is popped first.
- Instants are plain numbers, and so are the angles of a repointing, which the order does not look at.
- File segments, the relation file and the CRC; sessions, metrics, back-off, arenas and the library-style parts of the other modules.
- The earlier page and pool of `part1` to `part3` beside `project1`.
