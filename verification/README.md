# flashbench in Dafny

flashbench is an SSD emulator: a page-mapping flash translation layer (FTL) with foreground and background
garbage collection (GC), a write-back buffer in front of it, and a bus controller that works off operations chip
by chip and completes block I/Os. This project models the three and proves what they are for.

The geometry is symbolic throughout: buses, chips per bus, blocks, pages, slots per page, table size, buffer
size. `Geometry.Fits` says which geometries the packed 32-bit address can hold; `Geometry.FLASHBENCH` is the
repository's own.

## How it is built

The source updates objects in place, and so does the model. `Ftl.Ftl`, `PageBuffer.PageBuffer`,
`FlashDevice.FlashDevice`, `OperationQueue.OprQueue`, `BusController.BusController`, `LinkedList.DlList` and
`HashTable.HashTable` are classes whose methods follow the source function by function, loops and error returns
included. Each method is tied to a function on values: `S()`, `W()` and `D()` give the FTL state, buffer and
device an object stands for, and the contract reads `S() == F(old(S()))`. What the source promises is then proved
about these functions.

- `Geometry`, `Blocks`, `FtlState`: addresses, a block with its counters, the FTL state and its invariant - counters
  equal to recounts, programming in page order, L2P and P2L inverse, every block with exactly one owner, nothing
  live in a GC slot or on a dirt list. `InvAt(s, cur, k)` is the invariant in the middle of a page program, with k
  slots of the page done.
- `Mapping`, `Filling`, `Program`, `Erase`: the metadata transitions. `Filling` says what programming a page does to
  any state and any LPAs, and `Program` that good LPAs keep the invariant.
- `Victims`, `Copying`, `Gc`, `RoundRobin`, `BackgroundGc`: garbage collection.
- `StaleVictim`, `VictimCache`, `CacheRuns`, `BgcProgress`: when background GC is safe, what keeps it so, and that it
  reclaims its victims. `TinyFtl` and `Rollback` follow one run in which it is not.
- `GcSuccess`, `Space`, `WriteSuccess`, `BgcSuccess`: exactly when each garbage collection and each page write succeeds,
  and what it then leaves. `Space.Balanced` says that the free pages are spread as the round robin spreads them.
- `Supply`, `Uneven`: on which devices requests never fail, and on which they can be made to.
- `Capacity`: how many pages flash and buffer hold, and what happens when that is not enough.
- `Requests`, `Counts`, `WriteBuffer`, `Device`, `Overlap`: requests, the buffer and the visible map. `Device.Seen` is
  what a reader sees: the buffer first, then the flash.
- `Interleaving`: the device as a machine with one step per region guarded by a lock; the runs are all sequences of
  requests with background GC between any two steps. `Settling` shows that a request run to its end alone computes
  what the request functions, and so the request methods, compute.
- `OperationQueue`, `BusController`, `Completion`: the bus side and the completion of reads.
- `LinkedList`, `HashTable`, `VirtualDisk`: the containers and the layout of the disk memory.

## What turned out false

- *Between requests no page is both buffered and mapped.* A write drops its pages from the flash first, but when it
  overflows the buffer, a page of the request that was buffered before can be flushed before its turn and then be
  buffered again. `Overlap.PageInBothPlaces` gives two writes that do it; `Overlap.ApartAfterWrite` says exactly when
  it happens, in terms of the buffer before the request. The visible map is right all the same, because the buffer is
  read first.
- *Background GC preserves the contents.* It keeps victims across calls. One that was erased in the meantime has FREE
  slots, which are counted but not copied (`BackgroundGc.CountMatchesCopy`), so whatever an earlier collection left in
  the copy buffers is programmed again. `Rollback.RollsBack` is a run of six writes and four background rounds, on a
  device with one chip of three blocks, in which a page gets its old data back. `StaleVictim.BgcSafeExact` is the exact
  condition: with `BgcSafe` the contents are kept for every content of the copy buffers, and without it some content
  of the buffers spoils them. The guard can be evaluated before the copy: no active block, so that nothing is copied;
  or the page at the cursor of every victim chosen is programmed; or allocation fails before the first slot not copied
  is reached. `VictimCache` says what spoils the cache - `EraseAndCache` for one erase, `BgcPrepareCache` for a round -
  and what restores it, and `CacheRuns` derives the guard for whole runs. More chips or larger pages do not avoid the
  failure: `VictimCache.ErasedIsUnsafe` holds on every geometry.
- *A request that is not carried out is reported.* A failed flush sets err, and make_request ends that write, and every
  request after it, with an error code that is still 0, reads without their data included: `biError` of
  `FlashDevice.WriteRequest`, `DiscardRequest` and `ReadRequest`. A request is carried out if err is clear afterwards,
  and refused or cut short if not; `Interleaving.RunReads` says so for reads over whole runs. `Capacity.FullDeviceFails`
  gives a write that fails for want of room.
- *A table smaller than the flash leaves room for every write.* Pages that got on one chip and are never written again
  leave nothing to collect there, and foreground GC needs something on every chip. `Uneven.FlashbenchFails` gives
  writes that fail on the repository's own device; `Uneven.CrowdedFails` says that this is so on every device whose
  table has at least as many entries as a chip has slots outside its GC block, and two buffers more. With fewer entries
  than such slots no request fails in any run without background GC (`Supply.NeverFails`, `Supply.AmpleIff`; a single
  chip needs a bit more room). For one write, `WriteSuccess.WriteFails` is the exact condition.
- *A busy slot is always released.* `BusController.NeverDue`: not when the wakeup time wraps to zero.

## Modelling decisions

- A logical page is an opaque value. Counters and times other than the bus clock are unbounded integers; the
  invariant bounds every counter by the size of its block.
- The fields of a packed address do not overlap, so its `|` is a sum; masks and shifts are remainders and quotients.
- A region under `mapping_context_lock` or `wb_lock` is one step; so is `dec_bio_req_count`.
- `err` is set by make_request after a failed flush; `Device.FlushOnce` already records it.
- `vic_blks` and `first_valid_pg` are not initialised by create_gc_mngr; the initial state has no cached victim and
  cursors on page 0. Nor are the copy buffers: their contents are arbitrary.
- With the guard broken, `lpas_to_copy` may hold LPAs outside the mapping table, which the source would index out of
  bounds. `Ftl.Ftl.TriggerBgGc` therefore asks for `BgcAllowed`: the guard, or buffers that hold none.
- `fb_issue_operation` waits while the queue is full; the model's method is called once there is room.
- Operations for the bus are recorded in the order in which they are queued, each with its chip and its bio.
- `data_to_copy` is allocated four times as long as needed; the invariant asks for at least the needed length.
- `is_fgc_needed` ignores its loop indices; the model does too.
- invalidate_lpg does not check its LPA, so the methods require it below the table size. The functions on values take
  an LPA outside the table for unmapped.
- `Interleaving` splits a request where the locks do. A read holds `dev_lock`, so it is placed between requests.

## Model

| member | source | states |
|---|---|---|
| Interleaving.RunRefines | main.c:43-149 | over every run of write and discard requests, cut at the locks, with background GC between any two locked regions wherever its guard BgcSafe holds: the invariant holds, and when no request is in progress buffer and flash hold exactly the map the requests ask for; after a failed write, outside the pages of that and later requests |
| Interleaving.RunReads | main.c:59-98 | at those points a read of a page is served if and only if no write has failed in the run, and then returns what that map has for it, and nothing where it has nothing |
| Interleaving.RequestsEnd | main.c:102-121 | every locked region of a request lowers a lexicographic rank, the retry after a flush included, and background GC does not raise it: the `loop--` loop ends |
| Interleaving.StepSound | ftl_algorithm_page_mapping.c:514-529 | each locked region of a write, a flush or a discard keeps the invariant and moves the visible map towards the requested one |
| Interleaving.BackgroundSound | gc_page_mapping.c:9-69 | background GC at any point inside a request, its guard holding, changes neither what is visible nor what the request will achieve |
| Interleaving.DiscardArrives | ftl_algorithm_page_mapping.c:411-428 | dropping the discarded pages from the buffer first, and from the flash later, ends in the same map |
| Settling.WriteSettles | main.c:102-121 | the locked regions of a write, run to their end alone, compute exactly what the write method does |
| Settling.DiscardAlone | ftl_algorithm_page_mapping.c:411-446 | the same for a discard, its batches included |
| Interleaving.InitAgrees | ftl_algorithm_page_mapping.c:69-105 | a new device satisfies the invariant and shows the empty map |
| Gc.FgcPreserves | rust/src/gc_page_mapping.rs:496-525 | foreground GC, returning 0 or -1, keeps the invariant, the set of mapped LPAs and the data of each |
| Gc.FgcReclaims | rust/src/gc_page_mapping.rs:496-525 | when it returns 0 every victim it chose has no VALID slot, is off the used list and in the GC slot or on the dirt list, and every chip has a GC or an active block |
| Supply.NeverFails | ftl_algorithm_page_mapping.c:349-403 | from a new device whose mapping table is ample for its chips, over every run of writes and discards cut at the locks, without background GC: no request fails, err stays clear, and at rest a read returns what the requests ask for |
| Uneven.CrowdedFails | ftl_algorithm_page_mapping.c:349-403 | a device whose table has as many entries as a chip has slots outside its GC block, and two buffers more, fails a write: from a new device there is a run of writes, each as large as the buffer, after which err is set and nothing is served |
| Uneven.FlashbenchFails | rust/src/constants.rs:19-41 | the repository's device is one: a write fails although the table has a tenth fewer entries than the flash has slots |
| GcSuccess.FgcExact | rust/src/gc_page_mapping.rs:496-525 | foreground GC returns 0 if and only if the blocks and victims it needs are found and the pages copied can be written; then every chip has a GC block again |
| GcSuccess.FgcReclaimsWhere | rust/src/gc_page_mapping.rs:496-525 | when it returns 0, every chip that lacked its active or its GC block and had no dirt block has had one of its used blocks with the most invalid slots reclaimed |
| WriteSuccess.WriteFails | ftl_algorithm_page_mapping.c:349-403 | a page write returns -1 if and only if the chip whose turn it is has neither GC nor free block and foreground GC returns -1, or, after that, has neither active nor free block and a foreground GC run then returns -1 or leaves it that way |
| StaleVictim.BgcSafeExact | gc_page_mapping.c:9-69 | background GC keeps what the flash shows, whatever the copy buffers hold, if and only if it finds no active block on its chip, or no victim left after the choice has its cursor on a page erased since, or no chip can take the page that slot would go into |
| StaleVictim.BgcKeeps | gc_page_mapping.c:9-69 | under that guard every return path keeps the invariant, the mapped LPAs and the data of each |
| Rollback.RollsBack | gc_page_mapping.c:9-69 | a run from the initial state - six writes and four rounds of background GC, each of which returns 0, no request in progress, err clear - whose last round replaces the data a read of a page returns by what the page held before its last write |
| CacheRuns.GentleRunOk | main.c:349-354 | over every run in which no request fails and the preparing rounds of background GC erase no cached victim the guard never has to be checked: it holds at every background GC |
| BgcProgress.VictimEnds | gc_page_mapping.c:9-69 | while rounds of background GC move pages on its chip, a victim stays the victim until it holds nothing live and waits in the GC slot or on the dirt list, after at most as many rounds as it has pages from its cursor on |
| Completion.ExactlyOnce | main.c:78-100 | over all interleavings of request thread and bus threads a block I/O is ended at most once, only when no page is unprocessed and no operation is queued or in flight for it, and it has been ended (or its end is due) once that is so |
| Completion.NeverAfterFree | bus_controller.c:552-570 | no event of any thread touches a bio that has been freed |
| Completion.StepKeeps | main.c:400-412 | the request count equals unprocessed pages plus queued plus in-flight operations, and every event keeps it so |
| BusController.RunInOrder | bus_controller.c:333-358 | on every chip operations start and finish in the order of issue, at most one in flight, the slot taken exactly while one is, for every sequence of clock readings |
| BusController.RunTimely | bus_controller.c:312-358 | over every run no operation finishes at a clock reading before its start plus its time (modulo 2^32), and no operation whose sum is zero modulo 2^32 finishes |
| BusController.Drains | bus_controller.c:312-358 | passes far enough apart, one per queued operation and one more, finish every operation of the chip |
| Completion.AllEnded | bus_controller.c:312-358 | once the bus threads have nothing more to do, every block I/O whose pages have been handed out has been ended, exactly once |
| Completion.ServingEnds | bus_controller.c:312-358 | left alone they come to that point: a run of their events is no longer than the work there is |
| Completion.NeverStuck | bus_controller.c:312-358 | while an operation is queued or in flight, or a bio is to be ended, one of them can go on |
| Geometry.PackRoundTrip | rust/src/vdevice.rs:204-229 | packing and unpacking an address of a geometry that fits gives it back, and it is never PAGE_UNMAPPED |
| Geometry.FlashbenchFits | rust/src/constants.rs:19-41 | the repository's constants are such a geometry |
| Blocks.InvalidateSlotOk | rust/src/page_mapping_function.rs:136-143 | invalidating a VALID slot keeps every page and block counter equal to its recount, also while another page of the block is half programmed |
| Blocks.ProgramSlotOk | rust/src/page_mapping_function.rs:168-187 | programming the next slot advances the write point by one and keeps every counter equal to its recount |
| Blocks.LastLiveBlock | rust/src/page_mapping_function.rs:141-142 | a block all of whose pages are invalid is fully programmed, not being programmed, and has no valid logical page |
| Counts.ValidEqualsMapped | ssd_info.c:379-397 | the valid logical page counts summed over all blocks equal the number of mapped LPAs |
| FtlState.OneOwner | ssd_info.c:56-114 | a block on one of free, used and dirt list, active slot and GC slot is on no other, and every block is on one |
| Mapping.InvalidateOk | rust/src/page_mapping_function.rs:123-154 | invalidate_lpg keeps the whole invariant, removes exactly that LPA from the table and turns exactly its slot INVALID, also in the middle of a page program |
| Mapping.EmptiedIsUsed | rust/src/page_mapping_function.rs:141-149 | the block that loses its last live page is on the used list, so removing it there is safe |
| Mapping.RetiresExact | rust/src/page_mapping_function.rs:123-154 | invalidate_lpg changes a chip's lists exactly when it takes the last live slot of a block without free page: the block leaves the used list for the GC slot, if that was empty, and otherwise for the end of the dirt list |
| Mapping.MapSlotOk | rust/src/page_mapping_function.rs:155-188 | mapping one slot at the write point: the LPA points there, nothing else moves, no other block gains a VALID slot |
| Mapping.MapPageOk | rust/src/page_mapping_function.rs:80-107 | mapping a page of distinct LPAs completes the page, keeps the invariant and moves exactly those LPAs |
| Mapping.PlacedAt | rust/src/page_mapping_function.rs:80-107 | each LPA of the page ends at its own slot, every other entry is as before |
| Program.TargetIsNext | rust/src/page_mapping_function.rs:54-78 | the page alloc_new_page hands out is the first unprogrammed one: it and all later pages are FREE, no earlier slot is |
| Program.OpenOk | rust/src/page_mapping_function.rs:54-78 | alloc_new_page keeps the invariant and leaves an active block |
| Program.WriteDiskOk | rust/src/vdevice.rs:147-171 | writing data to the page allocated does not show |
| Program.UpdateActBlkOk | rust/src/page_mapping_function.rs:109-121 | update_act_blk restores the invariant between operations |
| Program.ProgramPageOk | ftl_algorithm_page_mapping.c:367-394 | allocation, write, mapping, cursor and active-block update together write exactly the given LPAs with the given data, into blocks that were not full |
| Space.QueueAdvances | rust/src/page_mapping_function.rs:54-121 | a chip writes its active and then its free blocks in list order, each until it is full: a page goes to the first block of this queue, which joins the used list with its last page, and while a block is left one is active |
| Space.FillAvail | rust/src/page_mapping_function.rs:54-121 | a page program takes one page from its chip and none from any other |
| Space.BalancedAlloc | page_mapping_function.c:34-46 | with n free pages spread as the round robin spreads them, the chip whose turn it is can allocate a page if and only if n > 0 |
| Filling.FillOk | rust/src/gc_page_mapping.rs:283-309 | the same sequence given any LPAs at all, repeated or PAGE_UNMAPPED ones included: what shows is the old map with the page's entries written in slot order, and the next page can be programmed after it |
| Requests.InitOk | ssd_info.c:124-232 | the initial state satisfies the invariant and shows nothing |
| Requests.MakeWrite | ftl_algorithm_page_mapping.c:349-403 | a page write that returns 0 writes its LPAs and nothing else, one that returns -1 changes nothing visible, whatever GC did on the way |
| WriteSuccess.WriteDirect | ftl_algorithm_page_mapping.c:367-403 | with a block to write to, and a GC or a free block, a page write programs the page at once, collecting nothing |
| WriteSuccess.WriteWithRoom | ftl_algorithm_page_mapping.c:349-403 | with a GC block on every chip and the free pages spread as the round robin spreads them, n of them, a page write returns 0 and leaves n - 1 |
| WriteSuccess.FgcWhenSpent | rust/src/gc_page_mapping.rs:496-525 | with no page left on any chip foreground GC returns 0 if and only if each chip has a dirt block or a used block with an invalid slot; a block's worth of pages per chip, less what was live in the victims, is then left |
| WriteSuccess.WriteWhenSpent | ftl_algorithm_page_mapping.c:349-403 | with no page left on any chip a page write returns 0 if and only if each chip has such a block and what is live in the victims leaves a page |
| Supply.WriteSucceeds | ftl_algorithm_page_mapping.c:349-403 | in the states runs without background GC lead to, on an ample device, every page write returns 0 |
| Supply.RunSupplied | ftl_algorithm_page_mapping.c:349-403 | over every run without background GC the chips keep their GC blocks and run out of pages together, and no request fails |
| Supply.AmpleSizes | rust/src/constants.rs:19-41 | a single chip of the repository's size with a table of 90 percent of it is ample; the repository's two chips sharing one table are not |
| Supply.AmpleIff | ftl_algorithm_page_mapping.c:349-403 | with two chips or more the table is ample exactly if it has fewer entries than a chip has slots outside its GC block |
| Supply.LeavesAPage | rust/src/gc_page_mapping.rs:496-525 | on an ample device out of pages, what is live in the victims of foreground GC fits the erased blocks with a page to spare |
| Uneven.DoomedRequest | ftl_algorithm_page_mapping.c:349-403 | with a chip that has no invalid slot and n pages left, a write of a buffer of k pages, none buffered or mapped on that chip, fails exactly if n < k, and otherwise leaves n - k and such a chip again |
| Requests.InvalidateAllOk | ftl_algorithm_page_mapping.c:262-283 | invalidating a list removes exactly its LPAs |
| Erase.EraseSafety | rust/src/gc_page_mapping.rs:322-336 | a block in a GC slot or on a dirt list has no VALID slot and no table entry points into it |
| Erase.EraseOk | rust/src/gc_page_mapping.rs:328-333 | erasing the GC block keeps the invariant and what the flash shows |
| Erase.PrepareExact | rust/src/gc_page_mapping.rs:313-343 | prepare_act_blks returns 0 if and only if every chip has an active or a GC block; then a chip that had an active block is untouched, and every other one has its GC block, erased once more, as its active block and an empty GC slot; nothing else changes |
| Erase.ErasedBytes | rust/src/vdevice.rs:174-196 | an erased block reads as 0xFF in every byte of every slot |
| Victims.FirstValidPg | rust/src/gc_page_mapping.rs:101-113 | the page found is the first from the start that is not fully invalid; those skipped are |
| Victims.MostInvalid | rust/src/gc_page_mapping.rs:126-145 | the block chosen has the most invalid logical pages of the used list, and at least one; none is chosen only if no block has one |
| Victims.SetVictimsExact | rust/src/gc_page_mapping.rs:170-207 | set_vic_blks returns 0 if and only if every chip has both blocks, a dirt block, or a used block with an invalid slot; then exactly the chips that lack one of the blocks and have no dirt block get a victim, a used block with the most invalid slots, read from its first page that is not dead |
| Victims.SetVictimsCount | rust/src/gc_page_mapping.rs:192-199 | nr_pgs_to_copy is the number of live slots of the chosen victims |
| Copying.CollectMember | rust/src/gc_page_mapping.rs:208-271 | from any point of the pass on exactly the live victim slots still ahead are read |
| Copying.CollectCount | rust/src/gc_page_mapping.rs:208-271 | the whole pass reads every live victim slot once, as many as were counted |
| Copying.CollectFits | rust/src/gc_page_mapping.rs:403-418 | what is read fits the buffers as create_gc_mngr sizes them |
| Copying.CopyOutOk | rust/src/gc_page_mapping.rs:232-262 | the k-th LPA in lpas_to_copy is mapped to the k-th slot read, all differ, and the k-th data page is its data |
| Gc.ProgNextOk | rust/src/gc_page_mapping.rs:285-310 | programming a chunk, padded at the end, shows nothing new and stays inside the buffers |
| Gc.ProgGood | rust/src/gc_page_mapping.rs:273-312 | on both return paths programming the copied pages leaves what the flash shows |
| Gc.ProgDrains | rust/src/gc_page_mapping.rs:273-312 | when it returns 0 every page whose live slots were in the buffers, once or waiting, holds nothing live |
| Space.ProgBalanced | rust/src/gc_page_mapping.rs:273-312 | with n free pages so spread it returns 0 if and only if the pages to be written are at most n, and leaves the rest spread evenly |
| Gc.UpdateGcExact | rust/src/gc_page_mapping.rs:345-374 | update_gc_blks returns 0 if and only if every chip has a GC, an active or a dirt block; then every empty GC slot has got the first block of its chip's dirt list, if there is one, and nothing else has changed |
| GcSuccess.ChosenExact | rust/src/gc_page_mapping.rs:499-510 | the first two steps of foreground GC return 0 if and only if every chip has both its blocks, or one of them and a dirt block or a used block with an invalid slot; then every chip has an active block and, where needed, the victim it should have |
| Gc.UpdateGcKeeps | rust/src/gc_page_mapping.rs:345-374 | it keeps the invariant and what the flash shows |
| RoundRobin.FullRound | page_mapping_function.c:34-46 | NUM_CHIPS turns visit every chip exactly once and return to the start |
| BackgroundGc.EraseAndRecycleOk | rust/src/gc_page_mapping.rs:533-561 | recycling a GC block keeps the invariant and what the flash shows |
| BackgroundGc.BgcPrepareExact | rust/src/gc_page_mapping.rs:527-566 | a successful pass recycles the GC block of every chip exactly once and leaves the cursor where it was |
| BgcSuccess.BgcPrepareWhen | rust/src/gc_page_mapping.rs:527-566 | the pass returns 0 if and only if every chip has a GC block; then each of these, erased once more, is the active block of a chip that had none and otherwise the last free one, the first dirt block takes its place, and no other block changes |
| BackgroundGc.BgcSetVictimsOk | rust/src/gc_page_mapping.rs:568-637 | from any cache: every chip ends with a victim whose cursor is on a page with something to read, or with none |
| BgcSuccess.BgcChosenExact | rust/src/gc_page_mapping.rs:568-637 | it returns 0 if and only if every chip has 14 dirt and free blocks, a cached victim with a page to read from its cursor on, or a used block with an invalid slot; then these have no victim, the cached one, or a used block with the most invalid slots, each at its first page that is not dead |
| BgcSuccess.BgcExact | gc_page_mapping.c:9-69 | background GC returns 0 if and only if, with no active block on its chip, every chip has a GC block, and otherwise the victims are found and either nothing is to be copied or the copies can be written and leave every chip a GC, an active or a dirt block |
| BackgroundGc.CountMatchesCopy | rust/src/gc_page_mapping.rs:655-690 | the number of pages counted equals the number of LPAs copied if and only if the page at the cursor is programmed |
| BackgroundGc.BgcReadExact | rust/src/gc_page_mapping.rs:639-701 | from any two cursors and for any number of turns: the LPAs and data of the slots of those turns are in the buffers in order, the count grows by the pages of those turns, the chip cursor moves that many chips, and nothing else changes |
| BackgroundGc.BgcReadAll | rust/src/gc_page_mapping.rs:639-701 | the whole pass returns the chip cursor and reads exactly the live slots at the cursors of all chips, each once; the count equals their number if no cursor is on a free page |
| StaleVictim.BgcInTable | rust/src/gc_page_mapping.rs:273-312 | every LPA background GC hands to the mapping is in the table or PAGE_UNMAPPED, if the guard holds or the buffers held nothing else before |
| VictimCache.EraseAndCache | rust/src/gc_page_mapping.rs:587-603 | erasing a GC block leaves the victim cache intact if and only if that block is not still cached as a victim |
| VictimCache.ProgramKeepsCache | rust/src/gc_page_mapping.rs:302-309 | programming pages never spoils the cache |
| VictimCache.DropKeepsCache | rust/src/page_mapping_function.rs:123-154 | nor does invalidating a page |
| VictimCache.FgcRestoresCache | rust/src/gc_page_mapping.rs:496-525 | a foreground GC that returns 0 leaves the cache intact, whatever it was before |
| VictimCache.MakeWriteKeepsCache | ftl_algorithm_page_mapping.c:349-403 | a page write that returns 0 keeps the cache intact, whatever GC did on the way |
| VictimCache.IntactIsSafe | rust/src/gc_page_mapping.rs:587-603 | an intact cache satisfies the guard of background GC |
| VictimCache.BgcCopyKeepsCache | gc_page_mapping.c:33-69 | background GC on a chip with an active block keeps the cache intact, whatever it returns |
| VictimCache.BgcPrepareCache | gc_page_mapping.c:18-32 | on a chip without one, a round that returns 0 keeps it intact if and only if no GC block is still cached as its chip's victim |
| VictimCache.ErasedIsUnsafe | rust/src/gc_page_mapping.rs:587-627 | on every geometry: with a cached victim erased and its chip still in need of one, background GC that copies keeps the contents only if it runs out of pages before the first slot not copied |
| CacheRuns.GentleKeepsCache | main.c:43-149 | every step that fails no request and erases no cached victim keeps the cache intact, and background GC is enabled there |
| CacheRuns.InitCacheOk | rust/src/gc_page_mapping.rs:376-431 | a new device has an intact cache |
| BgcProgress.BgcDrains | gc_page_mapping.c:33-69 | when a round that copies returns 0, the page each victim's cursor was on holds nothing live, and pages that held nothing live still do not |
| BgcProgress.BgcAdvances | gc_page_mapping.c:33-69 | so the next page to be read lies behind it |
| BgcProgress.RoundsReclaim | gc_page_mapping.c:9-69 | whatever dead pages the cursor skips: there are at most as many rounds on one victim as pages left, and after them the victim is reclaimed if and only if no page with something live is left behind the cursor |
| BgcProgress.FreshSwept | rust/src/gc_page_mapping.rs:608-622 | a victim not cached before has nothing live before its cursor |
| BgcProgress.RoundsEmpty | gc_page_mapping.c:9-69 | rounds on one victim are at most as many as it has pages left, and all pages they pass hold nothing live |
| WriteBuffer.OneList | write_buffer.c:39-73 | every node is on exactly one of the three lists, and their lengths add up to the number of nodes |
| WriteBuffer.PutOk | write_buffer.c:207-229 | fb_put_pg fails exactly when the LPA is new and no node is free; otherwise the buffer shows the new data and nothing else changes, index and lists agreeing |
| WriteBuffer.PutOrder | write_buffer.c:207-229 | the page goes to the end of the buffered list, in the node it had or in the first free one; the other nodes and their order are as before |
| WriteBuffer.StartWritingOk | write_buffer.c:183-205 | pages under writing are the oldest ones and are still read from the buffer |
| WriteBuffer.FirstPagesOk | write_buffer.c:183-205 | the LPAs handed out differ, and come with their data |
| WriteBuffer.RmWrittenOk | write_buffer.c:231-240 | exactly the pages under writing leave the buffer |
| WriteBuffer.RewriteSurvives | write_buffer.c:207-240 | a page rewritten while under writing survives fb_rm_written_pgs |
| WriteBuffer.RmBufOk | write_buffer.c:242-253 | fb_rm_buf_pg removes exactly its LPA |
| Device.FlushOnceSeen | ftl_algorithm_page_mapping.c:514-529 | one round of the flush changes nothing visible |
| Device.Flush | ftl_algorithm_page_mapping.c:514-529 | a flush changes nothing visible; on success less than a page's worth is buffered and nothing is under writing |
| Device.RetrySucceeds | main.c:102-121 | after a failed put and a successful flush a node is free |
| Device.WriteReqOk | main.c:102-121 | a write changes the visible map exactly at its LPAs; if it fails, nowhere else |
| Device.DiscardExact | ftl_algorithm_page_mapping.c:416-425 | a page is discarded if and only if its eight sectors lie in the range |
| Device.BatchedOk | ftl_algorithm_page_mapping.c:430-443 | batching makes no difference whatever the length |
| Device.DiscardReqOk | ftl_algorithm_page_mapping.c:411-446 | a discard erases from the visible map exactly those pages |
| Device.ReadPageOk | main.c:426-448 | what a read finds is the visible map: the buffer first, then the flash |
| Capacity.MappedFits | ssd_info.c:379-397 | no more pages are mapped than the flash has slots |
| Capacity.SeenFits | write_buffer.c:75-114 | no more pages are stored than the flash has slots and the buffer nodes |
| Capacity.NoRoomFails | ftl_algorithm_page_mapping.c:349-403 | a write that would leave more pages than that fails, whatever GC does |
| Capacity.FullDeviceFails | main.c:114-149 | on a new device with a large enough mapping table such a write exists; no request is served after it |
| Overlap.ApartAfterWrite | main.c:102-121 | a successful write of distinct pages leaves no page both buffered and mapped if and only if none of its pages from the last buffer overflow on was buffered before |
| Overlap.PageInBothPlaces | main.c:102-121 | for every geometry and every buffer of whole flash pages, no more of them than a block has: two writes to a new device after which a page is both buffered and mapped |
| Overlap.FlashbenchOverlap | rust/src/constants.rs:19-41 | in particular at the repository's four slots and eight buffered pages |
| BusController.TakenIsSeen | bus_controller.c:572-583 | a slot just taken counts as taken whatever the u32 clock shows, so it is not overwritten |
| BusController.NeverDue | bus_controller.c:318-331 | a taken slot is never released if and only if its wakeup time wraps to zero |
| BusController.DueExact | bus_controller.c:318-331 | a slot taken at a clock reading is due exactly at the readings from that plus the operation's time on; if the sum wraps around, from the wrapped value on, and never if that is zero |
| BusController.DueTimes | rust/src/vdevice.rs:231-240 | in numbers: 80 for a read, 800 for a program, 5000 and 100 for the locks, 100 for an erase |
| BusController.ServeExact | bus_controller.c:312-358 | phase 1 finishes the operation in flight if and only if it is due; phase 2 starts one if and only if one waits and none is in flight |
| BusController.ServeInOrder | bus_controller.c:312-358 | each step of either phase keeps that order |
| VirtualDisk.PagesApart | rust/src/vdevice.rs:54-77 | no byte of a bus's memory belongs to two pages |
| VirtualDisk.EraseExact | rust/src/vdevice.rs:174-196 | an erase overwrites exactly the bytes of the pages of its block |
| Ftl.Ftl.constructor | ssd_info.c:124-232 | a new FTL object is in the initial state, mapping array included |
| Ftl.Ftl.RetireBlock | rust/src/page_mapping_function.rs:143-148 | the block leaves the used list for the GC slot, or the dirt list if that is taken |
| Ftl.Ftl.MarkInvalid | rust/src/page_mapping_function.rs:137-142 | status and counters in place; reports whether the block has lost its last live page |
| Ftl.Ftl.InvalidateLpg | rust/src/page_mapping_function.rs:123-154 | refines Invalidate on the packed mapping array and returns the address the LPA had |
| Ftl.Ftl.MapOne | rust/src/page_mapping_function.rs:155-188 | refines MapSlot |
| Ftl.Ftl.MapLogicalToPhysical | rust/src/page_mapping_function.rs:80-107 | refines MapPage |
| Ftl.Ftl.AllocNewPage | rust/src/page_mapping_function.rs:54-78 | fails exactly without active and free block; otherwise returns the next page of the active block |
| Ftl.Ftl.UpdateActiveBlk | rust/src/page_mapping_function.rs:109-121 | refines UpdateActBlk |
| Ftl.Ftl.GetNextBusChip | page_mapping_function.c:34-46 | the next chip of the round robin |
| Ftl.Ftl.VdeviceWrite | rust/src/vdevice.rs:147-171 | replaces the data of the page and queues one program operation on its chip |
| Ftl.Ftl.VdeviceRead | rust/src/vdevice.rs:109-144 | packs the marked logical pages into the destination, in slot order, and queues one read operation with its bio on the chip |
| Ftl.Ftl.InitBlkInf | ssd_info.c:327-355 | the loops reset every page and slot |
| Ftl.Ftl.EraseBlock | rust/src/vdevice.rs:174-196 | refines EraseBlk: data, metadata and erase count of that block only; queues one erase operation on its chip |
| Ftl.Ftl.PrepareActBlks | rust/src/gc_page_mapping.rs:313-343 | refines Prepare, stopping at the first chip with neither block |
| Ftl.Ftl.FindFirstValidPg | rust/src/gc_page_mapping.rs:101-113 | refines FirstValidPg |
| Ftl.Ftl.SelectVicBlkFromUsed | rust/src/gc_page_mapping.rs:126-145 | refines MostInvalid over the used list |
| Ftl.Ftl.SelectVicBlkGreedy | rust/src/gc_page_mapping.rs:146-169 | the first dirt block, else the used block with most invalid pages |
| Ftl.Ftl.SetVicBlks | rust/src/gc_page_mapping.rs:170-207 | refines SetVictims, nr_pgs_to_copy included |
| Ftl.Ftl.GetValidPgsInVicBlks | rust/src/gc_page_mapping.rs:208-271 | refines ReadVictims on the buffer arrays; the outer loop makes one pass at most and reads exactly nr_pgs_to_copy pages |
| Ftl.Ftl.RecordLpas | rust/src/gc_page_mapping.rs:236-246 | LPAs of VALID slots are appended and their bits set |
| Ftl.Ftl.ProgValidPgsToGcBlks | rust/src/gc_page_mapping.rs:273-312 | refines Prog, padding written into lpas_to_copy in place, whatever LPAs of the table the buffers hold |
| Ftl.Ftl.PadLpas | rust/src/gc_page_mapping.rs:292-297 | pads the last page in place and nothing beyond it |
| Ftl.Ftl.UpdateGcBlks | rust/src/gc_page_mapping.rs:345-374 | refines UpdateGc |
| Ftl.Ftl.TriggerGc | rust/src/gc_page_mapping.rs:496-525 | refines Fgc; what the flash shows is as before |
| Ftl.Ftl.BgcPrepareActBlks | rust/src/gc_page_mapping.rs:527-566 | refines BgcPrepare |
| Ftl.Ftl.BgcPickVicBlk | rust/src/gc_page_mapping.rs:580-627 | keeps, replaces or drops the cached victim of a chip as the threshold and its cursor say |
| Ftl.Ftl.BgcSetVicBlks | rust/src/gc_page_mapping.rs:568-637 | refines BgcSetVictims |
| Ftl.Ftl.BgcReadTurn | rust/src/gc_page_mapping.rs:650-698 | one turn: the LPA cursor moves by the pages copied, the data cursor by the pages counted |
| Ftl.Ftl.BgcReadValidPgs | rust/src/gc_page_mapping.rs:639-701 | refines BgcRead |
| Ftl.Ftl.TriggerBgGc | gc_page_mapping.c:9-69 | refines Bgc on every state whose buffers name no LPA outside the table; what the flash shows is as before if the guard holds |
| Ftl.Ftl.IsFgcNeeded | ftl_algorithm_page_mapping.c:336-347 | both loops look at the one chip they are given |
| Ftl.Ftl.MakeWriteRequest | ftl_algorithm_page_mapping.c:349-403 | refines MakeWrite |
| Ftl.Ftl.DelInvalidatePgs | ftl_algorithm_page_mapping.c:262-283 | refines InvalidateAll |
| Ftl.Ftl.MakeReadRequest | ftl_algorithm_page_mapping.c:302-334 | returns the data of the mapped slot and queues a read with the bio on its chip; nothing of either for an LPA unmapped or out of range |
| PageBuffer.PageBuffer.constructor | write_buffer.c:75-114 | n free nodes, nothing buffered |
| PageBuffer.PageBuffer.GetPgData | write_buffer.c:166-181 | the buffered data of an LPA, if any |
| PageBuffer.PageBuffer.PutPg | write_buffer.c:207-229 | refines Put and keeps lists and index consistent |
| PageBuffer.PageBuffer.GetPgsToWrite | write_buffer.c:183-205 | refines StartWriting; LPAs and data handed out in buffer order; refused exactly when fewer are buffered |
| PageBuffer.PageBuffer.RmWrittenPgs | write_buffer.c:231-240 | refines RmWritten |
| PageBuffer.PageBuffer.RmBufPg | write_buffer.c:242-253 | refines RmBuf |
| FlashDevice.FlashDevice.FlushPage | ftl_algorithm_page_mapping.c:519-526 | refines one round of the flush |
| FlashDevice.FlashDevice.WbFlush | ftl_algorithm_page_mapping.c:514-529 | refines Flush, termination included |
| FlashDevice.FlashDevice.PutOrFlush | main.c:106-121 | puts the page, or flushes and leaves a free node, or sets err |
| FlashDevice.FlashDevice.WriteRequest | main.c:102-149 | refines WriteReq; without err the visible map is updated at the request's LPAs in order; the bio ends with error code 0 even when the write fails or is refused |
| FlashDevice.FlashDevice.PutPages | main.c:102-121 | the loop with `loop--` refines PutAll and ends |
| FlashDevice.FlashDevice.DiscardBounds | ftl_algorithm_page_mapping.c:416-420 | the rounded sector arithmetic gives the pages DiscardExact speaks of |
| FlashDevice.FlashDevice.DiscardRequest | ftl_algorithm_page_mapping.c:411-446 | refines DiscardReq; refused once err is set, with error code 0 |
| FlashDevice.FlashDevice.DropMapped | ftl_algorithm_page_mapping.c:429-443 | the batching loop over lpas_to_discard invalidates every page once |
| FlashDevice.FlashDevice.ReadRequest | main.c:59-98 | refused once err is set, with error code 0; otherwise returns the visible map, and queues a read with the bio only for a page found in the flash |
| FlashDevice.FlashDevice.BackgroundGc | main.c:349-354 | a background GC run, its guard holding, leaves the visible map alone |
| OperationQueue.OprQueue.PutEntry | bus_controller.c:453-487 | appends to the bounded sequence the ring stands for; refused exactly when full |
| OperationQueue.OprQueue.GetFirst | bus_controller.c:492-518 | the oldest entry |
| OperationQueue.OprQueue.RemoveFirst | bus_controller.c:523-550 | removes the oldest entry, across wraparound |
| BusController.BusController.IssueOperation | bus_controller.c:171-175 | one Put on the chip's port, the others as they were |
| BusController.BusController.ReleaseDue | bus_controller.c:312-331 | phase 1 is one step Phase1 of every port, and lists the bios of exactly the operations that finish, in chip order |
| BusController.BusController.IssueNext | bus_controller.c:333-358 | phase 2 is one step Phase2 of every port: the oldest operation starts on exactly the idle chips with work |
| BusController.BusController.Pass | bus_controller.c:312-358 | a pass of the thread is Phase1 and Phase2 of every port, so that the object stays in the order of issue, one operation in flight, over every run of passes and issues |
| LinkedList.DlList.Append | uthash/utlist.h:514-527 | relinking at head.prev refines appending to a sequence |
| LinkedList.DlList.Delete | uthash/utlist.h:548-563 | relinking the neighbours refines removing the element; head.prev stays the tail |
| HashTable.HashTable.Find | uthash/uthash.h:119-130 | the bucket walk returns the map's element, if any |
| HashTable.HashTable.Add | uthash/uthash.h:198-222 | adds to the finite map, expanding or not |
| HashTable.HashTable.Delete | uthash/uthash.h:240-274 | removes the key from the finite map, and releases the table with its last element |
| HashTable.HashTable.ExpandBuckets | uthash/uthash.h:691-737 | doubles the buckets, keeps the map and has every item in the bucket its hash value names |

## Left out

- Ftl.Ftl.VdeviceWrite: blocks, pages and chips are values in tables the object reassigns, so aliasing between pointers to one block is not captured.
- Ftl.Ftl.constructor: the per-chip loops of create_act_blk_mngr and create_gc_mngr run as one; no allocation failures.
- Interleaving.RunRefines: background GC runs where its guard holds only, because elsewhere the claim is false; see above.
- BgcProgress.BgcDrains: for rounds that start with an intact victim cache and return 0.
- BusController.BusController.IssueNext: each queue is the sequence its ring refines, not the ring object.
- HashTable.HashTable.Delete: the chain pointers inside a bucket and the application-order list are not modelled.
- Completion.ExactlyOnce: waiting on a full queue is the absence of the event; nothing is said about when a thread runs.
- Supply.NeverFails: says nothing about runs with background GC, which may take a GC block without leaving another, nor about tables larger than that by less than two buffers.
- Module set-up and tear-down, procfs, kernel threads and signals, printk, performance counters: no property of the device.
- The delete manager's hashes, del_flag, is_bad_block, the active and reserved flags, last_modified_time: never read in a decision.
- HASH_JEN: any function of the key.
- Segment iteration of a block I/O: a request is its list of logical pages.
