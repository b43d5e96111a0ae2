# ov6 in Dafny

A model of the parts of the ov6 kernel (a Rust rewrite of xv6 for RISC-V) where correctness is hardest to see
from the code, with proofs about every run of it. `dafny verify dfyconfig.toml` checks the project.

- **Virtual memory** — `VirtualMemory`, `CopyOnWrite`, `AddressSpaces`, `UserCopy`, `FrameAllocator`. Frames,
  reference counts and any number of address spaces form one machine. Its central theorem compares it with a
  machine that copies every page at fork and never shares: no history of clones, faults, stores, mappings and
  unmappings tells them apart, and the counts are right throughout. `AddressSpaces` and `UserCopy` have the same
  operations as methods with loops, and the copies between kernel and user memory.
- **Page tables as trees** — `PageTree`, `PageValidation`, `Superpages`, `TableTrees`. The three-level Sv39 table
  (section 4.4 of the RISC-V Privileged Architecture) with 4 KiB, 2 MiB and 1 GiB leaves, the two explicit-stack
  iterators, `validate`, and mapping with 2 MiB leaves. `TableTrees` ties the trees to the machine above: what a walk
  finds in the tree of a space is what the machine reads and changes.
- **User allocator** — `Malloc`. The circular free list with headers in the managed memory. Addresses are counted
  in units of 16 bytes, the size of a header; `BASE` lies below the heap, and the break only grows.
- **Storage** — `Lru`, `BlockCache`, `Log`, `Blocks`, `Bitmap`, `InodeBlocks`, `InodeContent`, `DiskSpace`,
  `Files`. Each layer against a simpler one: the cache against a store of blocks, inodes against sequences of bytes
  that share a number of blocks, a commit against its outcome, with and without a crash on the way.
- **Processes** — `CondVar`, `Processes`. Interleaved atomic steps under sequential consistency; a step is a section
  of code under one lock.
- **Disk driver** — `Virtio`. Driver and device sharing the rings (sections 2.6 and 5.2 of VIRTIO 1.1); the device
  takes requests in order, serves them in any order and reports any status.
- **Paths** — `Path`. The double-ended component cursor.

Each of the machines that run through interleaved or repeated steps also has a theorem that says what it has come to from
the list of operations alone: `HistoryTells` for the bytes and rights of address spaces, `BytesAreLatest` for files,
`ReadsReturnLastStored` for the cache, `StatusIsExitCode` and `ParentsAreForkers` for processes, and one called
`OperationsTell` in `Lru`, `BlockCache`, `Log`, `CondVar` and `Virtio`.

Where a property promised of the code fails in some case, the model keeps the code. One lemma gives the exact
condition, another an input or a whole run on which it fails:

| property | condition | failing case |
|---|---|---|
| a store fault keeps the reference counts right | `FaultKeepsCountsIff` | `FaultLosesReference` |
| a fork does | `CloneKeepsCountsIff`, `ClonePagesFrom` | `CloneLosesReference` |
| a copy to user memory ends | `CopyToUser`, `CopyUserToUser` | `FaultLosesReference` |
| a store is seen by one space alone | `StoreRefinesIff` | `StoreLeaks` |
| mapping over a page compares its rights | `RemapAgreesIff` | `RemapDiffers` |
| an entry that loses W stays a leaf | `CopyOnWriteKeepsLeafIff` | its second clause |
| the leaf iterator's range assertion | `NoPanicIff` | `StraddlingLeafPanics` |
| an unmapped range can be mapped with superpages | `FitsIff` | `EmptyTableBlocksSuperpage` |
| a logged transaction within its budget fails no assertion | `ReleasePanicsIff`, `FullMeansSpent` | `FullLogPanics` |
| a commit finds a cache buffer for its copies | `StepOk`, `WriteLogBody` | `FullCommitPanics` |
| a commit survives a crash, and is all or nothing | `CommitSurvivesIff`, `AtomicIff` | `TornCommit` |
| recovery succeeds | `RecoverFromLog` | `BodyOverHeader` |
| recycling a cache slot loses nothing | `RecycleSafeIff` | `UnwrittenLost` |
| a write stores all its bytes | `ExtentReaches`, `WriteCompleteIff` | every disk with fewer blocks |
| a change made under the lock is not slept through | `CoveredIff` | `LateNotifyLoses` |
| the driver's assertion on the status byte | `InterruptPanicsIff`, `RunPanicsIff` | `ErrorStatusPanics` |

The comment of `validate` announces a panic on a reversed range; the code accepts such a range as empty, and so does
the model. The comment of the log describes a redo log whose body follows the header; in the code body slot 0 is the
header block and recovery reads the blocks it installs from their homes, and the model does the same.

Time, hardware and what other code decides are parameters: the address `grow_break` returns, the choice of the next
step in an interleaving, the order in which the device serves requests and the status it reports.

## Model

| member | source | states |
|---|---|---|
| `CopyOnWrite.CopyOnWriteRefinesEagerCopy` | crates/kernel/ov6_kernel/src/memory/page_table/mod.rs:101-135 | over every history of clones, faults, stores, mappings and unmappings in any number of spaces each space has the bytes and rights it would have had if fork copied, outcomes are equal, nothing panics, and the invariant on counts and trees holds |
| `CopyOnWrite.HistoryTells` | crates/kernel/ov6_kernel/src/memory/page_table/mod.rs:101-135 | in every such history the byte and the rights a space finds anywhere are read off the operations and their outcomes alone: the last store there, the page it was cloned from, or how it was mapped |
| `CopyOnWrite.StepRefines` | crates/kernel/ov6_kernel/src/memory/page_table/entry.rs:236-285 | every single step keeps the invariant and follows the eager machine |
| `CopyOnWrite.CloneStep` | crates/kernel/ov6_kernel/src/memory/page_table/mod.rs:112-132 | sharing a page with the child looks like copying it, for both spaces |
| `CopyOnWrite.FaultStep` | crates/kernel/ov6_kernel/src/memory/page_table/mod.rs:259-264 | a store fault changes nothing any space can see |
| `CopyOnWrite.BreakInPlace` | crates/kernel/ov6_kernel/src/memory/page_table/entry.rs:264-269 | the sole owner of a shared page gets write permission back without a copy, soundly |
| `CopyOnWrite.BreakByCopy` | crates/kernel/ov6_kernel/src/memory/page_table/entry.rs:271-284 | a page with other owners is copied, the copy is private, the others keep theirs |
| `CopyOnWrite.StoreStep` | crates/kernel/ov6_kernel/src/memory/page_table/mod.rs:239-257 | a store that does not change a frame a read-only entry shares with others is seen by the storing space alone |
| `CopyOnWrite.ByteWritten` | crates/kernel/ov6_kernel/src/memory/page_table/mod.rs:239-257 | a byte written through a writable entry, or into a frame of its own, changes that page of that space and no other page of any space |
| `CopyOnWrite.StoreRefinesIff` | crates/kernel/ov6_kernel/src/memory/page_table/mod.rs:239-257 | a store asked for with U or W follows the eager machine if and only if it does not change a frame that a read-only entry shares with others |
| `CopyOnWrite.StoreLeaks` | crates/kernel/ov6_kernel/src/memory/page_table/mod.rs:239-257 | from boot, a run of legal steps to a shared read-only page and a store, asked for with U alone, that the other space sees |
| `CopyOnWrite.MapNewStep` | crates/kernel/ov6_kernel/src/memory/page_table/mod.rs:410-439 | mapping an allocated page, including the table pages on the way, or over an existing page, follows the eager machine |
| `CopyOnWrite.EnoughIff` | crates/kernel/ov6_kernel/src/memory/page_table/mod.rs:386-439 | making a space or a mapping fails for want of memory if and only if fewer frames are free than its table pages and its page need, and takes exactly those otherwise |
| `CopyOnWrite.RemapAgreesIff` | crates/kernel/ov6_kernel/src/memory/page_table/mod.rs:418-424 | mapping over an existing page answers as the eager machine if and only if its flags, with and without the W a fork has taken away, compare alike |
| `CopyOnWrite.RemapDiffers` | crates/kernel/ov6_kernel/src/memory/page_table/mod.rs:418-424 | from boot, a run of legal steps after which mapping over a page with the rights its space has is refused |
| `CopyOnWrite.MapFixedStep` | crates/kernel/ov6_kernel/src/memory/page_table/mod.rs:344-357 | mapping a fixed frame outside the page manager touches no count |
| `CopyOnWrite.FixedKeepsCountsIff` | crates/kernel/ov6_kernel/src/memory/page_table/mod.rs:344-357 | mapping a fixed frame keeps the counts right if and only if the frame is none of the page manager's and the mapping is not writable |
| `CopyOnWrite.UnmapStep` | crates/kernel/ov6_kernel/src/memory/page_table/entry.rs:166-187 | freeing a leaf drops exactly its reference and its page |
| `CopyOnWrite.FreeTableStep` | crates/kernel/ov6_kernel/src/memory/page_table/mod.rs:517-521 | freeing an empty table page gives back exactly that frame |
| `CopyOnWrite.FreeUnnamed` | crates/kernel/ov6_kernel/src/memory/page_manager.rs:64-79 | a frame on the free list has count 0, is named by no entry of any table and holds no table |
| `CopyOnWrite.RefsBounded` | crates/kernel/ov6_kernel/src/memory/page_manager.rs:181-192 | the 32-bit count cannot reach the non-shareable mark: all entries of all tables together are fewer |
| `CopyOnWrite.BootOk` | crates/kernel/ov6_kernel/src/memory/page_manager.rs:259-306 | with every frame free and no table the invariant and the simulation hold |
| `CopyOnWrite.AllFramesReturn` | crates/kernel/ov6_kernel/src/memory/page_table/mod.rs:266-270 | when no table is left, no leaf is either and every frame of the heap is on the free list exactly once |
| `CopyOnWrite.FaultKeepsCountsIff` | crates/kernel/ov6_kernel/src/memory/page_table/entry.rs:264-272 | a fault keeps the counts right if and only if no copy is needed or a frame is free |
| `CopyOnWrite.FaultLosesReference` | crates/kernel/ov6_kernel/src/memory/page_table/entry.rs:264-272 | from boot with seven frames, a run of legal steps to a shared page and no free frame, where a store fault breaks the counts |
| `CopyOnWrite.CloneKeepsCountsIff` | crates/kernel/ov6_kernel/src/memory/page_table/mod.rs:124-131 | a clone keeps the counts right if and only if the frames its table pages need are free |
| `CopyOnWrite.CloneLosesReference` | crates/kernel/ov6_kernel/src/memory/page_table/mod.rs:124-131 | from boot with five frames, a run of legal steps after which a clone breaks the counts |
| `CopyOnWrite.CopyOnWriteKeepsLeafIff` | crates/kernel/ov6_kernel/src/memory/page_table/entry.rs:236-243 | an entry is still a leaf after losing W if and only if it had R or X |
| `AddressSpaces.Machine.AllocPage` | crates/kernel/ov6_kernel/src/memory/page_manager.rs:95-125 | takes the first free frame with the given count and content, or fails with nothing changed |
| `AddressSpaces.Machine.DropPage` | crates/kernel/ov6_kernel/src/memory/page_manager.rs:64-79 | one reference less; the last one puts the frame on the free list |
| `AddressSpaces.Machine.BreakShare` | crates/kernel/ov6_kernel/src/memory/page_table/entry.rs:245-285 | the method form of the copy-on-write fault, equal to its specification |
| `AddressSpaces.Machine.EnsureTablePage` | crates/kernel/ov6_kernel/src/memory/page_table/mod.rs:396-399 | allocates a table page unless there is one |
| `AddressSpaces.Machine.FindOrCreateLeaf` | crates/kernel/ov6_kernel/src/memory/page_table/mod.rs:386-406 | the path of the page exists afterwards if and only if the missing table pages were free frames; no page of any space has changed and the counts are right either way |
| `AddressSpaces.Machine.CloneOne` | crates/kernel/ov6_kernel/src/memory/page_table/mod.rs:112-132 | succeeds, and keeps the counts right, if and only if the frames for the child's missing table pages are free; then the child's page is the parent's with the same bytes and rights, everything else is kept and exactly those frames are gone |
| `AddressSpaces.Machine.ClonePagesFrom` | crates/kernel/ov6_kernel/src/memory/page_table/mod.rs:101-135 | consumes one frame for each table page the child lacks up to the first page that is not the user's; keeps the counts right if and only if there are that many; succeeds if and only if moreover all pages are the user's, and then every page of the range is copied and every other page of every space is kept; never panics |
| `AddressSpaces.Machine.FreeEntry` | crates/kernel/ov6_kernel/src/memory/page_table/entry.rs:166-187 | removes the leaf and its reference |
| `AddressSpaces.Machine.UnmapRange` | crates/kernel/ov6_kernel/src/memory/page_table/mod.rs:141-155 | exactly the pages of the range are gone |
| `AddressSpaces.Machine.FreeTablePage` | crates/kernel/ov6_kernel/src/memory/page_table/mod.rs:517-521 | the table page and everything below it is gone, every other table and page of every space is kept, and the counts are right |
| `AddressSpaces.DropSpaces` | crates/kernel/ov6_kernel/src/memory/page_table/mod.rs:266-270 | after dropping every page table no table and no leaf is left and every frame of the heap is on the free list exactly once |
| `UserCopy.FetchChunk` | crates/kernel/ov6_kernel/src/memory/page_table/mod.rs:217-232 | a chunk is returned if and only if the page has the flags; it is the rest of the page, and its bytes are what the space reads at those addresses |
| `UserCopy.FetchChunkMut` | crates/kernel/ov6_kernel/src/memory/page_table/mod.rs:239-257 | a chunk is returned if and only if the page can be made private; writing to it is seen by no other page of any space |
| `UserCopy.WriteChunk` | crates/kernel/ov6_kernel/src/memory/vm_user.rs:274-279 | the bytes appear at their addresses and nowhere else |
| `UserCopy.CopyToUser` | crates/kernel/ov6_kernel/src/memory/vm_user.rs:266-282 | after validation the copy ends without failing if and only if there are as many free frames as shared pages in the range, consumes exactly those, writes exactly the source bytes and changes nothing else in any space |
| `UserCopy.CopyFromUser` | crates/kernel/ov6_kernel/src/memory/vm_user.rs:305-318 | returns exactly the bytes the user reads in the range |
| `UserCopy.CopyUserToUser` | crates/kernel/ov6_kernel/src/memory/vm_user.rs:331-383 | the same for two tables and any two alignments: the destination range reads what the source range read |
| `FrameAllocator.PageFrameAllocator.constructor` | crates/kernel/page_alloc/src/page_frame_allocator.rs:44-72 | the list built in the pages holds every page of the heap once, lowest first |
| `FrameAllocator.PageFrameAllocator.Alloc` | crates/kernel/page_alloc/src/page_frame_allocator.rs:104-109 | the first page of the list, which no longer contains it; fails only on an empty list |
| `FrameAllocator.PageFrameAllocator.Free` | crates/kernel/page_alloc/src/page_frame_allocator.rs:137-147 | puts the page in front |
| `FrameAllocator.PageFrameAllocator.Overwrite` | crates/kernel/page_alloc/src/page_frame_allocator.rs:137-147 | whatever the owner of an allocated page stores in it, the list is intact |
| `FrameAllocator.LinkedElsewhere` | crates/kernel/page_alloc/src/page_frame_allocator.rs:4-7 | links outside the list do not matter to it |
| `PageTree.IdxFinds` | crates/kernel/ov6_kernel/src/memory/addr.rs:195-199 | the level index of an address selects the entry that covers it |
| `PageTree.FindLeafEntry` | crates/kernel/ov6_kernel/src/memory/page_table/mod.rs:175-190 | the loop returns the leaf the walk of the architecture finds |
| `PageTree.FindCovers` | crates/kernel/ov6_kernel/src/memory/page_table/mod.rs:175-190 | a leaf found covers the address, and is found from every address it covers |
| `PageTree.LeavesMut.constructor` | crates/kernel/ov6_kernel/src/memory/page_table/iter.rs:101-117 | starts with all leaves that meet the range still to come, none for an empty range |
| `PageTree.LeavesMut.Next` | crates/kernel/ov6_kernel/src/memory/page_table/iter.rs:123-154 | yields the first of the leaves still to come and leaves the rest, ends only when there are none, panics only at a leaf that begins before the range |
| `PageTree.LeavesExact` | crates/kernel/ov6_kernel/src/memory/page_table/iter.rs:95-154 | the leaves to come are exactly those of the table that meet the range, ascending and disjoint |
| `PageTree.NoPanicIff` | crates/kernel/ov6_kernel/src/memory/page_table/iter.rs:134-134 | the range assertion holds on the whole walk if and only if the first address is unmapped or begins its leaf; then the leaves yielded are exactly those whose base lies in the range |
| `PageTree.StraddlingLeafPanics` | crates/kernel/ov6_kernel/src/memory/page_table/iter.rs:134-134 | a table with one 1 GiB leaf and a range inside it on which the assertion fails |
| `PageValidation.Entries.constructor` | crates/kernel/ov6_kernel/src/memory/page_table/iter.rs:22-46 | starts with the whole walk to come, parents first, nothing for an empty range |
| `PageValidation.Entries.Enter` | crates/kernel/ov6_kernel/src/memory/page_table/iter.rs:57-75 | entering the table yielded last leaves the walk to come unchanged |
| `PageValidation.Entries.Next` | crates/kernel/ov6_kernel/src/memory/page_table/iter.rs:52-92 | yields the walk one entry at a time, ending exactly at its end |
| `PageValidation.Validate` | crates/kernel/ov6_kernel/src/memory/page_table/mod.rs:57-76 | succeeds if and only if every byte of the range translates to a leaf with the flags, counting C as W; a failure names the entry of the first byte that does not, and which kind of failure it is |
| `PageValidation.WalkLocates` | crates/kernel/ov6_kernel/src/memory/page_table/mod.rs:61-75 | the first bad entry of the walk stands for the first address that is not served |
| `Superpages.PutTranslates` | crates/kernel/ov6_kernel/src/memory/page_table/mod.rs:386-406 | a leaf put in a vacant slot translates its block, all other addresses go where they went |
| `Superpages.PutVacant` | crates/kernel/ov6_kernel/src/memory/page_table/mod.rs:386-406 | creating tables for one block changes the vacancy of no disjoint block |
| `Superpages.VacantIff` | crates/kernel/ov6_kernel/src/memory/page_table/mod.rs:418-424 | a slot can take a leaf if and only if its block is unmapped and it holds no table |
| `Superpages.PageTable.MapPage` | crates/kernel/ov6_kernel/src/memory/page_table/mod.rs:410-439 | the walk that creates missing tables succeeds exactly on a vacant slot and then maps exactly its block; otherwise nothing has changed |
| `Superpages.PageTable.MapAddrsLevel` | crates/kernel/ov6_kernel/src/memory/page_table/mod.rs:441-463 | fails with nothing changed past the end of the address space; else succeeds exactly when every slot is vacant, mapping exactly the range |
| `Superpages.PageTable.MapAddrs` | crates/kernel/ov6_kernel/src/memory/page_table/mod.rs:473-515 | on success address va + k goes to pa + k with the given rights for all k in the range and every other address where it went |
| `Superpages.FitsIff` | crates/kernel/ov6_kernel/src/memory/page_table/mod.rs:490-512 | mapping succeeds if and only if the range is unmapped and no 2 MiB slot used holds a table |
| `Superpages.SuperpagesAreInvisible` | crates/kernel/ov6_kernel/src/memory/page_table/mod.rs:473-515 | the result translates every address as mapping each 4 KiB page separately does |
| `Superpages.EmptyTableBlocksSuperpage` | crates/kernel/ov6_kernel/src/memory/page_table/mod.rs:418-424 | a table with nothing mapped at all that the mapping still refuses |
| `TableTrees.TreeFinds` | crates/kernel/ov6_kernel/src/memory/page_table/mod.rs:175-190 | walking the tree that the tables and leaves of a space spell out finds, for every address, the leaf the space has for its page |
| `TableTrees.ServedIsValidated` | crates/kernel/ov6_kernel/src/memory/page_table/mod.rs:57-76 | validating that tree succeeds if and only if the space allows every address of the range, the condition of the user copies |
| `TableTrees.LeavesArePages` | crates/kernel/ov6_kernel/src/memory/page_table/iter.rs:95-154 | the leaf iterator over a range of pages yields the mapped pages of the space in order, and its assertion holds |
| `Malloc.Heap.constructor` | crates/user/ov6_user_lib/src/alloc.rs:22-25 | the empty heap: the free list is the base block alone |
| `Malloc.Heap.FindPlace` | crates/user/ov6_user_lib/src/alloc.rs:66-77 | the search of free ends at the block after which the freed one belongs |
| `Malloc.Heap.Free` | crates/user/ov6_user_lib/src/alloc.rs:63-97 | the block is no longer live, its units are free and merged with both neighbours, no other live block's memory changes |
| `Malloc.Heap.FindFit` | crates/user/ov6_user_lib/src/alloc.rs:43-60 | the search of malloc ends, with a block large enough if there is one |
| `Malloc.Heap.ExpandHeap` | crates/user/ov6_user_lib/src/alloc.rs:99-115 | the units obtained join the free list |
| `Malloc.Heap.Carve` | crates/user/ov6_user_lib/src/alloc.rs:46-57 | the block or its tail end becomes live |
| `Malloc.Heap.Malloc` | crates/user/ov6_user_lib/src/alloc.rs:30-61 | returns a new live block of the right size, touching no other live block; grows the heap only when no free block is large enough, once, and fails only when that fails |
| `Malloc.PayloadStored` | crates/user/ov6_user_lib/src/alloc.rs:30-61 | whatever the owner of a live block writes beyond its header, list, tiling and live blocks are intact |
| `Malloc.Heap.StorePayload` | crates/user/ov6_user_lib/src/alloc.rs:30-61 | a store to the payload of a live block keeps the heap valid and changes that unit alone |
| `Malloc.ExactTiling` | crates/user/ov6_user_lib/src/alloc.rs:30-115 | every unit obtained lies in exactly one block, free or live, and blocks hold nothing else |
| `Malloc.SingleWrap` | crates/user/ov6_user_lib/src/alloc.rs:66-77 | the links visit the free blocks in ascending order, no two touching, and wrap once |
| `Malloc.UnitsFor` | crates/user/ov6_user_lib/src/alloc.rs:31-31 | the fewest units that hold the request and a header |
| `Lru.RunOk` | crates/kernel/lru/src/lib.rs:128-183 | in every run keys are distinct, counts are one more than the live handles, the list is ordered by last release, and handles share a slot exactly when their keys match |
| `Lru.GetOk` | crates/kernel/lru/src/lib.rs:128-162 | a lookup, with re-keying in place, keeps the invariant |
| `Lru.HitShares` | crates/kernel/lru/src/lib.rs:138-144 | a hit hands out the slot that has the key and changes its count alone |
| `Lru.GetFinds` | crates/kernel/lru/src/lib.rs:146-161 | a lookup succeeds if and only if the key is cached or a slot is not held; a miss re-keys one such slot in place |
| `Lru.StartDropOk` | crates/kernel/lru/src/lib.rs:171-182 | promotion on drop keeps the invariant, so the order is that of releases |
| `Lru.CloneOk` | crates/kernel/lru/src/lib.rs:241-247 | a cloned handle keeps the invariant |
| `Lru.EndDropOk` | crates/kernel/lru/src/lib.rs:213-215 | giving back the reference after the promotion keeps the invariant |
| `Lru.DropReleases` | crates/kernel/lru/src/lib.rs:171-215 | a handle dropped is gone, its slot has one reference less and comes first, the others follow in their order |
| `Lru.ReferencedSlotKeepsKey` | crates/kernel/lru/src/lib.rs:146-158 | no step re-keys a slot a live handle refers to |
| `Lru.VictimIsLeastRecent` | crates/kernel/lru/src/lib.rs:146-161 | a miss takes the unreferenced slot released longest ago; it fails if and only if every slot is referenced |
| `Lru.OperationsTell` | crates/kernel/lru/src/lib.rs:128-215 | in every run which handles there are, their keys and when each slot was last released are read off the operations |
| `Lru.RecyclesLongestReleased` | crates/kernel/lru/src/lib.rs:146-158 | after any run from a fresh map a miss takes an unheld slot whose last release lies furthest back in the operations, or that was never released |
| `Lru.FreshOk` | crates/kernel/lru/src/lib.rs:107-118 | a new map satisfies the invariant |
| `Lru.LruMap.constructor` | crates/kernel/lru/src/lib.rs:107-118 | builds the new map slot by slot |
| `Lru.LruMap.FindKey` | crates/kernel/lru/src/lib.rs:138-144 | the first node with the key |
| `Lru.LruMap.FindVictim` | crates/kernel/lru/src/lib.rs:148-153 | the last node without references |
| `Lru.LruMap.Get` | crates/kernel/lru/src/lib.rs:128-162 | a hit returns the slot that has the key, with one reference more and nothing else changed; nothing is returned, and nothing changes, if and only if no node has the key and every slot is held; a miss is as its specification |
| `Lru.LruMap.Promote` | crates/kernel/lru/src/lib.rs:171-182 | the method form of the promotion, equal to its specification |
| `BlockCache.CacheRefinesStore` | crates/kernel/block_io/src/lib.rs:208-390 | every run of lookups, locks, reads, stores, write-backs and drops, with recycling, shows its clients what one store of blocks would: each read returns the last value stored |
| `BlockCache.ReadsReturnLastStored` | crates/kernel/block_io/src/lib.rs:208-390 | in every run each read returns the bytes last stored under its key in the list of operations, or what was there at the start |
| `BlockCache.OperationsTell` | crates/kernel/block_io/src/lib.rs:208-390 | in every run the disk holds under each key what was stored there when it was last written back, and the guard of each slot is with whom the operations gave it to |
| `BlockCache.ListRunsAlong` | crates/kernel/block_io/src/lib.rs:128-226 | every run of the cache is a run of the map below it, lookup by lookup and clone by clone |
| `BlockCache.StepSimulates` | crates/kernel/block_io/src/lib.rs:208-390 | each operation keeps the invariant and follows the store |
| `BlockCache.LockStep` | crates/kernel/block_io/src/lib.rs:208-226 | locking a recycled slot discards the other block's data and loses nothing |
| `BlockCache.ReadStep` | crates/kernel/block_io/src/lib.rs:270-290 | a read returns the last value stored under the key |
| `BlockCache.TryValidateStep` | crates/kernel/block_io/src/lib.rs:328-343 | data found valid are the last value stored under the key, not those of the block the slot held before |
| `BlockCache.SetDataStep` | crates/kernel/block_io/src/lib.rs:293-321 | storing a whole block is a store under the key |
| `BlockCache.BytesMutStep` | crates/kernel/block_io/src/lib.rs:359-362 | so is changing it in place |
| `BlockCache.WriteBackStep` | crates/kernel/block_io/src/lib.rs:385-390 | the disk then holds the last value stored under the key and the slot is clean; clients see no change |
| `BlockCache.GetMiss` | crates/kernel/lru/src/lib.rs:146-158 | when a slot is recycled its old block is safe on disk and the new one is not cached elsewhere |
| `BlockCache.EndDropStep` | crates/kernel/lru/src/lib.rs:213-215 | releasing a written-back block loses nothing |
| `BlockCache.RecycleSafeIff` | crates/kernel/lru/src/lib.rs:146-158 | whatever clients did before, handing a slot over to an uncached block loses nothing if and only if its data, where they pass for the old or the new block, are what the disk holds |
| `BlockCache.UnwrittenLost` | crates/kernel/lru/src/lib.rs:146-158 | from a fresh cache, a legal run that changes a block, its last release without writing back, and a lookup of another block: the cache then stands for the store in which the change never happened |
| `BlockCache.FreshRefines` | crates/kernel/block_io/src/lib.rs:114-122 | an empty cache stands for the disk |
| `BlockCache.BlockData.constructor` | crates/kernel/block_io/src/lib.rs:114-122 | fresh slot data stands for the disk under any key |
| `BlockCache.BlockData.Lock` | crates/kernel/block_io/src/lib.rs:214-218 | the data of another block is never taken for that of the key, and no store under the key is lost |
| `BlockCache.BlockData.Read` | crates/kernel/block_io/src/lib.rs:270-290 | returns the last value stored, given a coherent slot, and keeps it coherent |
| `BlockCache.BlockData.SetData` | crates/kernel/block_io/src/lib.rs:293-306 | makes the slot coherent with the store updated |
| `BlockCache.BlockData.Write` | crates/kernel/block_io/src/lib.rs:385-390 | the disk holds the slot's data, coherence is kept |
| `Log.RunOk` | crates/kernel/ov6_kernel/src/fs/log.rs:172-265 | every interleaving of transactions that each add fewer than MAX_OP_BLOCKS blocks is legal, fails no assertion, has a buffer for every commit and keeps the invariant |
| `Log.RunKeeps` | crates/kernel/ov6_kernel/src/fs/log.rs:172-265 | every interleaving within the announced budgets that fails no assertion keeps the invariant |
| `Log.BeginReserve` | crates/kernel/ov6_kernel/src/fs/log.rs:187-187 | the admission test leaves room for all a new transaction may add |
| `Log.RoomForOne` | crates/kernel/ov6_kernel/src/fs/log.rs:259-265 | a transaction below its budget finds the log open and not full |
| `Log.ReleasePanicsIff` | crates/kernel/ov6_kernel/src/fs/log.rs:74-79 | releasing a block fails if and only if it is dirty and the log is full, also when it is logged already |
| `Log.FullMeansSpent` | crates/kernel/ov6_kernel/src/fs/log.rs:74-79 | the log is full only when every running transaction has added MAX_OP_BLOCKS |
| `Log.FullLogPanics` | crates/kernel/ov6_kernel/src/fs/log.rs:74-79 | from any start, three transactions of ten blocks each and the release of a block logged already: a run within the budgets that fails the assertion |
| `Log.StepOk` | crates/kernel/ov6_kernel/src/fs/log.rs:172-265 | a step fails if and only if it releases a dirty block into a full log or starts a commit whose logged blocks pin all buffers; every other step keeps the invariant |
| `Log.StartedOk` | crates/kernel/ov6_kernel/src/fs/log.rs:156-167 | the invariant holds whenever the log starts afresh |
| `Log.HomeWrittenOnlyByInstall` | crates/kernel/ov6_kernel/src/fs/log.rs:134-140 | a home block changes on disk only while a commit installs it, to its cached content, with no transaction running |
| `Log.CommitExcludesTransactions` | crates/kernel/ov6_kernel/src/fs/log.rs:175-187 | during a commit nothing else of the log can happen |
| `Log.CommitOk` | crates/kernel/ov6_kernel/src/fs/log.rs:87-95 | each step of a commit that has found a buffer keeps the invariant |
| `Log.FullCommitPanics` | crates/kernel/ov6_kernel/src/fs/log.rs:110-117 | from any start, the commit of three transactions of ten blocks each, all within their budgets: no buffer is left to copy the first block with |
| `Log.CommitReachesDisk` | crates/kernel/ov6_kernel/src/fs/log.rs:87-95 | when a commit ends every home block on disk equals its cached content and the header on disk is empty |
| `Log.DiskIsCurrentWhenIdle` | crates/kernel/ov6_kernel/src/fs/log.rs:231-256 | in every run that fails no assertion, whenever no transaction runs and no commit is under way, every home block on disk equals its cached content and the log on disk is empty |
| `Log.OperationsTell` | crates/kernel/ov6_kernel/src/fs/log.rs:172-265 | in every such run the content clients see of a block is the bytes last given for it in the list of operations, its holder the last to acquire it, and the running transactions those begun and not ended |
| `Log.IdleDiskHoldsLastGiven` | crates/kernel/ov6_kernel/src/fs/log.rs:231-256 | so whenever the log is idle every home block on disk holds the bytes last given for it, or what it held at the start |
| `Log.CommitAdvances` | crates/kernel/ov6_kernel/src/fs/log.rs:87-95 | a commit ends after a known number of steps and changes no cached content |
| `Log.LogHeader.Push` | crates/kernel/ov6_kernel/src/fs/log.rs:74-79 | adds the block unless it is there; fails exactly on a full header |
| `Log.LogHeader.WriteLogBody` | crates/kernel/ov6_kernel/src/fs/log.rs:110-117 | fails if and only if the logged blocks pin all NBUF buffers, and then has written nothing; otherwise each logged block is copied to its body slot; no home block is touched |
| `Log.LogHeader.WriteLogHead` | crates/kernel/ov6_kernel/src/fs/log.rs:122-131 | the header block, word by word, decodes to the logged blocks, and no other block changes |
| `Log.LogHeader.InstallTransaction` | crates/kernel/ov6_kernel/src/fs/log.rs:134-140 | every logged block's home receives its content, nothing else changes, the header is emptied |
| `Log.LogHeader.CommitAll` | crates/kernel/ov6_kernel/src/fs/log.rs:87-95 | the whole commit: fails with nothing changed if and only if no buffer is left; otherwise homes written, log empty, all other home blocks as before |
| `Log.HeaderRoundTrip` | crates/common/ov6_fs_types/src/lib.rs:164-204 | decoding the encoded header gives back the block numbers |
| `Log.LogHeader.Read` | crates/kernel/ov6_kernel/src/fs/log.rs:98-107 | collects each block the header names once; fails if and only if the count is impossible, the log fills up, or an entry finds all buffers taken by the header and the blocks before it |
| `Log.LogHeader.RecoverFromLog` | crates/kernel/ov6_kernel/src/fs/log.rs:81-85 | fails if and only if the header cannot be read, buffers included, or names a block that is not there; otherwise empties the header and leaves every other block as the crash left it |
| `Log.RecoveredStarts` | crates/kernel/ov6_kernel/src/fs/log.rs:156-167 | after a recovery the log starts afresh, whatever home blocks were read since |
| `Log.CommitSurvivesIff` | crates/kernel/ov6_kernel/src/fs/log.rs:81-95 | after a crash anywhere in a commit, recovery succeeds if and only if the first logged block, while it stands in the header block, reads as a header; moreover every home block holds what clients saw if and only if no block still to be installed had changed |
| `Log.CrashWhileInstalling` | crates/kernel/ov6_kernel/src/fs/log.rs:81-95 | a crash with k blocks installed: recovery succeeds, those k are new and all other home blocks are as before the commit |
| `Log.AtomicIff` | crates/kernel/ov6_kernel/src/fs/log.rs:81-95 | then all blocks of the commit are new if and only if the rest had not changed, and all are old if and only if the first k had not |
| `Log.TornCommit` | crates/kernel/ov6_kernel/src/fs/log.rs:81-95 | from any start, a transaction of two changed blocks and a crash that leave one new and the other old |
| `Log.BodyOverHeader` | crates/common/ov6_fs_types/src/lib.rs:147-157 | between the first body write and the header write the header block holds the first logged block; with a first word above the capacity recovery fails |
| `Bitmap.BlockBit` | crates/common/ov6_fs_types/src/lib.rs:312-335 | allocating or freeing bit n changes bit n and no other |
| `Bitmap.PutBit` | crates/kernel/ov6_kernel/src/fs/data_block.rs:42-52 | the same across all bitmap blocks |
| `Bitmap.FindFree` | crates/kernel/ov6_kernel/src/fs/data_block.rs:17-31 | the search over bitmap blocks and bits finds the first free block, or there is none |
| `Blocks.SetWordGet` | crates/common/ov6_fs_types/src/lib.rs:345-363 | storing a 32-bit number in a block reads back and changes no other |
| `InodeBlocks.SlotsExclusive` | crates/kernel/ov6_kernel/src/fs/inode/content.rs:28-97 | two slots of any inodes never refer to one block, and a referred block is allocated and not metadata |
| `InodeBlocks.Linked` | crates/kernel/ov6_kernel/src/fs/inode/content.rs:36-38 | linking a block just allocated keeps ownership exclusive and the bitmap exact |
| `InodeBlocks.Unlinked` | crates/kernel/ov6_kernel/src/fs/inode/content.rs:103-107 | unlinking and freeing a block does too, and the block freed was allocated |
| `InodeBlocks.RelinkInside` | crates/kernel/ov6_kernel/src/fs/inode/content.rs:74-77 | a store into one inode's indirect block changes one reference of that inode and none of any other |
| `InodeContent.ChunkWritten` | crates/kernel/ov6_kernel/src/fs/inode/content.rs:232-237 | a store into one block puts exactly those bytes at their offsets of the file, growing it if need be, and changes no other byte |
| `InodeContent.TextPreserved` | crates/kernel/ov6_kernel/src/fs/inode/content.rs:86-97 | finding or allocating a block changes no byte of any file |
| `Files.FileSystem.Alloc` | crates/kernel/ov6_kernel/src/fs/data_block.rs:17-39 | the first free block, marked and zeroed, never metadata and never owned; fails exactly when all are allocated |
| `Files.FileSystem.Free` | crates/kernel/ov6_kernel/src/fs/data_block.rs:42-52 | that block is free and no other changes; its assertion is proved at every call |
| `Files.FileSystem.GetDirect` | crates/kernel/ov6_kernel/src/fs/inode/content.rs:28-40 | the block of a direct slot, allocated if missing; nothing changes if present |
| `Files.FileSystem.GetIndirectBlock` | crates/kernel/ov6_kernel/src/fs/inode/content.rs:51-62 | the indirect block, allocated empty if missing |
| `Files.FileSystem.GetIndirect` | crates/kernel/ov6_kernel/src/fs/inode/content.rs:46-80 | the block of an indirect slot; on failure the indirect block may be there but every file reads as before |
| `Files.FileSystem.GetBlock` | crates/kernel/ov6_kernel/src/fs/inode/content.rs:86-97 | the block of any slot, all references in use preserved |
| `Files.FileSystem.Store` | crates/kernel/ov6_kernel/src/fs/inode/content.rs:232-237 | byte by byte, the chunk is at its offset of this file and nothing else has changed; all other files are kept |
| `Files.FileSystem.Write` | crates/kernel/ov6_kernel/src/fs/inode/content.rs:203-250 | byte by byte, the file holds the bytes written where they were written and what it held elsewhere, and no other file changes; both size errors exactly when they apply; how many bytes are written, and which slots have blocks afterwards, is exactly what the free blocks allow |
| `Files.FileSystem.WriteLoop` | crates/kernel/ov6_kernel/src/fs/inode/content.rs:217-239 | the loop ends after all bytes or at the first block it cannot get, having spliced what it wrote and taken exactly the blocks it names |
| `Files.FileSystem.Read` | crates/kernel/ov6_kernel/src/fs/inode/content.rs:150-181 | exactly the bytes asked for that exist; nothing is allocated or changed |
| `Files.FileSystem.TruncateDirect` | crates/kernel/ov6_kernel/src/fs/inode/content.rs:103-107 | the direct blocks are given back |
| `Files.FileSystem.DrainIndirect` | crates/kernel/ov6_kernel/src/fs/inode/content.rs:110-114 | the blocks named in the indirect block are given back |
| `Files.FileSystem.Truncate` | crates/kernel/ov6_kernel/src/fs/inode/content.rs:102-121 | the file is empty, exactly the inode's blocks are free again, all other files are kept |
| `Files.Perform` | crates/kernel/ov6_kernel/src/fs/inode/content.rs:102-250 | each call has exactly the answer and the effect it has on plain byte sequences that share a number of blocks |
| `Files.Play` | crates/kernel/ov6_kernel/src/fs/inode/content.rs:102-250 | so does any history of reads, writes and truncates: every answer, short writes included, and the final contents are determined |
| `DiskSpace.BytesAreLatest` | crates/kernel/ov6_kernel/src/fs/inode/content.rs:102-250 | in every history each file holds, byte by byte, what its calls and their answers last wrote there since the last truncation |
| `DiskSpace.ReadsAreLatest` | crates/kernel/ov6_kernel/src/fs/inode/content.rs:150-181 | in every history a read answers exactly those bytes, up to the end of the file |
| `DiskSpace.ReadAfterWrite` | crates/kernel/ov6_kernel/src/fs/inode/content.rs:150-250 | what a write says it wrote, the next read finds |
| `Files.SlotsCounted` | crates/kernel/ov6_kernel/src/fs/data_block.rs:17-39 | a slot has a block if and only if it refers to one, and the disk is full if and only if every data block has a slot |
| `DiskSpace.ExtentReaches` | crates/kernel/ov6_kernel/src/fs/inode/content.rs:217-239 | a write reaches byte t if and only if there are blocks for all slots up to it, the indirect block included |
| `DiskSpace.WriteCompleteIff` | crates/kernel/ov6_kernel/src/fs/inode/content.rs:203-250 | a write is complete if and only if the slots in use and those it touches are no more than the blocks there are |
| `CondVar.NoLostWakeup` | crates/kernel/ov6_kernel/src/sync/spin_lock.rs:198-226 | in every interleaving in which notifiers hold the lock, kills included, a process asleep or committed to sleep with an outdated snapshot has a notifier that has not passed it |
| `CondVar.StepOk` | crates/kernel/ov6_kernel/src/proc/ops.rs:283-356 | every step of waiters, kills and notifiers, with the lock or without, keeps the invariant on locks and states |
| `CondVar.RunOk` | crates/kernel/ov6_kernel/src/proc/ops.rs:283-377 | so does every run |
| `CondVar.StartOk` | crates/kernel/ov6_kernel/src/sync/spin_lock.rs:192-196 | all invariants hold with nobody inside |
| `CondVar.SleepersAreCurrent` | crates/kernel/ov6_kernel/src/sync/spin_lock.rs:223-226 | where notifiers hold the lock, with no notification under way every sleeper has seen all there were |
| `CondVar.ChangesAreNotified` | crates/kernel/ov6_kernel/src/sync/spin_lock.rs:198-226 | in every such interleaving with fewer than 2^64 notifications a process bound to sleep that has not seen the last change made under the lock has somebody who still has to notify it, or is notifying and has not passed it |
| `CondVar.CoveredIff` | crates/kernel/ov6_kernel/src/net/udp.rs:53-58 | with notifiers that give the lock up first, a step takes that somebody away if and only if nobody else owes a notification and the step is the last notifier passing the process before it sleeps, or its look at a counter that has come round |
| `CondVar.CoveredRun` | crates/kernel/ov6_kernel/src/net/udp.rs:53-58 | so a run without such a step never leaves a process to sleep through a change |
| `CondVar.LateNotifyLoses` | crates/kernel/ov6_kernel/src/net/udp.rs:53-58 | from any idle start, a legal run of one process and two late notifiers after which the process sleeps, has not seen the last change, and nobody will notify it |
| `CondVar.NotifierNotStuck` | crates/kernel/ov6_kernel/src/proc/ops.rs:325-338 | whoever keeps a notifier waiting can move on without any lock and lets go within three steps |
| `CondVar.ScanWakes` | crates/kernel/ov6_kernel/src/proc/ops.rs:328-337 | a process the scan has just passed is not asleep |
| `CondVar.WaitReturnsForCause` | crates/kernel/ov6_kernel/src/sync/spin_lock.rs:198-226 | in every interleaving from a call of wait, either a notification has begun, or the caller was killed, or it is still waiting |
| `CondVar.SleepParks` | crates/kernel/ov6_kernel/src/proc/ops.rs:283-310 | going to sleep without interference: asleep, the lock free, nothing else changed |
| `CondVar.WokenLooks` | crates/kernel/ov6_kernel/src/sync/spin_lock.rs:203-208 | woken, the process is back with the lock, and returns if and only if the counter has moved or it was killed and does not insist |
| `CondVar.KilledRefuses` | crates/kernel/ov6_kernel/src/proc/ops.rs:295-298 | a killed process does not go to sleep |
| `CondVar.KillWakes` | crates/kernel/ov6_kernel/src/proc/ops.rs:362-377 | a kill marks the process and wakes it; no other process changes |
| `CondVar.NotifyWakesAll` | crates/kernel/ov6_kernel/src/sync/spin_lock.rs:223-226 | a notification, with the lock or without, that no process lock holds up counts once and leaves nobody asleep |
| `CondVar.OperationsTell` | crates/kernel/ov6_kernel/src/sync/spin_lock.rs:198-226 | in every run the lock is with the last to take it, the counter has moved once per notification and those killed are those a kill was for |
| `Processes.RunOk` | crates/kernel/ov6_kernel/src/proc/ops.rs:79-249 | every run of forks, exits, waits, notifications and kills keeps the invariant on table, threads and history; no recorded status or answer is ever lost or changed and pids only grow |
| `Processes.ParentsAreAlive` | crates/kernel/ov6_kernel/src/proc/ops.rs:132-192 | in every run a parent is neither unused nor zombie and has the smaller pid |
| `Processes.EveryoneDescendsFromInit` | crates/kernel/ov6_kernel/src/proc/ops.rs:132-139 | following parents from any started process ends at init |
| `Processes.StatusReturnedOnce` | crates/kernel/ov6_kernel/src/proc/ops.rs:225-230 | in every run each exit status is the code that very process passed to exit, once, and was returned by exactly one wait, unchanged, or is still with its zombie, never both |
| `Processes.StatusIsExitCode` | crates/kernel/ov6_kernel/src/proc/ops.rs:146-230 | in every run a process exits at most once, and what is recorded for it and what wait answers for it are the code in the list of operations |
| `Processes.ParentsAreForkers` | crates/kernel/ov6_kernel/src/proc/ops.rs:79-139 | in every run the parent of a process is the one that forked it in the list of operations; only after that one has called exit it may be init, and is when the exit is complete |
| `Processes.NoSleepWithZombie` | crates/kernel/ov6_kernel/src/proc/ops.rs:132-249 | in every run, with notifications scanning the table process by process, a process asleep in wait or past giving up the wait lock that has a child to reap is init, and the holder of the wait lock is notifying it and has not passed it |
| `Processes.BootOk` | crates/kernel/ov6_kernel/src/proc/ops.rs:20-34 | the invariant holds with init alone |
| `Processes.StepKin` | crates/kernel/ov6_kernel/src/proc/ops.rs:132-184 | each step keeps children of an exiting process ahead of its scan and a sleeper with a child to reap about to be notified |
| `Processes.NotifierNotStuck` | crates/kernel/ov6_kernel/src/proc/ops.rs:325-338 | whoever keeps a notifier waiting holds only its own process lock and can go to sleep |
| `Processes.KillWakes` | crates/kernel/ov6_kernel/src/proc/ops.rs:362-377 | a kill marks the process and wakes it from wait, which it can then leave; nothing else changes |
| `Processes.ExitLeavesNoOrphan` | crates/kernel/ov6_kernel/src/proc/ops.rs:158-184 | a process that becomes a zombie has no children left and a parent that is awake |
| `Processes.ExitAdvances` | crates/kernel/ov6_kernel/src/proc/ops.rs:146-192 | every step of a process in exit brings it nearer to the end, where it is a zombie with the status it was given and the wait lock is free |
| `Processes.ExitNotStuck` | crates/kernel/ov6_kernel/src/proc/ops.rs:146-192 | and there is such a step unless a process on its way to sleep has to take one first |
| `Processes.PidIsFresh` | crates/kernel/ov6_kernel/src/proc/mod.rs:441-518 | a new process gets a pid no process has or ever ended with |
| `Processes.ForkMakesChild` | crates/kernel/ov6_kernel/src/proc/ops.rs:79-127 | a fork without interference makes one running child of the caller with a fresh pid and changes nothing else; given up halfway it leaves nothing |
| `Processes.WaitScanOk` | crates/kernel/ov6_kernel/src/proc/ops.rs:197-249 | reaping, sleeping or failing keeps the invariant and the record of statuses |
| `Processes.WaitAnswers` | crates/kernel/ov6_kernel/src/proc/ops.rs:197-249 | a pass of wait reaps the first zombie among the children asked for, answers its pid and status and frees its slot; without one it sleeps if there is such a child and it is not killed, and fails otherwise; nothing else changes |
| `Processes.ScanChildren` | crates/kernel/ov6_kernel/src/proc/ops.rs:200-236 | the scan finds the first zombie asked for, or says whether there is a child to wait for |
| `Processes.FindUnused` | crates/kernel/ov6_kernel/src/proc/mod.rs:451-462 | the first slot that was unused when the scan had its lock, or none was, each slot as it was at that moment |
| `Virtio.RunOk` | crates/kernel/ov6_kernel/src/fs/virtio_disk.rs:290-412 | with a device that reports success, every interleaving of driver and device, through any number of index wraps, fails no assertion |
| `Virtio.RunKeeps` | crates/kernel/ov6_kernel/src/fs/virtio_disk.rs:290-412 | whatever the device reports, a run that gets to its end has kept the invariant and the descriptors |
| `Virtio.RunPanicsIff` | crates/kernel/ov6_kernel/src/fs/virtio_disk.rs:384-412 | a run fails if and only if somewhere the driver handles a request for which the device reported an error |
| `Virtio.InterruptPanicsIff` | crates/kernel/ov6_kernel/src/fs/virtio_disk.rs:401-412 | the status assertion fails if and only if the device reported an error for that very request |
| `Virtio.ErrorStatusPanics` | crates/kernel/ov6_kernel/src/fs/virtio_disk.rs:401-412 | from any start, one request and any nonzero status: the run that fails |
| `Virtio.DescriptorsConserved` | crates/kernel/ov6_kernel/src/fs/virtio_disk.rs:236-288 | free descriptors plus three per request in flight are always NUM |
| `Virtio.RingPush` | crates/kernel/ov6_kernel/src/fs/virtio_disk.rs:330-334 | adding a ring entry overwrites none that is pending |
| `Virtio.FewInFlight` | crates/kernel/ov6_kernel/src/fs/virtio_disk.rs:349-365 | never more than two requests are in flight |
| `Virtio.IndexGap` | crates/kernel/ov6_kernel/src/fs/virtio_disk.rs:401-401 | 16-bit indices are equal exactly when nothing is pending |
| `Virtio.SubmitOk` | crates/kernel/ov6_kernel/src/fs/virtio_disk.rs:290-337 | a new chain shares no descriptor with any in flight |
| `Virtio.SubmitPosts` | crates/kernel/ov6_kernel/src/fs/virtio_disk.rs:290-337 | the descriptors are linked and taken, and the new request stands behind those posted before |
| `Virtio.InterruptFinishes` | crates/kernel/ov6_kernel/src/fs/virtio_disk.rs:384-412 | with status 0 the oldest used request is no longer in progress and can return, the index is one further modulo 2^16, the queue has lost its first entry, and every other request is as before |
| `Virtio.InterruptsDrain` | crates/kernel/ov6_kernel/src/fs/virtio_disk.rs:384-412 | from any reachable state with n requests served and pending, n interrupts leave none pending and each of them can return |
| `Virtio.ReturnFrees` | crates/kernel/ov6_kernel/src/fs/virtio_disk.rs:366-373 | the request is gone and its three descriptors are free; no other request or descriptor changes |
| `Virtio.ReturnsAfterCompletion` | crates/kernel/ov6_kernel/src/fs/virtio_disk.rs:365-373 | a request returns only after the device has served that very request with success |
| `Virtio.OperationsTell` | crates/kernel/ov6_kernel/src/fs/virtio_disk.rs:290-412 | in every run each index has moved by the number of its steps, queues and requests in flight are the differences, and the status known of a request is the one the device reported for it |
| `Virtio.ServedOnce` | crates/kernel/ov6_kernel/src/fs/virtio_disk.rs:384-412 | each request is served once |
| `Virtio.DeviceTakesOldest` | crates/kernel/ov6_kernel/src/fs/virtio_disk.rs:329-334 | the device finds the oldest request posted and not yet taken |
| `Virtio.TakenInOrder` | crates/kernel/ov6_kernel/src/fs/virtio_disk.rs:329-334 | in every run the device takes the requests in the order of their submission |
| `Virtio.StartOk` | crates/kernel/ov6_kernel/src/fs/virtio_disk.rs:125-151 | the invariant holds after start-up |
| `Virtio.Descriptors.AllocDesc` | crates/kernel/ov6_kernel/src/fs/virtio_disk.rs:236-242 | takes the first free descriptor |
| `Virtio.Descriptors.Alloc3` | crates/kernel/ov6_kernel/src/fs/virtio_disk.rs:275-288 | three distinct free descriptors, or none taken and fewer than three free |
| `Virtio.Descriptors.FreeChain` | crates/kernel/ov6_kernel/src/fs/virtio_disk.rs:259-270 | frees exactly the three of the chain |
| `Path.Components.constructor` | crates/common/ov6_types/src/path/mod.rs:301-310 | the cursor stands for the component list of the path |
| `Path.Components.TrimLeadingSlashes` | crates/common/ov6_types/src/path/mod.rs:312-322 | trims without changing the list |
| `Path.Components.TrimTrailingSlashes` | crates/common/ov6_types/src/path/mod.rs:324-332 | trims without changing the list, never the root |
| `Path.Components.Next` | crates/common/ov6_types/src/path/mod.rs:338-361 | takes the first element of the list |
| `Path.Components.NextBack` | crates/common/ov6_types/src/path/mod.rs:365-393 | takes the last element of the list |
| `Path.Components.AsPath` | crates/common/ov6_types/src/path/mod.rs:297-299 | the text left parses to exactly the components left |
| `Path.NamesJoin` | crates/common/ov6_types/src/path/mod.rs:347-351 | a slash anywhere cuts the list of names in two |
| `Path.ReadBack` | crates/common/ov6_types/src/path/mod.rs:338-361 | any list of names without slashes, absolute or not, is read back name by name: .. as the parent, . as the directory itself, anything else as it is |
| `Path.TakeEnds` | crates/common/ov6_types/src/path/mod.rs:334-393 | any mix of both calls takes the two ends off one list and the rest parses to its middle |
| `Path.IterAfter` | crates/common/ov6_types/src/path/mod.rs:451-465 | succeeds if and only if one list is a prefix of the other, leaving the remainder |
| `Path.StartsWith` | crates/common/ov6_types/src/path/mod.rs:88-94 | is the prefix test on lists |
| `Path.StripPrefix` | crates/common/ov6_types/src/path/mod.rs:78-86 | is prefix removal on lists |
| `Path.SplitPath` | crates/kernel/ov6_kernel/src/fs/ops.rs:15-23 | none exactly for the empty path and the root; otherwise the last component and a directory that together parse to the path again |
| `Path.RootOnlyFirst` | crates/common/ov6_types/src/path/mod.rs:338-361 | the root comes first or not at all, and every other component reads back from its text |

## Left out

- Allocation failure in `CopyOnWriteRefinesEagerCopy`: its runs have a frame whenever one is needed; what happens without one is in the lemmas and methods of the first three rows of the table above. `Superpages` assumes frames for table pages.
- CopyOnWrite.MapFixedStep: covers what the kernel maps into user tables, a frame of its image without W; `FixedKeepsCountsIff` says why no more can be promised.
- Page tables in `VirtualMemory` are a map from table positions and page numbers; the trees of `PageTree` and `Superpages` are values rebuilt along a path, so update in place and aliasing of table pages are not captured there.
- Atomicity inside `request_user_write` and between CPUs sharing one table: each operation is one step.
- User memory growth past the end of the address space, and `PageManager::new` layout arithmetic.
- BlockCache.EndDropStep: the last release of a block is covered for clients that have locked it and written back what they changed; `RecycleSafeIff` covers the others.
- BlockCache.StepSimulates: assumes a device that does not fail.
- Log.RunOk: the budget per transaction is a hypothesis, not derived from the file-system calls.
- Log.StepOk: of the cache buffers only those of the logged blocks, and at recovery that of the header, are counted; running and read-only transactions hold others, which can make a lookup fail earlier.
- Log.LogHeader.RecoverFromLog: assumes that the device keeps each block it was given whole, in the order of the writes.
- Inodes are those in memory: writing them back, link counts, directories and `InodeFile::write` are not modelled.
- Files.FileSystem.Read: the copy to the destination is taken to succeed.
- Processes.NoSleepWithZombie: one pass of `wait` over the table under the wait lock is one step.
- Scheduling fairness: nothing is said about when a runnable process runs.
- CondVar.NoLostWakeup: holds where every notifier keeps the lock; `CoveredIff` covers those that do not. "Outdated" compares the 64-bit counter; exactly 2^64 notifications between two looks go unnoticed, as in the code.
- Memory ordering: sequential consistency throughout.
- `ends_with`, file stems and extensions of paths: they would only add easy members.
- IPv4, system calls, utilities, trap handling, assembly, device registers and the other drivers.
