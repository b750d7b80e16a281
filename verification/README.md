# xv6: storage, memory, processes and shell

A model of the parts of this xv6 kernel and its user programs where several functions have to agree: the write-ahead log
over the buffer cache, the buddy and slab allocators, Sv39 page tables, the file system's block map, directories and
paths, sleep and wakeup with the protocols built on them, the virtio disk driver, and the user-level heap, shell parser
and matcher. Code that works in place is modelled by classes and loops over maps, sequences and arrays, addresses by
integers, and each is proved against a specification; the protocols are step machines, and their results hold for every
interleaving.

| files | what they model |
|---|---|
| `Bio`, `LogDisk`, `LogPhases`, `LogState`, `Log` | `bio.c` and `log.c`: the cache, what block writes leave on the disk, the steps of all processes, the class |
| `LogShare`, `LogSleep`, `FsLog` | What the log promises its users: room, a reason for every wait, a sound file system after crashes |
| `Bits`, `Chunks`, `Buddy` | `buddy.c`: aligned chunks, linked free lists, whole runs |
| `Sums`, `SlabState`, `SlabInv`, `Slab` | `slab.c` on top of it: linked slab lists, the invariant, the operations |
| `PageTable`, `Ways`, `FreeWalk`, `Vm`, `UserCopy` | `vm.c` and `kalloc.c`: the tree, the tables that pages need, giving it back, the operations and fork, user memory |
| `Volume`, `Space`, `Fs`, `Path`, `Directory` | `fs.c` and the loop of `filewrite` in `file.c` |
| `SleepWakeup`, `SleepLock`, `ExitWait` | `proc.c` and `sleeplock.c` |
| `VirtioRing`, `Virtio` | `virtio_disk.c`, with the device as section 2.6 of Virtio 1.1 has it |
| `Umalloc`, `ShellSyntax`, `ShellShape`, `ShellPrint`, `Shell`, `Grep` | `umalloc.c`, `sh.c`, `grep.c` |
| `Common` | notions that several modules share |

Integers are unbounded; where the width matters it is written out: the 16-bit ring indices, `uint` file offsets, 32-bit
sizes passed to `sbrk`, the `ushort` in a directory entry, and little-endian entries of indirect blocks. Answers from
outside (`sbrk`, memory for a buffer, how much of a user's buffer can be copied) are parameters. A user's buffer is given
by how many bytes of it can be used before the first page that cannot.

## Model

| member | source | states |
|---|---|---|
| LogDisk.CrashAtomicity | xv6-riscv-riscv/kernel/log.c:66-204 | For every run of commits, crashes after any number of a commit's block writes, and crashes after any number of recovery's: what recovery then finds at home is the starting disk with exactly the transactions applied whose header block was written, each of them whole and in order |
| LogDisk.RecoveryRestarts | xv6-riscv-riscv/kernel/log.c:66-124 | Recovery started again from any point inside an earlier recovery ends in the same disk |
| LogDisk.CrashBeforeHeader | xv6-riscv-riscv/kernel/log.c:179-204 | A crash before the header write of a commit recovers to the old home blocks |
| LogDisk.CrashAfterHeader | xv6-riscv-riscv/kernel/log.c:194-204 | A crash after the header write, anywhere in the installation or after clearing, recovers to all blocks of the transaction |
| LogPhases.LogStepOk | xv6-riscv-riscv/kernel/log.c:179-191 | Copying one block to the log, beside readers and waiting operations, keeps the commit's invariant: home blocks on disk and in the cache are fixed |
| LogPhases.InstallStepOk | xv6-riscv-riscv/kernel/log.c:66-84 | Copying one block home and unpinning it keeps the invariant of an installation that may be cut off anywhere |
| LogPhases.CommitOutcome | xv6-riscv-riscv/kernel/log.c:194-204 | The sequence of disks that a whole commit writes is the one whose every member recovers to the state before or after it |
| LogPhases.CommitTraceAt | xv6-riscv-riscv/kernel/log.c:194-204 | The disks that the commit's steps write are one by one those after which the runs with crashes are cut off, so both ways to look at a commit speak of the same disks |
| LogState.StepKeeps | xv6-riscv-riscv/kernel/log.c:127-236 | Every step of every process (admission, read, change, record, release, leave, and each block write of the committer) keeps the invariant of the whole log, in every interleaving |
| LogState.RunSafe | xv6-riscv-riscv/kernel/log.c:127-236 | In every interleaved run the committed states only grow, and each disk ever written since boot recovers to one of them, in order |
| LogState.CrashNow | xv6-riscv-riscv/kernel/log.c:117-124 | A crash at any moment recovers to exactly the last committed state |
| LogState.CommitsSurvive | xv6-riscv-riscv/kernel/log.c:53-204 | Over any number of lives, each an interleaved run ended by a crash and followed by recoveries that may crash themselves: each life begins with the whole of the last commit before it and nothing else |
| LogState.OnlyChanges | xv6-riscv-riscv/kernel/log.c:194-204 | What readers see of a home block changes only when an operation changes it; the steps of a commit change nothing |
| LogState.Room | xv6-riscv-riscv/kernel/log.c:127-176 | The blocks in the log and the shares of all operations in progress fit into it, so an operation that has used less than its share finds room |
| LogState.InRange | xv6-riscv-riscv/kernel/log.c:147-176 | A commit is under way only when no operation is, and the list in memory never overflows |
| LogShare.ShareLeft | xv6-riscv-riscv/kernel/log.c:127-236 | In every interleaving an operation's share falls only by the blocks that it logs itself and that were not listed before |
| LogShare.Fits | xv6-riscv-riscv/kernel/log.c:215-236 | In every interleaving an operation that has logged fewer than MAXOPBLOCKS different blocks can log any block, and log_write does not panic |
| LogShare.FullLog | xv6-riscv-riscv/kernel/log.c:215-236 | From any boot of a disk with 30 blocks behind the log, three operations of ten blocks each fill the log by the rules; then the third has its own block locked and listed, and logging it again panics |
| LogShare.StaysConsistent | xv6-riscv-riscv/kernel/log.c:53-204 | Any property of the home blocks that holds whenever no operation is in progress holds at the beginning of every life, wherever the crashes came |
| FsLog.VolumeSurvives | xv6-riscv-riscv/kernel/log.c:53-204 | In particular, if operations taken as a whole keep the file system sound (every block in use has one owner, and the bitmap agrees), it is sound after every crash |
| Log.WriteAheadLog.constructor | xv6-riscv-riscv/kernel/log.c:53-63 | initlog leaves a clear log and the recovered disk, and the disks it writes on the way are those of a recovery |
| Log.WriteAheadLog.RecoverFromLog | xv6-riscv-riscv/kernel/log.c:117-124 | The loop over the header's list computes the recovered disk and clears the log |
| Log.WriteAheadLog.BeginOp | xv6-riscv-riscv/kernel/log.c:127-143 | One pass of the loop admits the operation exactly if no commit is under way and its full share still fits, and otherwise changes nothing |
| Log.WriteAheadLog.Read | xv6-riscv-riscv/kernel/bio.c:125-136 | bread by anybody at any time returns the last value written; during a commit, the value the block had when it began |
| Log.WriteAheadLog.LogWrite | xv6-riscv-riscv/kernel/log.c:215-236 | Records and pins the block unless recorded; panics exactly if the log is full, which cannot happen to an operation with blocks left of its share |
| Log.WriteAheadLog.Commit | xv6-riscv-riscv/kernel/log.c:194-204 | The group goes home as one: cache and disk agree on the home blocks afterwards, the committed states gain exactly the cache's contents at the start, and readers' buffers stay locked |
| Log.WriteAheadLog.EndOp | xv6-riscv-riscv/kernel/log.c:147-176 | The last operation of a group commits it, earlier ones change nothing on the disk, and the panic for an operation during a commit is unreachable |
| Bio.BufferCache.Bget | xv6-riscv-riscv/kernel/bio.c:72-122 | A cached block keeps its one buffer, with one user more; otherwise the last unused buffer of the list is taken, or a new one put in front if all are in use; no other buffer changes, and neither does what any block shows; without memory it panics exactly if a new one is needed |
| Bio.BufferCache.Bread | xv6-riscv-riscv/kernel/bio.c:125-136 | The locked buffer holds the last value written to the block, and other holders keep theirs |
| Bio.BufferCache.Bwrite | xv6-riscv-riscv/kernel/bio.c:139-145 | The disk gets the buffer's contents, and what blocks show stays |
| Bio.BufferCache.Brelse | xv6-riscv-riscv/kernel/bio.c:149-184 | With users or a pin left, list and other buffers stay. After the last, the buffer is in front, the others follow in their old order, and from the far end unused ones are gone, exactly as long as more than NBUF are left and none in use is met; nothing any block shows is lost |
| Bio.TrimmedOnce | xv6-riscv-riscv/kernel/bio.c:168-180 | Which buffers are gone is determined by that |
| Bio.RecentStays | xv6-riscv-riscv/kernel/bio.c:94-105 | A buffer that was just released is not recycled while another is unused |
| Bio.BufferCache.Shrink | xv6-riscv-riscv/kernel/bio.c:168-180 | Frees only unused buffers from the far end, and stops only at the baseline, at the released buffer or at one in use |
| Bio.BufferCache.Bpin | xv6-riscv-riscv/kernel/bio.c:186-191 | The count stays users plus one for the pin |
| Bio.BufferCache.Bunpin | xv6-riscv-riscv/kernel/bio.c:193-198 | The count stays users plus one for the pin |
| Bio.OneBuffer | xv6-riscv-riscv/kernel/bio.c:79-87 | No block is in two buffers |
| Chunks.GoodIsCanonical | xv6-riscv-riscv/kernel/buddy.c:54-101 | Free chunks without overlap and without two free buddies are the unique maximal aligned decomposition of the free blocks |
| Chunks.RunInChunk | xv6-riscv-riscv/kernel/buddy.c:136-172 | Any wholly free aligned run lies inside one free chunk |
| Buddy.BuddyAndParent | xv6-riscv-riscv/kernel/buddy.c:54-68 | The xor and the mask compute the buddy and the parent of an aligned chunk |
| Buddy.Log2Ceil | xv6-riscv-riscv/kernel/buddy.c:33-42 | The loop computes the least order whose power of two is large enough |
| Buddy.Log2CeilStops | xv6-riscv-riscv/kernel/buddy.c:33-42 | The doubling of a 32-bit int ever reaches the argument if and only if that is at most 2^30 |
| Buddy.InitLayout | xv6-riscv-riscv/kernel/buddy.c:103-134 | The placement loop of buddy_init, for any block count, places the chunks of the recursive layout |
| Buddy.LayoutInsideIffPow2 | xv6-riscv-riscv/kernel/buddy.c:119-133 | The chunks that buddy_init places stay inside the region if and only if the block count is a power of two |
| Buddy.ThreeBlocks | xv6-riscv-riscv/kernel/buddy.c:119-133 | For three blocks the second chunk is put at block 16 |
| Buddy.BuddyAllocator.PlaceChunks | xv6-riscv-riscv/kernel/buddy.c:103-134 | On a power of two the one initial chunk is the whole region |
| Buddy.BuddyAllocator.RemoveFromList | xv6-riscv-riscv/kernel/buddy.c:70-85 | The linked list loses exactly that block |
| Buddy.BuddyAllocator.IsBlockFree | xv6-riscv-riscv/kernel/buddy.c:93-101 | True exactly if the block is on that list |
| Buddy.BuddyAllocator.Alloc | xv6-riscv-riscv/kernel/buddy.c:136-172 | Null exactly when no aligned run of the rounded size is wholly free; otherwise such a run, taken out of one of the smallest chunks that are large enough, leaves the free blocks and nothing else does; the free chunks stay canonical and the counter right |
| Buddy.BuddyAllocator.Release | xv6-riscv-riscv/kernel/buddy.c:174-195 | Whatever is merged, exactly the given run joins the free blocks, and the free chunks stay canonical |
| Buddy.RunsAgree | xv6-riscv-riscv/kernel/buddy.c:136-195 | Two runs of allocations and matching frees that leave the same chunks live end in the same free chunks |
| Buddy.FreeAllRestores | xv6-riscv-riscv/kernel/buddy.c:174-195 | After a run the free chunks are the single initial chunk if and only if nothing is live |
| Buddy.BuddyAllocator.Reached | xv6-riscv-riscv/kernel/buddy.c:136-195 | In every reachable allocator whose frees match, the free chunks cover exactly what the live chunks leave, and the counter says how much |
| Buddy.AllocatorsAgree | xv6-riscv-riscv/kernel/buddy.c:136-195 | Two allocators with the same live chunks have the same free chunks and counter, whatever was asked of them before |
| Buddy.RunLeft | xv6-riscv-riscv/kernel/buddy.c:146-166 | After one block is taken, an aligned run of a given size is left if and only if there was one and one block more |
| SlabInv.LiveObjectsDisjoint | xv6-riscv-riscv/kernel/slab.c:89-117 | Two live objects of any caches do not overlap, headers included |
| SlabInv.LiveInside | xv6-riscv-riscv/kernel/slab.c:89-117 | A live object lies inside its slab, behind the slab's header, and its own header names that slab |
| SlabInv.LiveObjectsMissRecords | xv6-riscv-riscv/kernel/slab.c:89-211 | No byte of a live object is in a free block, in a cache's record or in any slab's header |
| SlabInv.Conservation | xv6-riscv-riscv/kernel/slab.c:119-376 | free_blocks plus the sum over caches of 1 + num_slabs * slab_size equals total_blocks, whenever the invariant holds |
| Slab.KmemAllocator.BlocksConserved | xv6-riscv-riscv/kernel/slab.c:119-376 | The same for the counters in memory, between any two operations |
| SlabState.HoldsAnObject | xv6-riscv-riscv/kernel/slab.c:49-63 | A slab of the computed size holds an object if and only if the object has at most 65472 bytes |
| Slab.CalculateSlabSize | xv6-riscv-riscv/kernel/slab.c:49-63 | The least power of two of blocks up to 16 that holds eight objects, or 16 |
| Slab.RoundUpPow2 | xv6-riscv-riscv/kernel/slab.c:31-37 | The least size class that is large enough |
| Slab.AddSlabToList | xv6-riscv-riscv/kernel/slab.c:65-73 | The doubly linked list gains the slab in front, all links intact |
| Slab.RemoveSlabFromList | xv6-riscv-riscv/kernel/slab.c:75-87 | The doubly linked list loses exactly the slab, wherever it is, all links intact |
| Slab.KmemAllocator.Grow | xv6-riscv-riscv/kernel/slab.c:135-146 | Adds an empty slab exactly if the buddy allocator has a run for it, and otherwise sets the error flag; no object changes |
| Slab.KmemAllocator.CacheCreate | xv6-riscv-riscv/kernel/slab.c:161-211 | A new cache exactly if the size is accepted and a block is free for its record; it can serve at once exactly if there was also a run for its first slab |
| Slab.KmemAllocator.CacheAlloc | xv6-riscv-riscv/kernel/slab.c:213-263 | Fails exactly if the cache has no free object and cannot add a slab that holds one; otherwise exactly one more object is live: the first free one of the first partial slab, without one of the first empty slab, and only without either one of a new slab; every slab stays on the list its counters call for |
| Slab.KmemAllocator.CacheFree | xv6-riscv-riscv/kernel/slab.c:265-297 | Exactly that object is no longer live, and it is the first to be handed out again from its slab; lists and counters follow |
| Slab.KmemAllocator.CacheShrink | xv6-riscv-riscv/kernel/slab.c:299-332 | Frees exactly the empty slabs, and only if the cache has not grown since the last shrink; no object changes |
| Slab.KmemAllocator.CacheDestroy | xv6-riscv-riscv/kernel/slab.c:334-376 | The cache and all its slabs are gone, and every other cache keeps its slabs and objects |
| Slab.KmemAllocator.Kmalloc | xv6-riscv-riscv/kernel/slab.c:378-424 | Between 1 and 32768 bytes it serves exactly if the size class could before the call: its cache can, or it has none and there are an aligned run for a slab and one block more; outside that range it never serves |
| Slab.KmemAllocator.Kfree | xv6-riscv-riscv/kernel/slab.c:426-440 | Finds the cache through the object's slab and takes exactly that object back |
| PageTable.PxParts | xv6-riscv-riscv/kernel/riscv.h:370-374 | A page number is its three indices of nine bits, level 2 highest |
| PageTable.PxInjective | xv6-riscv-riscv/kernel/vm.c:97-115 | The three indices determine the page |
| PageTable.LinkedLookup | xv6-riscv-riscv/kernel/vm.c:97-115 | A table added inside walk changes no lookup of any page table |
| PageTable.WrittenLookup | xv6-riscv-riscv/kernel/vm.c:145-212 | Writing one level-0 entry changes the lookup of that page of that table and of no other |
| FreeWalk.EmptyMap | xv6-riscv-riscv/kernel/vm.c:262-279 | A page table that maps nothing has no leaf anywhere below its root |
| FreeWalk.NoLeavesBelow | xv6-riscv-riscv/kernel/vm.c:266-277 | In the middle of freewalk's loop every valid entry still leads to a table of the next level without leaves, so the panic is not reached |
| Ways.LinkedOneMore | xv6-riscv-riscv/kernel/vm.c:97-115 | A table added on the way to a page is on the way to exactly the pages with the same indices above it, and no other way changes |
| Ways.TablesMore | xv6-riscv-riscv/kernel/vm.c:145-174 | The tables that a set of pages needs are those that its pages still lack, one page after the other |
| Vm.VirtualMemory.Walk | xv6-riscv-riscv/kernel/vm.c:97-115 | Finds the table with the page's entry, or fails exactly as the flat map says; growing the tree changes no lookup of any table. With alloc it fails exactly if there are fewer free frames than tables lacking on the way, and otherwise takes exactly those |
| Vm.VirtualMemory.MapPages | xv6-riscv-riscv/kernel/vm.c:145-174 | Adds exactly its range to the flat map, held or borrowed; succeeds exactly if the free frames suffice for the tables that the range lacks, and otherwise has added exactly the pages whose tables they sufficed for |
| Vm.VirtualMemory.Uvmunmap | xv6-riscv-riscv/kernel/vm.c:192-212 | Removes exactly its range from the flat map; every frame is freed, handed to the caller or borrowed |
| Vm.VirtualMemory.Uvmalloc | xv6-riscv-riscv/kernel/vm.c:216-241 | Grows by zeroed pages with the given flags, exactly if the free frames suffice for the pages and the tables they lack; otherwise leaves the flat map and all pages as they were |
| Vm.VirtualMemory.Uvmdealloc | xv6-riscv-riscv/kernel/vm.c:246-258 | Removes and frees exactly the pages between the two sizes |
| Vm.VirtualMemory.Uvmcopy | xv6-riscv-riscv/kernel/vm.c:296-324 | Succeeds exactly if the free frames suffice for the mapped pages of the parent and the tables that the child lacks for them, and then takes exactly those: the child gets every page with equal contents and flags on frames of its own. Otherwise its flat map is as before and no page is lost |
| Vm.VirtualMemory.Freewalk | xv6-riscv-riscv/kernel/vm.c:262-279 | Frees every table below and itself once, and no other; the panic for a leaf is unreachable |
| Vm.VirtualMemory.Uvmfree | xv6-riscv-riscv/kernel/vm.c:282-288 | Every page and table of the tree goes back to the free list exactly once, other tables untouched, without a panic |
| Vm.VirtualMemory.ProcPagetable | xv6-riscv-riscv/kernel/proc.c:184-214 | With three free frames or more, a table with the shared trampoline and the trapframe, and exactly three frames taken; with fewer, nothing and all memory back. The trapframe lies behind the trampoline's tables, so its mapping cannot fail |
| Vm.VirtualMemory.ProcFreepagetable | xv6-riscv-riscv/kernel/proc.c:218-224 | Unmaps the borrowed pages and frees the rest, without a panic |
| Vm.VirtualMemory.Kfork | xv6-riscv-riscv/kernel/proc.c:267-299 | Succeeds exactly if the free frames suffice for four frames, the parent's mapped pages and the tables for them beside the top one, a number that depends on the parent's page numbers alone: an equal copy on frames of its own, the trampoline shared and executable, the new trapframe writable. Otherwise all memory is as before |
| Vm.VirtualMemory.Kalloc | xv6-riscv-riscv/kernel/kalloc.c:70-84 | Takes the first free frame; no frame is free and in use, or in two hands |
| Vm.VirtualMemory.PageKfree | xv6-riscv-riscv/kernel/kalloc.c:48-65 | The frame is free again, and only once |
| UserCopy.Copyin | xv6-riscv-riscv/kernel/vm.c:380-403 | Returns the bytes of user memory, across pages, up to the first that is not the user's, and succeeds exactly if there are enough |
| UserCopy.Copyout | xv6-riscv-riscv/kernel/vm.c:342-375 | Writes user memory, across pages, up to the first byte that may not be written, and succeeds exactly if that is everything; no other byte of any table changes |
| UserCopy.ReadBack | xv6-riscv-riscv/kernel/vm.c:342-403 | What copyout wrote, copyin reads |
| UserCopy.ForkedBytes | xv6-riscv-riscv/kernel/vm.c:296-375 | After a fork the child reads the parent's bytes, and a copyout to the parent does not show in the child |
| Volume.OneOwner | xv6-riscv-riscv/kernel/fs.c:412-451 | No block is in two slots of inodes or indirect blocks |
| Volume.BitIffOwned | xv6-riscv-riscv/kernel/fs.c:69-109 | A data block's bit is set if and only if some slot holds it |
| Fs.FileSystem.Balloc | xv6-riscv-riscv/kernel/fs.c:69-92 | The first free block, marked and zeroed; 0 exactly if there is none |
| Fs.FileSystem.Bfree | xv6-riscv-riscv/kernel/fs.c:95-109 | Clears the bit; its panic is unreachable from the callers below |
| Fs.FileSystem.Bmap | xv6-riscv-riscv/kernel/fs.c:412-451 | The entry of the inode, or behind the twelve direct ones of the indirect block, for a file's block number, allocated if need be, and 0 only on a full disk; the contents of all files stay, a mapped block changes nothing, and at most one bitmap block for it and one for a new indirect block join the transaction |
| Fs.FileSystem.Itrunc | xv6-riscv-riscv/kernel/fs.c:455-483 | The file is empty, its blocks and only those are free, no other file changes |
| Fs.FileSystem.Readi | xv6-riscv-riscv/kernel/fs.c:501-526 | Returns exactly that slice of the file, across direct and indirect blocks, without allocating; -1 exactly if the user's memory takes fewer bytes than asked for, which are copied all the same |
| Fs.FileSystem.Writei | xv6-riscv-riscv/kernel/fs.c:535-569 | -1 exactly for an offset past the end or past the largest file. Otherwise, of the old state: it stops exactly where the disk has no room for the next block, at the first byte that cannot be read, or at the end; the bytes before that are replaced and nothing else; the rounds complete by then are counted. Exactly one block is changed and not logged if the copy broke off inside a block that was mapped and not logged before, and none otherwise. At most MAXOPBLOCKS blocks for three blocks' worth |
| Volume.WroteFile | xv6-riscv-riscv/kernel/fs.c:535-569 | On the file as one sequence: the old bytes, the new ones, and the old ones behind them |
| Fs.Bill | xv6-riscv-riscv/kernel/file.c:153-177 | Four data blocks, four bitmap blocks and the indirect block at most: the fourth round needs a first block that is mapped already |
| Space.Uncounted | xv6-riscv-riscv/kernel/fs.c:546-558 | Bytes are written and not counted if and only if the first unreadable byte comes before the end of the room, and is neither the first of all nor the first of a block |
| Space.EndsFull | xv6-riscv-riscv/kernel/fs.c:546-549 | A round that finds no block ends the write exactly at the room that the old state had: the free blocks left were fewer than the unmapped ones, with the indirect block, up to there |
| Space.EndsBroken | xv6-riscv-riscv/kernel/fs.c:550-555 | A round whose copy breaks off leaves its block changed and unlogged exactly if a byte was copied and the block was mapped and unlogged before the write |
| Space.SpaceNext | xv6-riscv-riscv/kernel/file.c:153-177 | The room for a whole write is the room found by its first chunks, one after the other |
| Fs.SmallVolume | xv6-riscv-riscv/kernel/fs.c:535-569 | A volume with one file of one block, in order |
| Fs.BreaksOff | xv6-riscv-riscv/kernel/fs.c:550-555 | On it a write of two bytes of which one can be read returns 0; the file begins with the new byte, and its block is not logged |
| Fs.FileSystem.FileWrite | xv6-riscv-riscv/kernel/file.c:149-177 | Each chunk is a transaction of at most MAXOPBLOCKS blocks that never calls log_write on a full share; how many bytes the file gets and how far the offset moves are functions of the old state: up to the first unreadable byte or the end of the room; -1 unless that is everything; an unlogged block is left exactly if the copy broke off inside a mapped one |
| Directory.Namecmp | xv6-riscv-riscv/kernel/fs.c:573-577 | Compares at most DIRSIZ bytes, up to the first NUL: true exactly if the name cut to DIRSIZ is what the field holds |
| Directory.Dirlookup | xv6-riscv-riscv/kernel/fs.c:581-605 | The inode number and place of the first entry in use with that name, or 0 exactly if there is none; a short read is unreachable |
| Directory.LinkedNow | xv6-riscv-riscv/kernel/fs.c:622-635 | Writing the first unused entry gives the new name its inode number, leaves every other name its own, and keeps names unique |
| Directory.Dirlink | xv6-riscv-riscv/kernel/fs.c:609-636 | Succeeds exactly if the name is new and there is a place for it, and then writes exactly one entry, the first unused or the one behind the last; otherwise the directory is as before; no other file changes, and nothing is left unlogged |
| Directory.PlaceThere | xv6-riscv-riscv/kernel/fs.c:622-635 | There is a place exactly if an entry is unused, or a file can be that large and the disk has the blocks that it lacks |
| Directory.ResolvesIff | xv6-riscv-riscv/kernel/fs.c:632-634 | The new name stands for the inode number that was given if and only if that is less than 65536 |
| Directory.LinkLost | xv6-riscv-riscv/kernel/fs.c:632-634 | A name linked to inode 65536 is not found |
| Directory.TreeKept | xv6-riscv-riscv/kernel/fs.c:609-636 | A new name for an inode keeps all directories in order |
| Path.Skipelem | xv6-riscv-riscv/kernel/fs.c:652-675 | Takes the first element of the path, cut to DIRSIZ bytes, and leaves exactly the others |
| Path.JoinedElements | xv6-riscv-riscv/kernel/fs.c:640-675 | The elements of a/b are those of a and then those of b |
| Path.SpelledElements | xv6-riscv-riscv/kernel/fs.c:640-675 | Names without slashes, with one slash or more between any two and any number before and behind, are exactly the elements of that path |
| Path.EverySpelled | xv6-riscv-riscv/kernel/fs.c:640-675 | And every path is such a spelling of its elements |
| Directory.Namex | xv6-riscv-riscv/kernel/fs.c:681-714 | Follows the elements one by one from the root or the current directory; with nameiparent stops at the parent of the last and returns its name; 0 exactly if something is missing or no directory |
| Directory.PathsCompose | xv6-riscv-riscv/kernel/fs.c:681-714 | Looking up a/b is looking up b from what a names |
| SleepWakeup.StepKeeps | xv6-riscv-riscv/kernel/proc.c:550-595 | Each step of sleep, wakeup and kill, split where another process can come between, keeps the invariant of any client that checks its condition under the lock and wakes before it releases it |
| SleepWakeup.NoLostWakeup | xv6-riscv-riscv/kernel/proc.c:550-595 | In every interleaving a process that is asleep, or on its way there, still has its reason, or the lock's holder has yet to reach it in a wakeup |
| SleepLock.FollowsRules | xv6-riscv-riscv/kernel/sleeplock.c:21-41 | acquiresleep and releasesleep are such a client |
| SleepLock.AlwaysSafe | xv6-riscv-riscv/kernel/sleeplock.c:21-41 | In every interleaving at most one process holds the lock, and a process sleeps only while it is held or its releaser has yet to finish wakeup |
| SleepLock.NotStuck | xv6-riscv-riscv/kernel/sleeplock.c:21-41 | In every interleaving whoever has the spin lock can take its next step, or waits for a process that is falling asleep and can go on |
| LogSleep.FollowsRules | xv6-riscv-riscv/kernel/log.c:127-236 | begin_op, log_write and end_op are such a client: whoever makes room or ends a commit wakes the waiting before giving back the lock, and end_op's panic is unreachable |
| LogSleep.AlwaysSafe | xv6-riscv-riscv/kernel/log.c:127-176 | In every interleaving at most one process commits, and then no operation is in progress; a process sleeps in begin_op only while another is in an operation or commits and has yet to call wakeup, or has yet to reach it there |
| LogSleep.NotStuck | xv6-riscv-riscv/kernel/log.c:127-176 | In every interleaving whoever has the log's lock can take its next step, or waits for a process that is falling asleep and can go on |
| LogSleep.SameSteps | xv6-riscv-riscv/kernel/log.c:127-236 | The counters that decide about waiting change by the same steps as those of the log itself; the commit clears the list only while all wait anyway |
| LogSleep.WaitsWhenFull | xv6-riscv-riscv/kernel/log.c:131-136 | begin_op sleeps exactly while the log cannot admit the operation |
| ExitWait.FollowsRules | xv6-riscv-riscv/kernel/proc.c:318-423 | kexit, reparent and kwait are such a client, although kexit calls wakeup before it sets ZOMBIE: it still holds wait_lock |
| ExitWait.StepKeeps | xv6-riscv-riscv/kernel/proc.c:318-423 | Every step of every process keeps the invariant: each process but init has a living parent, pids are unique, a scan of kwait knows whether it has passed a child, whoever sleeps in kwait has a child, and each parent about to sleep has no zombie child or will be woken |
| ExitWait.ReapedOnce | xv6-riscv-riscv/kernel/proc.c:318-423 | In every interleaving each process is born, exits and is collected in this order and at most once each, with its own exit status; one that has exited and is not collected is a zombie whose parent is alive |
| ExitWait.ParentWoken | xv6-riscv-riscv/kernel/proc.c:378-423 | A parent asleep in kwait has a child, and no zombie child, or the process that holds wait_lock has yet to reach it in a wakeup |
| ExitWait.KwaitDecides | xv6-riscv-riscv/kernel/proc.c:389-421 | In every interleaving kwait, having found no zombie child, gives up exactly if the process has no child or has been killed, and otherwise goes to sleep |
| ExitWait.KwaitCollects | xv6-riscv-riscv/kernel/proc.c:389-412 | It collects the first of the process's own zombie children, with the status that one exited with, and frees its slot |
| ExitWait.KwaitEnds | xv6-riscv-riscv/kernel/proc.c:389-421 | It returns only with a child collected, without children, killed, or with a zombie child whose status it could not copy out |
| ExitWait.NotStuck | xv6-riscv-riscv/kernel/proc.c:318-423 | In every interleaving whoever has wait_lock can take its next step, or waits for a process that is falling asleep and can go on |
| ExitWait.BootInv | xv6-riscv-riscv/kernel/proc.c:228-240 | The invariant holds with init alone |
| VirtioRing.StepKeeps | xv6-riscv-riscv/kernel/virtio_disk.c:156-327 | Every step of driver, device and processes keeps the descriptors partitioned into free ones and disjoint chains of three, and rings and records in agreement |
| VirtioRing.NoThree | xv6-riscv-riscv/kernel/virtio_disk.c:201-213 | At most two requests are in flight on eight descriptors |
| VirtioRing.AvailFits | xv6-riscv-riscv/kernel/virtio_disk.c:267-277 | No avail entry is overwritten before the device has taken it |
| VirtioRing.UsedFits | xv6-riscv-riscv/kernel/virtio_disk.c:294-327 | No used entry is overwritten before the driver has seen it |
| VirtioRing.Wrapped | xv6-riscv-riscv/kernel/virtio_disk.c:294-327 | The 16-bit indices stand for the unbounded counters, also across their wrap, in both comparisons and slots |
| VirtioRing.DecodesRequest | xv6-riscv-riscv/kernel/virtio_disk.c:215-265 | The device reads from the chain exactly the request that was asked for: direction, first sector of the block, buffer, length and status byte, and which of them it may write to |
| VirtioRing.ExactlyOnce | xv6-riscv-riscv/kernel/virtio_disk.c:215-327 | In every interleaving each request is submitted, taken, answered, completed and freed in this order and at most once each, and freed only after all of it |
| VirtioRing.OnlyAnswersTransfer | xv6-riscv-riscv/kernel/virtio_disk.c:215-327 | Disk and buffers change only as an answered request says, by the sectors of its block, and a buffer in a request is nobody else's; the device writes only where the descriptor lets it |
| VirtioRing.BlockWritten | xv6-riscv-riscv/kernel/virtio_disk.c:218-218 | Writing the sectors of a block shows in that block and in no other |
| VirtioRing.NotStuck | xv6-riscv-riscv/kernel/virtio_disk.c:215-327 | In every interleaving every request in flight can go on to its next stage, or the ring has an earlier one to be taken or seen |
| Virtio.VirtioDisk.constructor | xv6-riscv-riscv/kernel/virtio_disk.c:61-153 | Every descriptor free and cleared, the rings empty |
| Virtio.VirtioDisk.AllocDesc | xv6-riscv-riscv/kernel/virtio_disk.c:156-166 | The first free descriptor |
| Virtio.VirtioDisk.FreeDesc | xv6-riscv-riscv/kernel/virtio_disk.c:169-182 | Panics exactly if the index is out of range or the descriptor free |
| Virtio.VirtioDisk.Alloc3Desc | xv6-riscv-riscv/kernel/virtio_disk.c:201-213 | The three lowest free descriptors, or, if there are not three, nothing changes and nothing panics |
| Virtio.VirtioDisk.FreeChain | xv6-riscv-riscv/kernel/virtio_disk.c:185-197 | Frees exactly the three of the chain, without a panic |
| Virtio.VirtioDisk.Submit | xv6-riscv-riscv/kernel/virtio_disk.c:215-277 | Puts the request into the ring exactly if three descriptors are free |
| Virtio.VirtioDisk.Intr | xv6-riscv-riscv/kernel/virtio_disk.c:294-327 | Marks exactly the answered requests as done, across the index wrap, without the status panic |
| Virtio.VirtioDisk.Finish | xv6-riscv-riscv/kernel/virtio_disk.c:279-292 | The waiting process frees its chain, without a panic |
| Umalloc.FreeUnitsDecide | xv6-riscv-riscv/user/umalloc.c:26-46 | A list in address order and fully coalesced is determined by its free units |
| Umalloc.FreedInv | xv6-riscv-riscv/user/umalloc.c:26-46 | free keeps the list circular, in address order with one wrap point and coalesced, in the headers in memory |
| Umalloc.ServedInv | xv6-riscv-riscv/user/umalloc.c:70-90 | Carving a block off the tail of a free one keeps the same, and live blocks stay disjoint |
| Umalloc.StopsAtPlace | xv6-riscv-riscv/user/umalloc.c:31-34 | The exit test of free's search, wrap included, holds at exactly one node of the circle |
| Umalloc.OnceRound | xv6-riscv-riscv/user/umalloc.c:74-90 | A search that has been once round has seen every block |
| Umalloc.UnitsSuffice | xv6-riscv-riscv/user/umalloc.c:71-71 | The units asked for hold the bytes and a header, and not a unit too many |
| Umalloc.AskedInFull | xv6-riscv-riscv/user/umalloc.c:48-63 | morecore asks sbrk for what it needs if and only if that is less than 2^27 units |
| Umalloc.ShrinksIff | xv6-riscv-riscv/kernel/proc.c:245-263 | A negative sbrk gives memory back if and only if the process has that much, and otherwise succeeds without doing anything |
| Umalloc.AskedTooLittle | xv6-riscv-riscv/user/umalloc.c:48-63 | From 2^27 units on sbrk never gives the block, and succeeds unless it had to grow: the process ends at least 2^31 bytes short of it. It has shrunk if and only if it had the bytes that the cut count takes away. The header that morecore then writes lies past its end, unless exactly a header was asked for |
| Umalloc.AskedNegative | xv6-riscv-riscv/user/umalloc.c:48-63 | malloc of 2^31 bytes asks sbrk for 16 - 2^31 bytes, which changes nothing unless the process has 2^31 - 16 bytes |
| Umalloc.Heap.FindPlace | xv6-riscv-riscv/user/umalloc.c:31-34 | The loop terminates at the one place of the block |
| Umalloc.Heap.Free | xv6-riscv-riscv/user/umalloc.c:26-46 | Exactly the block's units are free again, merged with both neighbours where they meet |
| Umalloc.Heap.MoreCore | xv6-riscv-riscv/user/umalloc.c:48-63 | Exactly the granted units join the free ones |
| Umalloc.Heap.Malloc | xv6-riscv-riscv/user/umalloc.c:65-91 | Terminates; runs wild exactly if no block is large enough and 2^27 units or more are needed; otherwise null exactly if no block is large enough and sbrk gives nothing, and else the end of the first block large enough, going round from where the last search ended, after sbrk's block has joined if there was none; disjoint from all live ones; free and live units always sum to what was granted |
| Umalloc.FirstFitOnce | xv6-riscv-riscv/user/umalloc.c:74-90 | There is exactly one such block |
| Grep.BeginsStar | xv6-riscv-riscv/user/grep.c:99-107 | A star matches zero or more characters: the two ways it can begin |
| Grep.ParseWritten | xv6-riscv-riscv/user/grep.c:85-96 | Writing items as characters, stars behind those that repeat and a dollar for the anchor, and reading them back gives the same pattern |
| Grep.MatchHere | xv6-riscv-riscv/user/grep.c:85-96 | True exactly if some prefix of the text can be split into pieces that the items of the pattern spell |
| Grep.MatchStar | xv6-riscv-riscv/user/grep.c:99-107 | The same for a starred item followed by a pattern |
| Grep.Match | xv6-riscv-riscv/user/grep.c:72-82 | True exactly if a match in that sense stands somewhere in the text, or at its ends where the pattern is anchored |
| ShellSyntax.CmdWords | xv6-riscv-riscv/user/sh.c:333-452 | The words of the tree are exactly the words of the line, each once, and each is a maximal run of plain characters |
| ShellSyntax.CharClasses | xv6-riscv-riscv/user/sh.c:268-269 | Which characters separate words, which are symbols of their own, and that every other one makes a word |
| ShellShape.MixedCommand | xv6-riscv-riscv/user/sh.c:380-452 | However arguments and redirections are mixed, the tree has the arguments in order inside and the redirections around them, the first one written innermost; it fails exactly with ten arguments or more |
| ShellShape.LineParsed | xv6-riscv-riscv/user/sh.c:350-378 | The tree of a line of pipelines of such commands: jobs from left to right, each under the ampersands behind it, with pipes and semicolons nesting to the right |
| ShellPrint.RoundTrip | xv6-riscv-riscv/user/sh.c:271-452 | Parsing the parenthesised print of a command tree gives the tree back if and only if no command in it has ten arguments or more; otherwise it is refused for that |
| Shell.GetToken | xv6-riscv-riscv/user/sh.c:271-313 | Returns the next token and its place, and leaves exactly the tokens after it |
| Shell.Peek | xv6-riscv-riscv/user/sh.c:316-326 | Looks at the next token without taking it |
| Shell.ParseRedirs | xv6-riscv-riscv/user/sh.c:380-403 | The loop reads the redirections that the grammar has there, or refuses as it does |
| Shell.ParseExec | xv6-riscv-riscv/user/sh.c:421-452 | The loop reads the command that the grammar has there, or refuses as it does |
| Shell.ParseBlock | xv6-riscv-riscv/user/sh.c:405-419 | The same for a block; its first panic is unreachable |
| Shell.ParsePipe | xv6-riscv-riscv/user/sh.c:367-378 | The same for a pipeline |
| Shell.ParseLine | xv6-riscv-riscv/user/sh.c:350-365 | The same for a line; all of these terminate on every string |
| Shell.NulTerminate | xv6-riscv-riscv/user/sh.c:455-499 | Writes a NUL behind each word of the tree and changes nothing else |
| Shell.ParseCmd | xv6-riscv-riscv/user/sh.c:333-348 | Refuses exactly as the grammar does; otherwise the tree is the grammar's and every argument and file name in the buffer reads as exactly its token |

## Findings

- `buddy_init` places chunks with a step scaled by the size of a pointer (buddy.c:131), so on a count that is not a power
  of two they leave the region (`Buddy.LayoutInsideIffPow2`, `Buddy.ThreeBlocks`).
- `kmalloc` accepts up to 131072 bytes and never serves more than 32768: larger classes get slabs that hold no object
  (`SlabState.HoldsAnObject`, `Slab.KmemAllocator.Kmalloc`).
- `log_write` checks for a full log before it looks whether the block is in it already (log.c:221), so an operation that
  writes an already logged block again panics when the log is full, and three operations within their shares can fill it
  (`Log.WriteAheadLog.LogWrite`, `LogShare.FullLog`). An operation that has logged fewer than MAXOPBLOCKS blocks is safe
  (`LogShare.Fits`); `filewrite` always is (`Fs.FileSystem.FileWrite`).
- When a copy from the user breaks off inside a block that was mapped and not logged before, `writei` leaves the copied
  bytes in a buffer that it does not log (fs.c:552): they show in the file until the buffer is recycled. A new block is
  logged by `balloc`, so its bytes are only uncounted. `Fs.FileSystem.Writei` has the exact condition, `Fs.BreaksOff` an
  input.
- `malloc` of 2^31 bytes or so passes `sbrk` a byte count cut to an int (umalloc.c:56). A negative one wraps around in
  `growproc`, and `uvmdealloc` takes the result for a larger size (vm.c:249): nothing shrinks unless the process is that
  large, `sbrk` returns the old end, and `morecore` writes its header behind it (`Umalloc.AskedTooLittle`,
  `Umalloc.ShrinksIff`, `Umalloc.AskedNegative`).
- `dirlink` keeps 16 bits of an inode number, so a name stands for the number given only below 65536, and a multiple of
  65536 makes an entry that counts as unused (`Directory.ResolvesIff`, `Directory.LinkLost`).
- `log2_ceil` doubles an int and does not stop for arguments above 2^30 (`Buddy.Log2CeilStops`).

## Left out

- Log.WriteAheadLog.EndOp: commits in one call only while nobody has locked a block that the commit moves; with readers in
  between, its block writes are the separate steps of `LogState.StepKeeps`.
- Log.WriteAheadLog.BeginOp: one pass of the loop; the sleeping and waking around it is `LogSleep.AlwaysSafe`.
- LogSleep.AlwaysSafe: safety only, as for `SleepWakeup.NoLostWakeup`.
- FsLog.VolumeSurvives: how inodes and bitmap lie in their blocks is a parameter, and an operation that leaves a block
  unlogged, as `writei` can, does not follow the log's rules.
- Bio.BufferCache.Bread: supposes that `bget` does not panic for want of memory, which `Bget` does model.
- Bio.BufferCache.Bget: the doubly linked list is a sequence; its pointers are not modelled.
- Slab.KmemAllocator.CacheFree: only for live objects of that cache, since the code does not check it.
- Slab.KmemAllocator.Kmalloc: the layer is sequential, as under its locks; constructors and destructors of objects and the
  names of caches are left out.
- Vm.VirtualMemory.Uvmunmap: with `do_free`, only for pages that the table holds; freeing a borrowed page is an error of the
  caller.
- UserCopy.Copyin: a page that is not mapped is a failure, without `vmfault`, whose failure arm hands its page to the wrong
  allocator (vm.c:469); frame 0, which `walkaddr` would take for none, is not in the pool.
- UserCopy.Copyout: as `Copyin`; `copyinstr` is left out.
- Fs.FileSystem.Bmap: block numbers past the largest file are excluded by its callers, so its panic is a precondition.
- Fs.FileSystem.FileWrite: inodes only; pipes and devices are left out. Another writer of the same file between two chunks
  is not modelled.
- Directory.Namex: the inode cache (`iget`, `iput`, locks, link counts) is left out, and which inodes are directories is a
  parameter.
- ExitWait.StepKeeps: a process's own lock and the context switch are left out, and a new child becomes alive when its
  parent is set.
- SleepWakeup.NoLostWakeup: safety only; that a runnable process is scheduled is not stated.
- Virtio.VirtioDisk.Submit: one pass of the loop that waits for descriptors.
- VirtioRing.StepKeeps: memory barriers, feature negotiation and error status from the device are left out.
- Umalloc.Heap.Malloc: what a call that runs wild does to memory past the end is not modelled. Memory that `sbrk` gives is new; other callers of `sbrk` in between are allowed.
- Shell.ParseCmd: the `malloc` of tree nodes does not fail; running commands is left out.
- Grep.Match: the loop that reads lines is left out.
- Traps, UART, console, pipes, `exec`, system-call wrappers, printing, `mkfs` and the boot code: device plumbing, or
  simpler than the rest.
- Inode allocation, link counts and orphan reclaim of `fs.c` and `sysfile.c`.
